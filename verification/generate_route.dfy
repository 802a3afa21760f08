/**
 * The generate route (`POST /api/generate`): authenticate, look the document up by id AND
 * owner, check the balance, debit one credit, build the prompt, call the language model in
 * streaming mode and relay its text deltas as a plain-text stream. The signed-in user, the
 * tables, the outcome of the debit write and the model's stream are inputs.
 */
module GenerateRoute {
  import opened Wrappers
  import opened Text
  import opened Store

  /** The JSON body `{documentId, type, weeks}`. */
  datatype GenerateRequest = GenerateRequest(documentId: string, contentType: string, weeks: Option<int>)

  /** A streamed completion chunk, of which the route reads `choices[0]?.delta?.content`. */
  datatype Delta = Delta(content: Option<string>)
  datatype Choice = Choice(delta: Option<Delta>)
  datatype Chunk = Chunk(choices: seq<Choice>)

  /** What the provider does with the request: it rejects the call, or yields chunks and then either ends or throws. */
  datatype Completion = CreateFailed | Stream(chunks: seq<Chunk>, throwsAtEnd: bool)

  /** How the response stream ends: closed once after the last chunk, or errored by an exception from the source. */
  datatype Ending = Closed | Errored

  datatype Response =
    | JsonError(status: int, error: string)
    | TextStream(pieces: seq<string>, ending: Ending)
    | ServerError
  {
    function Status(): int
    {
      match this
      case JsonError(s, _) => s
      case TextStream(_, _) => 200
      case ServerError => 500
    }
  }

  /**
   * The calls the route makes to its collaborators, in order. The provider call is recorded
   * by the arguments of the prompt it sends, `BuildPrompt(contentType, extracted, title, weeks)`.
   */
  datatype Effect =
    | ReadDocument
    | ReadProfile
    | UpdateCredits(user: UserId, credits: int)
    | CallProvider(contentType: string, extracted: Option<string>, title: string, weeks: Option<int>)

  datatype Outcome = Outcome(response: Response, db: Db, effects: seq<Effect>)

  /** `chunk.choices[0]?.delta?.content || ''` */
  function DeltaText(c: Chunk): (t: string)
    ensures |c.choices| == 0 || c.choices[0].delta.None? ==> t == ""
    ensures |c.choices| > 0 && c.choices[0].delta.Some? ==> t == OrElse(c.choices[0].delta.value.content, "")
  {
    if |c.choices| > 0 && c.choices[0].delta.Some? then OrElse(c.choices[0].delta.value.content, "") else ""
  }

  /** The `for await` loop: one enqueued piece per source chunk, in source order. */
  function Relay(chunks: seq<Chunk>): (pieces: seq<string>)
    ensures |pieces| == |chunks|
    ensures forall i :: 0 <= i < |chunks| ==> pieces[i] == DeltaText(chunks[i])
  {
    if |chunks| == 0 then [] else [DeltaText(chunks[0])] + Relay(chunks[1..])
  }

  /**
   * The relay framed the way the generate page reads a stream: each piece as one `data: `
   * line carrying the piece's JSON encoding (`encode` stands for `JSON.stringify({content})`).
   */
  function EventRelay(chunks: seq<Chunk>, encode: string -> string): (events: seq<string>)
    ensures |events| == |chunks|
    // Each event is one line: the `data: ` prefix, the encoded delta text of its chunk, a newline.
    ensures forall i :: 0 <= i < |chunks| ==>
      && StartsWith(events[i], "data: ")
      && |events[i]| >= 7 && events[i][|events[i]| - 1] == '\n'
      && events[i][6..|events[i]| - 1] == encode(DeltaText(chunks[i]))
  {
    seq(|chunks|, i requires 0 <= i < |chunks| => "data: " + encode(DeltaText(chunks[i])) + "\n")
  }

  /** The relay is a homomorphism: relaying two stretches of the source one after the other gives the body of relaying them together. */
  lemma RelayAppend(a: seq<Chunk>, b: seq<Chunk>)
    ensures Relay(a + b) == Relay(a) + Relay(b)
    ensures Flatten(Relay(a + b)) == Flatten(Relay(a)) + Flatten(Relay(b))
  {
    var whole := Relay(a + b);
    var parts := Relay(a) + Relay(b);
    forall i | 0 <= i < |whole| ensures whole[i] == parts[i]
    {
      if i < |a| {
        assert (a + b)[i] == a[i];
      } else {
        assert (a + b)[i] == b[i - |a|];
      }
    }
    assert whole == parts;
    FlattenAppend(Relay(a), Relay(b));
  }

  /** The whole `POST` handler as one decision over its inputs. */
  function Generate(db: Db, user: Option<UserId>, req: GenerateRequest, debitWriteOk: bool, completion: Completion): (o: Outcome)
    // No user: 401 before anything is read.
    ensures o.response.Status() == 401 <==> user.None?
    ensures user.None? ==> o.effects == [] && o.db == db
    // A document that is missing or owned by someone else: 404, before any credit read.
    ensures o.response.Status() == 404 <==> user.Some? && OwnedDocument(db, req.documentId, user.value).None?
    ensures o.response.Status() == 404 ==> o.effects == [ReadDocument] && o.db == db
    // A missing profile, null credits or a balance below 1: 402 with no write.
    ensures o.response.Status() == 402 <==>
      user.Some? && OwnedDocument(db, req.documentId, user.value).Some? && Balance(db, user.value) < 1
    ensures o.response.Status() == 402 ==> o.effects == [ReadDocument, ReadProfile] && o.db == db
    // Past the guard: exactly one debit, issued before the provider call; no refund on failure.
    ensures o.response.Status() !in {401, 404, 402} ==>
      var u := user.value;
      && Balance(db, u) >= 1
      && |o.effects| == 4
      && o.effects[..3] == [ReadDocument, ReadProfile, UpdateCredits(u, Balance(db, u) - 1)]
      && req.documentId in db.documents
      && o.effects[3] == CallProvider(req.contentType, db.documents[req.documentId].extractedText,
                                      db.documents[req.documentId].title, req.weeks)
      && (debitWriteOk ==> Balance(o.db, u) == Balance(db, u) - 1 >= 0)
      && (!debitWriteOk ==> o.db == db)
    ensures forall v :: user.None? || v != user.value ==> Balance(o.db, v) == Balance(db, v)
    ensures o.db.documents == db.documents && o.db.transactions == db.transactions
    ensures o.response.ServerError? <==> o.response.Status() == 500
    ensures o.response.ServerError? <==> o.response.Status() !in {401, 404, 402} && completion.CreateFailed?
    // Once the stream is opened it relays every chunk, whether or not the debit was written, and
    // ends errored exactly when the provider's iterator throws.
    ensures o.response.Status() !in {401, 404, 402} && completion.Stream? ==>
      o.response == TextStream(Relay(completion.chunks), if completion.throwsAtEnd then Errored else Closed)
  {
    if user.None? then Outcome(JsonError(401, "Unauthorized"), db, [])
    else
      var u := user.value;
      var doc := OwnedDocument(db, req.documentId, u);
      if doc.None? then Outcome(JsonError(404, "Document not found"), db, [ReadDocument])
      else if u !in db.users || db.users[u].credits.GetOr(0) < 1 then
        Outcome(JsonError(402, "Not enough credits"), db, [ReadDocument, ReadProfile])
      else
        var remaining := db.users[u].credits.value - 1;
        var debited := if debitWriteOk then SetCredits(db, u, remaining) else db;
        var call := CallProvider(req.contentType, doc.value.extractedText, doc.value.title, req.weeks);
        var effects := [ReadDocument, ReadProfile, UpdateCredits(u, remaining), call];
        match completion
        case CreateFailed => Outcome(ServerError, debited, effects)
        case Stream(chunks, throws) =>
          Outcome(TextStream(Relay(chunks), if throws then Errored else Closed), debited, effects)
  }

  /**
   * A successful generation sends the prompt built from the owned document and streams the
   * in-order concatenation of the chunks' delta texts, closing once when the source ends.
   */
  lemma StreamedBody(db: Db, u: UserId, req: GenerateRequest, chunks: seq<Chunk>)
    requires OwnedDocument(db, req.documentId, u).Some? && Balance(db, u) >= 1
    ensures var o := Generate(db, Some(u), req, true, Stream(chunks, false));
      var d := db.documents[req.documentId];
      && o.response == TextStream(Relay(chunks), Closed)
      && o.effects[3] == CallProvider(req.contentType, d.extractedText, d.title, req.weeks)
      && Balance(o.db, u) == Balance(db, u) - 1
  {
  }
}
