/**
 * The routes and pages composed: the ledger invariant over any run of generations and
 * purchases, the end-to-end scenarios, the path an uploaded PDF takes to text extraction,
 * and what the generate page shows of the generate route's stream.
 */
module Flows {
  import opened Wrappers
  import opened Text
  import opened Numbers
  import opened Store
  import opened Prompts
  import GenerateRoute
  import WebhookRoute
  import ExtractTextRoute
  import Upload
  import GeneratePage

  // ---------------------------------------------------------------------------------------
  // The credit ledger

  /** A generation never takes a balance below zero: the guard lets through only balances of at least 1. */
  lemma GenerateKeepsNonNegative(db: Db, user: Option<UserId>, req: GenerateRoute.GenerateRequest,
                                 debitWriteOk: bool, completion: GenerateRoute.Completion)
    requires NonNegative(db)
    ensures NonNegative(GenerateRoute.Generate(db, user, req, debitWriteOk, completion).db)
  {
    var o := GenerateRoute.Generate(db, user, req, debitWriteOk, completion);
    NonNegativeBalances(db);
    forall v ensures Balance(o.db, v) >= 0 {
      if user.Some? && v == user.value && o.db != db {
        assert o.response.Status() !in {401, 404, 402};
      }
    }
    NonNegativeBalances(o.db);
  }

  /** A request to the ledger: a generation or a payment event. */
  datatype LedgerRequest =
    | Generation(user: Option<UserId>, req: GenerateRoute.GenerateRequest, debitWriteOk: bool, completion: GenerateRoute.Completion)
    | Payment(event: WebhookRoute.WebhookRequest, env: WebhookRoute.WebhookEnv)

  function Step(db: Db, r: LedgerRequest): Db
  {
    match r
    case Generation(user, req, ok, completion) => GenerateRoute.Generate(db, user, req, ok, completion).db
    case Payment(event, env) => WebhookRoute.HandleWebhook(db, event, env).db
  }

  /** Requests handled one after another. */
  function RunLedger(db: Db, rs: seq<LedgerRequest>): Db
    decreases |rs|
  {
    if |rs| == 0 then db else RunLedger(Step(db, rs[0]), rs[1..])
  }

  /** No payment event carries a negative number of credits. */
  predicate NoNegativePurchase(r: LedgerRequest)
  {
    r.Payment? && r.event.verified.Some? ==>
      var n := WebhookRoute.PurchasedCredits(r.event.verified.value.session);
      n.Int? ==> n.value >= 0
  }

  /** Any run of generations and non-negative purchases keeps every balance non-negative. */
  lemma {:induction false} LedgerStaysNonNegative(db: Db, rs: seq<LedgerRequest>)
    requires NonNegative(db)
    requires forall i :: 0 <= i < |rs| ==> NoNegativePurchase(rs[i])
    ensures NonNegative(RunLedger(db, rs))
    decreases |rs|
  {
    if |rs| > 0 {
      match rs[0] {
        case Generation(user, req, ok, completion) =>
          GenerateKeepsNonNegative(db, user, req, ok, completion);
        case Payment(event, env) =>
          assert NoNegativePurchase(rs[0]);
          WebhookRoute.PreservesNonNegative(db, event, env);
      }
      LedgerStaysNonNegative(Step(db, rs[0]), rs[1..]);
    }
  }

  // ---------------------------------------------------------------------------------------
  // End-to-end scenarios

  /**
   * An account with 5 credits asks for multiple-choice questions on a document whose text is
   * extracted: the answer is a stream, the balance drops to 4, and the prompt sent embeds the
   * text and asks for 10 questions.
   */
  lemma ScenarioPaidGeneration(u: UserId, id: string, title: string, chunks: seq<GenerateRoute.Chunk>)
    ensures var text := "Algebra basics...";
      var db := Db(map[u := Profile(Some(5))], map[id := Document(u, title, "", "", Some(text))], []);
      var req := GenerateRoute.GenerateRequest(id, "mcq", None);
      var o := GenerateRoute.Generate(db, Some(u), req, true, GenerateRoute.Stream(chunks, false));
      && o.response.TextStream?
      && Balance(o.db, u) == 4
      && o.effects[3] == GenerateRoute.CallProvider("mcq", Some(text), title, None)
      && var t := TemplateFor(Mcq, None);
         var p := BuildPrompt("mcq", Some(text), title, None);
         ParseInt(p[CountOffset(t, text)..]) == Int(10)
  {
    var text := "Algebra basics...";
    var db := Db(map[u := Profile(Some(5))], map[id := Document(u, title, "", "", Some(text))], []);
    var req := GenerateRoute.GenerateRequest(id, "mcq", None);
    GenerateRoute.StreamedBody(db, u, req, chunks);
    RequestedItems("mcq", Some(text), title, None);
  }

  /** An account with no credits gets 402 and keeps its zero balance. */
  lemma ScenarioNoCredits(db: Db, u: UserId, req: GenerateRoute.GenerateRequest, ok: bool, completion: GenerateRoute.Completion)
    requires OwnedDocument(db, req.documentId, u).Some? && u in db.users && db.users[u].credits == Some(0)
    ensures var o := GenerateRoute.Generate(db, Some(u), req, ok, completion);
      o.response == GenerateRoute.JsonError(402, "Not enough credits") && Balance(o.db, u) == 0
  {
  }

  /** An unauthenticated request gets 401 and touches nothing, not even the document table. */
  lemma ScenarioSignedOut(db: Db, req: GenerateRoute.GenerateRequest, ok: bool, completion: GenerateRoute.Completion)
    ensures var o := GenerateRoute.Generate(db, None, req, ok, completion);
      o.response == GenerateRoute.JsonError(401, "Unauthorized") && o.effects == [] && o.db == db
  {
  }

  /** Worked example for ScenarioPurchase: the number 50 is written as the text "50". */
  lemma FiftyWritten()
    ensures IntToString(50) == "50"
  {
    assert DigitChar(5) == '5' && DigitChar(0) == '0';
    assert NatToString(5) == "5";
    assert NatToString(50) == NatToString(5) + [DigitChar(0)];
  }

  /** Worked example for ScenarioPurchase: the metadata text "50" reads back as 50 credits. */
  lemma FiftyReadsBack()
    ensures IntToString(50) == "50"
    ensures ParseInt("50") == Int(50)
  {
    FiftyWritten();
    ParseIntRoundTrip(50);
  }

  /** A signed completed checkout for `u1` with `credits: "50"` adds exactly 50 credits and records one completed transaction. */
  lemma ScenarioPurchase(db: Db, sessionId: string)
    requires "u1" in db.users
    ensures var e := WebhookRoute.Event(WebhookRoute.CheckoutCompleted,
        WebhookRoute.Session(sessionId, Some(WebhookRoute.Metadata(Some("u1"), Some("50")))));
      var o := WebhookRoute.HandleWebhook(db, WebhookRoute.WebhookRequest(Some("sig"), Some(e)),
        WebhookRoute.WebhookEnv(false, false, false));
      && o.response == WebhookRoute.Received
      && Balance(o.db, "u1") == Balance(db, "u1") + 50
      && o.db.transactions == db.transactions + [Transaction("u1", sessionId, 50, "completed")]
  {
    FiftyReadsBack();
    assert WebhookRoute.CheckoutMetadata("u1", 50) == WebhookRoute.Metadata(Some("u1"), Some("50"));
    WebhookRoute.PurchaseRoundTrip(db, "u1", 50, sessionId, "sig");
  }

  // ---------------------------------------------------------------------------------------
  // From upload to text extraction

  /** An upload that completed with an id, and the extraction it then requests. */
  predicate UploadedAs(file: Upload.SelectedFile, storage: Storage, db: Db, env: Upload.UploadEnv, id: string)
  {
    && Upload.HandleUpload(Some(file), storage, db, env).outcome == Upload.Uploaded(id)
    && id != ""
  }

  /**
   * As written, extraction asks storage for the public URL's last segment, `<timestamp>-<name>`,
   * while upload stored the file under `<user id>/<timestamp>-<name>`: unless an unrelated object
   * happens to sit at that name in the bucket root, the download fails with 500.
   */
  lemma UploadedPdfNotFound(file: Upload.SelectedFile, storage: Storage, db: Db, env: Upload.UploadEnv,
                            id: string, parse: Blob -> Option<string>, updateFails: bool)
    requires UploadedAs(file, storage, db, env, id)
    requires '/' !in env.user.value && '/' !in file.name
    requires NatToString(env.now) + "-" + file.name !in storage
    ensures var r := Upload.HandleUpload(Some(file), storage, db, env);
      var o := ExtractTextRoute.Extract(r.db, env.user, id, ExtractTextRoute.ExtractEnv(r.storage, parse, updateFails));
      o.status == 500 && o.reply == ExtractTextRoute.Failure("Failed to download PDF") && o.db == r.db
  {
    var r := Upload.HandleUpload(Some(file), storage, db, env);
    var u := env.user.value;
    var path := Upload.StoragePath(u, env.now, file.name);
    UploadedRow(file, storage, db, env, id);
    UrlKeyMissesPath(env.publicBase, u, env.now, file.name);
    var key := ExtractTextRoute.DownloadKey(ExtractTextRoute.LastUrlSegment, r.db.documents[id]);
    assert key == NatToString(env.now) + "-" + file.name;
    assert key !in r.storage;
  }

  /** The row and the object a completed upload leaves behind; the row still needs its text. */
  lemma UploadedRow(file: Upload.SelectedFile, storage: Storage, db: Db, env: Upload.UploadEnv, id: string)
    requires UploadedAs(file, storage, db, env, id)
    ensures var r := Upload.HandleUpload(Some(file), storage, db, env);
      var u := env.user.value;
      var path := Upload.StoragePath(u, env.now, file.name);
      && env.user.Some?
      && id in r.db.documents
      && r.db.documents[id] == Document(u, file.name, Upload.PublicUrl(env.publicBase, path), path, None)
      && r.storage == storage[path := file.contents]
      && ExtractTextRoute.NeedsText(r.db, env.user, id)
  {
    var r := Upload.HandleUpload(Some(file), storage, db, env);
    var u := env.user.value;
    var path := Upload.StoragePath(u, env.now, file.name);
    var row := Document(u, file.name, Upload.PublicUrl(env.publicBase, path), path, None);
    assert r.outcome.Uploaded? && r.outcome.documentId == id;
    assert r.db.documents == db.documents[id := row];
    assert r.db.documents[id] == row;
    assert OwnedDocument(r.db, id, u).Some?;
  }

  /** The last segment of the public URL is the stored path without its folder, so it names a different object. */
  lemma UrlKeyMissesPath(base: string, u: UserId, now: nat, name: string)
    requires '/' !in u && '/' !in name
    ensures var path := Upload.StoragePath(u, now, name);
      && LastSegment(Upload.PublicUrl(base, path)) == NatToString(now) + "-" + name
      && NatToString(now) + "-" + name != path
  {
    var path := Upload.StoragePath(u, now, name);
    var part := NatToString(now) + "-" + name;
    Upload.StoragePathSegments(u, now, name);
    assert Upload.PublicUrl(base, path) == (base + "/" + u) + ['/'] + part;
    LastSegmentOfSuffix(base + "/" + u, part);
    assert part != path by {
      assert path[|u|] == '/';
    }
  }

  /**
   * Downloading the stored object path instead finds the uploaded PDF: when the parser reads
   * it and the update succeeds, the document gets the parsed text, cut to 100 000 characters.
   */
  lemma UploadedPdfExtracted(file: Upload.SelectedFile, storage: Storage, db: Db, env: Upload.UploadEnv,
                             id: string, parse: Blob -> Option<string>)
    requires UploadedAs(file, storage, db, env, id)
    requires parse(file.contents).Some?
    ensures var r := Upload.HandleUpload(Some(file), storage, db, env);
      var o := ExtractTextRoute.ExtractFixed(r.db, env.user, id, ExtractTextRoute.ExtractEnv(r.storage, parse, false));
      && o.reply == ExtractTextRoute.Message("Text extracted successfully")
      && ExtractTextRoute.Stored(o.db, id, Truncate(parse(file.contents).value, ExtractTextRoute.MaxTextLength))
  {
    var r := Upload.HandleUpload(Some(file), storage, db, env);
    var u := env.user.value;
    var path := Upload.StoragePath(u, env.now, file.name);
    var row := Document(u, file.name, Upload.PublicUrl(env.publicBase, path), path, None);
    assert r.outcome.Uploaded? && r.outcome.documentId == id;
    assert r.db.documents == db.documents[id := row];
    assert r.db.documents[id] == row;
    assert OwnedDocument(r.db, id, u).Some?;
  }

  // ---------------------------------------------------------------------------------------
  // What the generate page shows of the generate route's stream

  /**
   * The route streams the model's text as it is; the page keeps only `data: ` lines. Whenever
   * no line of the generated text starts with `data: `, the page shows nothing, however much
   * was generated.
   */
  lemma PlainRelayShowsNothing(db: Db, u: UserId, req: GenerateRoute.GenerateRequest,
                               chunks: seq<GenerateRoute.Chunk>, parse: GeneratePage.Parser)
    requires OwnedDocument(db, req.documentId, u).Some? && Balance(db, u) >= 1
    requires forall i :: 0 <= i < |chunks| ==> GeneratePage.PlainText(GenerateRoute.DeltaText(chunks[i]))
    ensures var o := GenerateRoute.Generate(db, Some(u), req, true, GenerateRoute.Stream(chunks, false));
      && o.response == GenerateRoute.TextStream(GenerateRoute.Relay(chunks), GenerateRoute.Closed)
      && Balance(o.db, u) == Balance(db, u) - 1
      && GeneratePage.StreamContent(o.response.pieces, parse) == ""
  {
    GenerateRoute.StreamedBody(db, u, req, chunks);
    GeneratePage.PlainStreamShowsNothing(GenerateRoute.Relay(chunks), parse);
  }

  /** One line without a newline that does not start with `data: ` gives the page nothing to show. */
  lemma SingleLinePlain(text: string)
    requires '\n' !in text && !GeneratePage.IsDataLine(text)
    ensures GeneratePage.PlainText(text)
  {
    SplitCount(text, '\n');
  }

  /** Worked example for PaidForNothing: the sample completion is such a line. */
  lemma WeekOneIsPlain()
    ensures GeneratePage.PlainText("Week 1: Fractions")
  {
    var text := "Week 1: Fractions";
    assert text[0] == 'W';
    SingleLinePlain(text);
  }

  /** A concrete instance: one credit is spent on "Week 1: Fractions", and the page shows "". */
  lemma PaidForNothing(db: Db, u: UserId, req: GenerateRoute.GenerateRequest, parse: GeneratePage.Parser)
    requires OwnedDocument(db, req.documentId, u).Some? && Balance(db, u) >= 1
    ensures var chunk := GenerateRoute.Chunk([GenerateRoute.Choice(Some(GenerateRoute.Delta(Some("Week 1: Fractions"))))]);
      var o := GenerateRoute.Generate(db, Some(u), req, true, GenerateRoute.Stream([chunk], false));
      && Flatten(o.response.pieces) == "Week 1: Fractions"
      && Balance(o.db, u) == Balance(db, u) - 1
      && GeneratePage.StreamContent(o.response.pieces, parse) == ""
  {
    var text := "Week 1: Fractions";
    var chunk := GenerateRoute.Chunk([GenerateRoute.Choice(Some(GenerateRoute.Delta(Some(text))))]);
    assert GenerateRoute.DeltaText(chunk) == text;
    WeekOneIsPlain();
    PlainRelayShowsNothing(db, u, req, [chunk], parse);
    assert GenerateRoute.Relay([chunk]) == [text];
    assert Flatten([text]) == text + Flatten([]);
  }

  /**
   * The other repair: a page that appends each decoded chunk as plain text shows exactly the
   * generated text the route streams as written, whether or not the stream later errors.
   */
  lemma PlainPageShowsRelay(db: Db, u: UserId, req: GenerateRoute.GenerateRequest, debitWriteOk: bool,
                            chunks: seq<GenerateRoute.Chunk>, throwsAtEnd: bool)
    requires OwnedDocument(db, req.documentId, u).Some? && Balance(db, u) >= 1
    ensures var o := GenerateRoute.Generate(db, Some(u), req, debitWriteOk, GenerateRoute.Stream(chunks, throwsAtEnd));
      && o.response.TextStream?
      && GeneratePage.AppendChunks(o.response.pieces) == Flatten(GenerateRoute.Relay(chunks))
  {
  }

  /**
   * What the framed relay needs of the JSON encoding: one line, never the `[DONE]` marker,
   * and read back by `JSON.parse` as an object whose `content` is the piece.
   */
  ghost predicate JsonCodec(encode: string -> string, parse: GeneratePage.Parser)
  {
    forall s :: '\n' !in encode(s) && encode(s) != GeneratePage.DoneMarker && parse(encode(s)) == Some(GeneratePage.Payload(Some(s)))
  }

  /** One framed event shows exactly its piece. */
  lemma EventShowsPiece(piece: string, encode: string -> string, parse: GeneratePage.Parser)
    requires JsonCodec(encode, parse)
    ensures GeneratePage.ChunkContent("data: " + encode(piece) + "\n", parse) == piece
  {
    var e := encode(piece);
    var line := GeneratePage.DataPrefix + e;
    assert '\n' !in line;
    assert "data: " + e + "\n" == line + ['\n'] + "";
    SplitPrefix(line, "", '\n');
    SplitCount("", '\n');
    var lines := Split("data: " + e + "\n", '\n');
    assert lines == [line, ""];
    assert line[|GeneratePage.DataPrefix|..] == e;
    assert GeneratePage.IsDataLine(line);
    assert !GeneratePage.IsDone(line);
    assert lines[1..] == [""];
    assert GeneratePage.ProcessLines([""], parse) == "";
  }

  /**
   * With `data: ` framing the page shows exactly what the route generated: the in-order
   * concatenation of the chunks' delta texts.
   */
  lemma FramedRelayShown(chunks: seq<GenerateRoute.Chunk>, encode: string -> string, parse: GeneratePage.Parser)
    requires JsonCodec(encode, parse)
    ensures GeneratePage.StreamContent(GenerateRoute.EventRelay(chunks, encode), parse) == Flatten(GenerateRoute.Relay(chunks))
  {
    var events := GenerateRoute.EventRelay(chunks, encode);
    var shown := GeneratePage.ChunkContents(events, parse);
    forall i | 0 <= i < |chunks| ensures shown[i] == GenerateRoute.Relay(chunks)[i]
    {
      EventShowsPiece(GenerateRoute.DeltaText(chunks[i]), encode, parse);
    }
    assert shown == GenerateRoute.Relay(chunks);
  }
}
