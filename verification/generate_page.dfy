/**
 * The generate page's `handleGenerate`: a client-side credit check, a reset of the shown
 * output, the request to the generate route, and the read loop that turns each received
 * chunk into lines, keeps the `data: ` lines, stops a chunk at `[DONE]`, and appends the
 * `content` of every payload that parses. `JSON.parse` is a parameter.
 */
module GeneratePage {
  import opened Wrappers
  import opened Text

  /** The part of a parsed payload the page reads: its `content` field. */
  datatype Payload = Payload(content: Option<string>)

  /** `JSON.parse`: None when it throws. */
  type Parser = string -> Option<Payload>

  const DataPrefix: string := "data: "
  const DoneMarker: string := "[DONE]"

  predicate IsDataLine(line: string)
  {
    StartsWith(line, DataPrefix)
  }

  predicate IsDone(line: string)
  {
    IsDataLine(line) && line[|DataPrefix|..] == DoneMarker
  }

  /** What one line adds to the output: the truthy `content` of a data line whose payload parses, otherwise nothing. */
  function LineContent(line: string, parse: Parser): (r: string)
    ensures !IsDataLine(line) ==> r == ""
    ensures IsDataLine(line) && parse(line[|DataPrefix|..]).None? ==> r == ""
    // A data line whose payload parses adds its `content` when that is truthy, and nothing otherwise.
    ensures IsDataLine(line) && parse(line[|DataPrefix|..]).Some? ==>
      var content := parse(line[|DataPrefix|..]).value.content;
      && (Truthy(content) ==> r == content.value)
      && (!Truthy(content) ==> r == "")
  {
    if IsDataLine(line) then
      var parsed := parse(line[|DataPrefix|..]);
      if parsed.Some? && Truthy(parsed.value.content) then parsed.value.content.value else ""
    else ""
  }

  /** The `for (const line of lines)` loop of one chunk, with its `break` at `[DONE]`. */
  function ProcessLines(lines: seq<string>, parse: Parser): (r: string)
    // Lines none of which is a data line contribute nothing.
    ensures (forall i :: 0 <= i < |lines| ==> !IsDataLine(lines[i])) ==> r == ""
  {
    if |lines| == 0 then ""
    else if IsDone(lines[0]) then ""
    else LineContent(lines[0], parse) + ProcessLines(lines[1..], parse)
  }

  /** The index of the first `data: [DONE]` line, or the number of lines when there is none. */
  function FirstDone(lines: seq<string>): (k: nat)
    ensures k <= |lines|
    ensures forall i :: 0 <= i < k ==> !IsDone(lines[i])
    ensures k < |lines| ==> IsDone(lines[k])
  {
    if |lines| == 0 || IsDone(lines[0]) then 0 else 1 + FirstDone(lines[1..])
  }

  /** Each line's contribution, in order. */
  function LineContents(lines: seq<string>, parse: Parser): (r: seq<string>)
    ensures |r| == |lines|
    ensures forall i :: 0 <= i < |lines| ==> r[i] == LineContent(lines[i], parse)
  {
    seq(|lines|, i requires 0 <= i < |lines| => LineContent(lines[i], parse))
  }

  /**
   * One chunk's output is the in-order concatenation of the contributions of the lines before
   * its first `[DONE]`.
   */
  lemma {:induction false} ProcessLinesReference(lines: seq<string>, parse: Parser)
    ensures ProcessLines(lines, parse) == Flatten(LineContents(lines[..FirstDone(lines)], parse))
  {
    if |lines| == 0 || IsDone(lines[0]) {
    } else {
      ProcessLinesReference(lines[1..], parse);
      var k := FirstDone(lines);
      assert FirstDone(lines[1..]) == k - 1;
      assert ProcessLines(lines, parse) == LineContent(lines[0], parse) + ProcessLines(lines[1..], parse);
      var all := LineContents(lines[..k], parse);
      assert lines[1..][..k - 1] == lines[1..k];
      assert all[0] == LineContent(lines[0], parse);
      assert all[1..] == LineContents(lines[1..k], parse);
      assert Flatten(all) == all[0] + Flatten(all[1..]);
    }
  }

  /** A data line that fails to parse is skipped; the lines after it are still read. */
  lemma UnparsableSkipped(line: string, rest: seq<string>, parse: Parser)
    requires IsDataLine(line) && !IsDone(line) && parse(line[|DataPrefix|..]).None?
    ensures ProcessLines([line] + rest, parse) == ProcessLines(rest, parse)
  {
    assert ([line] + rest)[1..] == rest;
  }

  /** Nothing after a `[DONE]` line in the same chunk is read. */
  lemma {:induction false} DoneCutsChunk(before: seq<string>, after: seq<string>, parse: Parser)
    requires forall i :: 0 <= i < |before| ==> !IsDone(before[i])
    ensures ProcessLines(before + [DataPrefix + DoneMarker] + after, parse) == ProcessLines(before, parse)
  {
    var all := before + [DataPrefix + DoneMarker] + after;
    if |before| == 0 {
      assert all[0] == DataPrefix + DoneMarker;
      assert all[0][|DataPrefix|..] == DoneMarker;
    } else {
      assert all[1..] == before[1..] + [DataPrefix + DoneMarker] + after;
      DoneCutsChunk(before[1..], after, parse);
    }
  }

  /** One chunk as decoded text: `chunk.split("\n")` then the line loop. */
  function ChunkContent(chunk: string, parse: Parser): (r: string)
    ensures PlainText(chunk) ==> r == ""
  {
    ProcessLines(Split(chunk, '\n'), parse)
  }

  function ChunkContents(chunks: seq<string>, parse: Parser): (r: seq<string>)
    ensures |r| == |chunks|
    ensures forall i :: 0 <= i < |chunks| ==> r[i] == ChunkContent(chunks[i], parse)
  {
    seq(|chunks|, i requires 0 <= i < |chunks| => ChunkContent(chunks[i], parse))
  }

  /** The whole stream's output: every chunk's output, in order. */
  function StreamContent(chunks: seq<string>, parse: Parser): string
  {
    Flatten(ChunkContents(chunks, parse))
  }

  /** The outer `while (true)` read loop, accumulating into the shown output until `done`. */
  method ReadStream(chunks: seq<string>, parse: Parser) returns (content: string)
    ensures content == StreamContent(chunks, parse)
  {
    content := "";
    var i := 0;
    while i < |chunks|
      invariant 0 <= i <= |chunks|
      invariant content == Flatten(ChunkContents(chunks[..i], parse))
    {
      var piece := ChunkContent(chunks[i], parse);
      assert ChunkContents(chunks[..i + 1], parse) == ChunkContents(chunks[..i], parse) + [piece];
      FlattenAppend(ChunkContents(chunks[..i], parse), [piece]);
      content := content + piece;
      i := i + 1;
    }
    assert chunks[..i] == chunks;
  }

  /**
   * A page reading the body as plain text instead: each decoded chunk is appended to the output
   * as it arrives (`prev + chunk`). The output is the whole text, however it was chunked.
   */
  function AppendChunks(chunks: seq<string>): (r: string)
    ensures r == Flatten(chunks)
    decreases |chunks|
  {
    if |chunks| == 0 then ""
    else
      var init := chunks[..|chunks| - 1];
      var last := chunks[|chunks| - 1];
      FlattenAppend(init, [last]);
      assert init + [last] == chunks;
      assert Flatten([last]) == last + Flatten([]);
      AppendChunks(init) + last
  }

  /** `[DONE]` ends only its own chunk: the output of a stream is the outputs of its parts, in order. */
  lemma DoneStopsOnlyItsChunk(first: seq<string>, rest: seq<string>, parse: Parser)
    ensures StreamContent(first + rest, parse) == StreamContent(first, parse) + StreamContent(rest, parse)
  {
    assert ChunkContents(first + rest, parse) == ChunkContents(first, parse) + ChunkContents(rest, parse);
    FlattenAppend(ChunkContents(first, parse), ChunkContents(rest, parse));
  }

  /** No line of the text begins with `data: `. */
  predicate PlainText(chunk: string)
  {
    forall line :: line in Split(chunk, '\n') ==> !IsDataLine(line)
  }

  /** A stream of plain text, with no `data: ` lines, shows nothing at all. */
  lemma {:induction false} PlainStreamShowsNothing(chunks: seq<string>, parse: Parser)
    requires forall i :: 0 <= i < |chunks| ==> PlainText(chunks[i])
    ensures StreamContent(chunks, parse) == ""
  {
    if |chunks| > 0 {
      var all := ChunkContents(chunks, parse);
      assert all[0] == ChunkContent(chunks[0], parse) == "";
      assert all[1..] == ChunkContents(chunks[1..], parse);
      PlainStreamShowsNothing(chunks[1..], parse);
      assert Flatten(all) == all[0] + Flatten(all[1..]);
    }
  }

  /** The generate route's answer as the page sees it: `ok`, the error body's `error`, and the decoded chunks of the body reader. */
  datatype ApiResponse = ApiResponse(ok: bool, error: Option<string>, body: Option<Body>)

  /**
   * The response body as the reader delivers it: the decoded chunks received, then either
   * `done` (no failure) or a rejected `read()` carrying the error's message.
   */
  datatype Body = Body(chunks: seq<string>, failure: Option<string>)

  const DefaultError: string := "Failed to generate content"

  /**
   * After a click: the output shown, the page navigated to, whether the request was sent, the
   * error toast, and whether the balance is reloaded.
   */
  datatype ClickResult = ClickResult(
    content: string,
    navigate: Option<string>,
    requestSent: bool,
    error: Option<string>,
    reloadCredits: bool)

  const CreditsPage: string := "/dashboard/credits"

  function HandleGenerate(userCredits: int, shown: string, user: Option<string>, response: ApiResponse, parse: Parser): (r: ClickResult)
    // The client guard: with under one credit nothing is sent and the output stays as it was.
    ensures r.navigate.Some? <==> userCredits < 1
    ensures userCredits < 1 ==>
      r.navigate == Some(CreditsPage) && !r.requestSent && r.content == shown && r.error.Some?
    ensures r.requestSent <==> userCredits >= 1 && user.Some?
    // A failed request shows the route's error, or the default message, over an empty output.
    ensures r.requestSent && !response.ok ==>
      r.content == "" && r.error == Some(OrElse(response.error, DefaultError))
    // The balance is reloaded exactly when the whole body was read without error.
    ensures r.error.None? <==>
      r.requestSent && response.ok && (response.body.None? || response.body.value.failure.None?)
    ensures r.reloadCredits <==> r.error.None?
    // Whatever was received before the end, or before a failed read, stays shown.
    ensures r.requestSent && response.ok && response.body.Some? ==>
      r.content == StreamContent(response.body.value.chunks, parse)
    ensures r.requestSent && response.ok && response.body.Some? && response.body.value.failure.Some? ==>
      r.error == Some(OrElse(response.body.value.failure, DefaultError))
    // Past the guard the output is reset: with no body read (signed out, or a null body) it stays empty.
    ensures userCredits >= 1 && !(r.requestSent && response.ok && response.body.Some?) ==> r.content == ""
  {
    if userCredits < 1 then ClickResult(shown, Some(CreditsPage), false, Some("Not enough credits! Please purchase more."), false)
    else
      var reset := "";
      if user.None? then ClickResult(reset, None, false, Some("Not authenticated"), false)
      else if !response.ok then ClickResult(reset, None, true, Some(OrElse(response.error, DefaultError)), false)
      else if response.body.None? then ClickResult(reset, None, true, None, true)
      else
        var shownNow := reset + StreamContent(response.body.value.chunks, parse);
        match response.body.value.failure
        case None => ClickResult(shownNow, None, true, None, true)
        case Some(_) => ClickResult(shownNow, None, true, Some(OrElse(response.body.value.failure, DefaultError)), false)
  }

  /**
   * Once the guard passes, the output is reset to "" and only the body read afterwards is shown:
   * what was shown before the click has no influence.
   */
  lemma OutputReset(userCredits: int, shown: string, other: string, user: Option<string>, response: ApiResponse, parse: Parser)
    requires userCredits >= 1
    ensures var r := HandleGenerate(userCredits, shown, user, response, parse);
      r.content == (if user.Some? && response.ok && response.body.Some?
                    then StreamContent(response.body.value.chunks, parse) else "")
    ensures HandleGenerate(userCredits, shown, user, response, parse).content
         == HandleGenerate(userCredits, other, user, response, parse).content
  {
  }
}
