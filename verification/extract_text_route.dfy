/**
 * Text extraction (`POST /api/extract-text`): for a document the caller owns and whose text
 * is not yet stored, download the PDF from the `curricula` bucket, parse it, truncate the
 * text to 100 000 characters and store it on the document. The PDF parser is a parameter.
 */
module ExtractTextRoute {
  import opened Wrappers
  import opened Text
  import opened Store

  const MaxTextLength: nat := 100000

  /**
   * How the storage key is derived from the document row: as written, the last `/`-segment of
   * the public URL (`file_url.split('/').pop()`); alternatively the stored object path.
   */
  datatype KeyRule = LastUrlSegment | StoredPath

  function DownloadKey(rule: KeyRule, d: Document): string
  {
    match rule
    case LastUrlSegment => LastSegment(d.fileUrl)
    case StoredPath => d.filePath
  }

  /** The object store, the PDF parser (None when it throws) and whether the final update reports an error. */
  datatype ExtractEnv = ExtractEnv(storage: Storage, parse: Blob -> Option<string>, updateFails: bool)

  datatype Reply = Message(message: string) | Failure(error: string)

  datatype ExtractOutcome = ExtractOutcome(status: int, reply: Reply, db: Db, downloaded: Option<string>)

  /** The document row with its text stored. */
  predicate Stored(db: Db, documentId: string, text: string)
  {
    documentId in db.documents && db.documents[documentId].extractedText == Some(text)
  }

  /** The caller owns the document and it holds no text yet: the route goes on to download. */
  predicate NeedsText(db: Db, user: Option<UserId>, documentId: string)
  {
    user.Some? && OwnedDocument(db, documentId, user.value).Some? && !Truthy(db.documents[documentId].extractedText)
  }

  function ExtractWith(rule: KeyRule, db: Db, user: Option<UserId>, documentId: string, env: ExtractEnv): (o: ExtractOutcome)
    ensures o.status == 401 <==> user.None?
    ensures o.status == 404 <==> user.Some? && OwnedDocument(db, documentId, user.value).None?
    ensures o.status in {200, 401, 404, 500}
    ensures o.status == 200 <==> o.reply.Message?
    // Only a successful extraction writes, and it writes the document's text and nothing else.
    ensures o.db != db ==> o.reply == Message("Text extracted successfully")
    ensures o.db.users == db.users && o.db.transactions == db.transactions
    ensures o.db.documents.Keys == db.documents.Keys
    ensures forall id :: id in db.documents && id != documentId ==> o.db.documents[id] == db.documents[id]
    // Text that is already present is never replaced, and then nothing is downloaded.
    ensures (user.Some? && OwnedDocument(db, documentId, user.value).Some? &&
             Truthy(db.documents[documentId].extractedText)) ==>
      o == ExtractOutcome(200, Message("Text already extracted"), db, None)
    // Storage is asked only past the guards, and only for the document's key.
    ensures o.downloaded.Some? <==> NeedsText(db, user, documentId)
    ensures o.downloaded.Some? ==> o.downloaded.value == DownloadKey(rule, db.documents[documentId])
    // The three failures past the guards: each is a 500 with its own message and writes nothing.
    ensures NeedsText(db, user, documentId) ==>
      var key := DownloadKey(rule, db.documents[documentId]);
      && (key !in env.storage ==>
            o == ExtractOutcome(500, Failure("Failed to download PDF"), db, Some(key)))
      && (key in env.storage && env.parse(env.storage[key]).None? ==>
            o == ExtractOutcome(500, Failure("Failed to extract text from PDF"), db, Some(key)))
      && (key in env.storage && env.parse(env.storage[key]).Some? && env.updateFails ==>
            o == ExtractOutcome(500, Failure("Failed to update document"), db, Some(key)))
      && (key in env.storage && env.parse(env.storage[key]).Some? && !env.updateFails ==>
            o.status == 200 && o.reply == Message("Text extracted successfully"))
    ensures o.reply == Message("Text extracted successfully") ==>
      && o.downloaded.Some?
      && o.downloaded.value in env.storage
      && var d := db.documents[documentId];
         var parsed := env.parse(env.storage[o.downloaded.value]);
         && o.downloaded.value == DownloadKey(rule, d)
         && parsed.Some?
         && o.db.documents[documentId] == d.(extractedText := Some(Truncate(parsed.value, MaxTextLength)))
  {
    if user.None? then ExtractOutcome(401, Failure("Unauthorized"), db, None)
    else
      var found := OwnedDocument(db, documentId, user.value);
      if found.None? then ExtractOutcome(404, Failure("Document not found"), db, None)
      else
        var d := found.value;
        if Truthy(d.extractedText) then ExtractOutcome(200, Message("Text already extracted"), db, None)
        else
          var key := DownloadKey(rule, d);
          if key !in env.storage then ExtractOutcome(500, Failure("Failed to download PDF"), db, Some(key))
          else
            var parsed := env.parse(env.storage[key]);
            // The parser's exception lands in the route's catch-all.
            if parsed.None? then ExtractOutcome(500, Failure("Failed to extract text from PDF"), db, Some(key))
            else
              var text := Truncate(parsed.value, MaxTextLength);
              if env.updateFails then ExtractOutcome(500, Failure("Failed to update document"), db, Some(key))
              else
                var written := db.(documents := db.documents[documentId := d.(extractedText := Some(text))]);
                ExtractOutcome(200, Message("Text extracted successfully"), written, Some(key))
  }

  /** The route as written: the key it asks storage for never names a folder. */
  function Extract(db: Db, user: Option<UserId>, documentId: string, env: ExtractEnv): (o: ExtractOutcome)
    ensures o.downloaded.Some? ==> NeedsText(db, user, documentId)
    ensures o.downloaded.Some? ==>
      && '/' !in o.downloaded.value
      && var url := db.documents[documentId].fileUrl;
         |o.downloaded.value| <= |url| && url[|url| - |o.downloaded.value|..] == o.downloaded.value
  {
    var o := ExtractWith(LastUrlSegment, db, user, documentId, env);
    if documentId in db.documents then
      LastSegmentIsFinalSuffix(db.documents[documentId].fileUrl); o
    else o
  }

  /** The route downloading the object path recorded at upload. */
  function ExtractFixed(db: Db, user: Option<UserId>, documentId: string, env: ExtractEnv): (o: ExtractOutcome)
    ensures o.downloaded.Some? ==> NeedsText(db, user, documentId)
    ensures o.downloaded.Some? ==> o.downloaded.value == db.documents[documentId].filePath
  {
    ExtractWith(StoredPath, db, user, documentId, env)
  }

  /** The stored text is a prefix of the parsed text, at most 100 000 characters, and all of it when it fits. */
  lemma StoredTextBounded(rule: KeyRule, db: Db, user: Option<UserId>, documentId: string, env: ExtractEnv)
    requires ExtractWith(rule, db, user, documentId, env).reply == Message("Text extracted successfully")
    ensures var o := ExtractWith(rule, db, user, documentId, env);
      var parsed := env.parse(env.storage[o.downloaded.value]).value;
      var stored := o.db.documents[documentId].extractedText.value;
      && |stored| <= MaxTextLength
      && stored == parsed[..|stored|]
      && (|parsed| <= MaxTextLength ==> stored == parsed)
      && (|parsed| > MaxTextLength ==> |stored| == MaxTextLength)
  {
  }

  /**
   * A second request after a successful extraction of non-empty text answers "Text already
   * extracted", whatever the storage and parser then hold, and changes nothing.
   */
  lemma ExtractIdempotent(rule: KeyRule, db: Db, user: Option<UserId>, documentId: string, env: ExtractEnv, env2: ExtractEnv)
    requires var o := ExtractWith(rule, db, user, documentId, env);
      o.reply == Message("Text extracted successfully") && o.db.documents[documentId].extractedText != Some("")
    ensures var o := ExtractWith(rule, db, user, documentId, env);
      ExtractWith(rule, o.db, user, documentId, env2) == ExtractOutcome(200, Message("Text already extracted"), o.db, None)
  {
    var o := ExtractWith(rule, db, user, documentId, env);
    assert OwnedDocument(o.db, documentId, user.value).Some?;
  }

  /** As written, the key asked of storage is the public URL's final segment: it holds no `/`. */
  lemma DownloadKeyHasNoFolder(d: Document)
    ensures '/' !in DownloadKey(LastUrlSegment, d)
    ensures |DownloadKey(LastUrlSegment, d)| <= |d.fileUrl|
  {
    LastSegmentIsFinalSuffix(d.fileUrl);
  }
}
