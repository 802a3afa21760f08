/**
 * The dashboard's PDF upload (`handleFileUpload`): validate the chosen file in the browser,
 * store it under `<user id>/<timestamp>-<file name>`, record the document row, ask the server
 * to extract its text and move on to the generate page. The session, the clock, the storage
 * and table calls are inputs.
 */
module Upload {
  import opened Wrappers
  import opened Text
  import opened Numbers
  import opened Store

  const PdfType: string := "application/pdf"

  /** 10 MB: the largest accepted file, in bytes. */
  const MaxUploadBytes: int := 10 * 1024 * 1024

  /** The browser `File`: name, MIME type and size in bytes. */
  datatype SelectedFile = SelectedFile(name: string, mimeType: string, size: int, contents: Blob)

  /** The answer of the `documents` insert: an error message, or the new row's id. */
  datatype InsertReply = InsertError(message: string) | Inserted(id: string)

  /**
   * The signed-in user, `Date.now()`, the bucket's public URL base, the storage upload's error
   * (if any) and the insert's answer.
   */
  datatype UploadEnv = UploadEnv(
    user: Option<UserId>,
    now: nat,
    publicBase: string,
    uploadError: Option<string>,
    insert: InsertReply)

  datatype UploadOutcome =
    | Ignored                       // no file chosen
    | Rejected(toast: string)       // failed validation; nothing leaves the browser
    | Failed(toast: string)         // an error after validation, shown as a toast
    | Uploaded(documentId: string)

  /**
   * What the upload leaves behind: the bucket, the tables, the document whose text extraction
   * was requested, and the page it navigates to.
   */
  datatype UploadResult = UploadResult(
    outcome: UploadOutcome,
    storage: Storage,
    db: Db,
    extractRequested: Option<string>,
    redirect: Option<string>)

  /** `${authUser.id}/${Date.now()}-${file.name}` */
  function StoragePath(userId: UserId, now: nat, name: string): (path: string)
    // The owner's folder comes first and the file's own name last ...
    ensures |userId| + 1 + |name| < |path|
    ensures path[..|userId|] == userId && path[|userId|] == '/'
    ensures path[|path| - |name|..] == name
    // ... and the timestamp between them reads back as the upload time.
    ensures ParseInt(path[|userId| + 1..]) == Int(now)
  {
    var stamp := NatToString(now);
    var path := userId + "/" + stamp + "-" + name;
    assert path[|userId| + 1..] == stamp + ("-" + name);
    NaturalPrefix(now, "-" + name);
    path
  }

  /** `getPublicUrl(fileName)`: the object path appended to the bucket's public base. */
  function PublicUrl(base: string, path: string): string
  {
    base + "/" + path
  }

  /** `/dashboard/generate?docId=${docData.id}` */
  function GenerateUrl(documentId: string): string
  {
    "/dashboard/generate?docId=" + documentId
  }

  /** The thrown error's message, or the default when it is empty. */
  function FailureToast(message: string): string
  {
    OrElse(Some(message), "Failed to upload file")
  }

  /** Browser-side validation: the type check comes before the size check. */
  function Validate(file: SelectedFile): (r: Option<string>)
    ensures r.None? <==> file.mimeType == PdfType && file.size <= MaxUploadBytes
    ensures file.mimeType != PdfType ==> r == Some("Please upload a PDF file")
    ensures file.mimeType == PdfType && file.size > MaxUploadBytes ==> r == Some("File size must be less than 10MB")
  {
    if file.mimeType != PdfType then Some("Please upload a PDF file")
    else if file.size > MaxUploadBytes then Some("File size must be less than 10MB")
    else None
  }

  function HandleUpload(file: Option<SelectedFile>, storage: Storage, db: Db, env: UploadEnv): (r: UploadResult)
    ensures file.None? ==> r == UploadResult(Ignored, storage, db, None, None)
    ensures r.outcome.Rejected? <==> file.Some? && Validate(file.value).Some?
    // A rejected file reaches neither storage nor the tables.
    ensures r.outcome.Ignored? || r.outcome.Rejected? ==>
      r.storage == storage && r.db == db && r.extractRequested.None? && r.redirect.None?
    ensures r.db.users == db.users && r.db.transactions == db.transactions
    // The object is written only under the signed-in user's folder, and nothing else in the bucket changes.
    ensures r.storage != storage ==>
      && env.user.Some? && file.Some? && env.uploadError.None?
      && r.storage == storage[StoragePath(env.user.value, env.now, file.value.name) := file.value.contents]
    // Only a completed upload adds a row; until then the tables stay as they were.
    ensures !r.outcome.Uploaded? ==> r.db == db && r.extractRequested.None? && r.redirect.None?
    ensures r.outcome.Uploaded? ==> file.Some? && env.user.Some?
    ensures r.outcome.Uploaded? && file.Some? && env.user.Some? ==>
      var f := file.value;
      var u := env.user.value;
      var path := StoragePath(u, env.now, f.name);
      && Validate(f).None?
      && u in db.users
      && r.storage == storage[path := f.contents]
      && env.insert == Inserted(r.outcome.documentId)
      && r.db.documents == db.documents[r.outcome.documentId := Document(u, f.name, PublicUrl(env.publicBase, path), path, None)]
      && (r.outcome.documentId != "" ==>
            r.extractRequested == Some(r.outcome.documentId) && r.redirect == Some(GenerateUrl(r.outcome.documentId)))
      && (r.outcome.documentId == "" ==> r.extractRequested.None? && r.redirect.None?)
  {
    if file.None? then UploadResult(Ignored, storage, db, None, None)
    else
      var f := file.value;
      var invalid := Validate(f);
      if invalid.Some? then UploadResult(Rejected(invalid.value), storage, db, None, None)
      else if env.user.None? then UploadResult(Failed("Not authenticated"), storage, db, None, None)
      else
        var u := env.user.value;
        var path := StoragePath(u, env.now, f.name);
        if env.uploadError.Some? then UploadResult(Failed(FailureToast(env.uploadError.value)), storage, db, None, None)
        else
          var stored := storage[path := f.contents];
          // `ensureUserExists` succeeds exactly when the profile row can be read.
          if u !in db.users then
            UploadResult(Failed("Failed to initialize user profile. Please refresh the page and try again."), stored, db, None, None)
          else if env.insert.InsertError? then
            UploadResult(Failed(FailureToast(env.insert.message)), stored, db, None, None)
          else
            var id := env.insert.id;
            var row := Document(u, f.name, PublicUrl(env.publicBase, path), path, None);
            var next := if id != "" then Some(id) else None;
            UploadResult(Uploaded(id), stored, db.(documents := db.documents[id := row]), next,
              if id != "" then Some(GenerateUrl(id)) else None)
  }

  /** A file of exactly 10 MB is accepted; one byte more is refused. */
  lemma SizeBoundary(name: string, contents: Blob)
    ensures Validate(SelectedFile(name, PdfType, MaxUploadBytes, contents)).None?
    ensures Validate(SelectedFile(name, PdfType, MaxUploadBytes + 1, contents)) == Some("File size must be less than 10MB")
  {
  }

  /**
   * The stored path is the user's folder, a `/`, and a file part with no further `/` (browser
   * file names carry none): the folder and the timestamped name are recoverable from it.
   */
  lemma StoragePathSegments(userId: UserId, now: nat, name: string)
    requires '/' !in userId && '/' !in name
    ensures StoragePath(userId, now, name) == userId + ['/'] + (NatToString(now) + "-" + name)
    ensures Split(StoragePath(userId, now, name), '/') == [userId, NatToString(now) + "-" + name]
    ensures LastSegment(StoragePath(userId, now, name)) == NatToString(now) + "-" + name
  {
    var file := NatToString(now) + "-" + name;
    FolderAndFile(userId, file);
    PathShape(userId, now, name);
  }

  /** The path as the folder, one separator and the file part. */
  lemma PathShape(userId: UserId, now: nat, name: string)
    ensures StoragePath(userId, now, name) == userId + ['/'] + (NatToString(now) + "-" + name)
  {
  }

  /** A path of one folder and one file splits into exactly those two. */
  lemma FolderAndFile(folder: string, file: string)
    requires '/' !in folder && '/' !in file
    ensures Split(folder + ['/'] + file, '/') == [folder, file]
    ensures LastSegment(folder + ['/'] + file) == file
  {
    SplitPrefix(folder, file, '/');
    SplitCount(file, '/');
    LastSegmentOfSuffix(folder, file);
  }
}
