/**
 * The persisted tables the routes read and write: `users` (credit balances), `documents`
 * and `transactions`. Queries become map look-ups and updates become map updates.
 */
module Store {
  import opened Wrappers

  type UserId = string

  /** File contents in object storage. */
  type Blob = seq<bv8>

  /** The `curricula` storage bucket: object path to contents. */
  type Storage = map<string, Blob>

  /** A `documents` row; `extractedText` is null until extraction fills it. */
  datatype Document = Document(
    userId: UserId,
    title: string,
    fileUrl: string,
    filePath: string,
    extractedText: Option<string>)

  /** A `users` row; the `credits` column is nullable. */
  datatype Profile = Profile(credits: Option<int>)

  /** A `transactions` row; the monetary `amount` column is not modelled. */
  datatype Transaction = Transaction(userId: UserId, sessionId: string, credits: int, status: string)

  datatype Db = Db(
    users: map<UserId, Profile>,
    documents: map<string, Document>,
    transactions: seq<Transaction>)

  /**
   * `from('documents').select(..).eq('id', id).eq('user_id', user).single()`: the row is
   * returned only when it exists AND belongs to the caller.
   */
  function OwnedDocument(db: Db, id: string, user: UserId): (r: Option<Document>)
    ensures r.Some? <==> id in db.documents && db.documents[id].userId == user
    ensures r.Some? ==> r.value == db.documents[id]
  {
    if id in db.documents && db.documents[id].userId == user then Some(db.documents[id]) else None
  }

  /** The balance an account can spend: a null column or a missing row reads as 0. */
  function Balance(db: Db, u: UserId): int
  {
    if u in db.users then db.users[u].credits.GetOr(0) else 0
  }

  /** The ledger invariant: no stored balance is negative. */
  predicate NonNegative(db: Db)
  {
    forall u :: u in db.users ==> db.users[u].credits.GetOr(0) >= 0
  }

  /** The invariant read through balances: a missing row reads as 0, so it never breaks it. */
  lemma NonNegativeBalances(db: Db)
    ensures NonNegative(db) <==> forall u :: Balance(db, u) >= 0
  {
    if forall u :: Balance(db, u) >= 0 {
      forall u | u in db.users ensures db.users[u].credits.GetOr(0) >= 0 {
        assert Balance(db, u) >= 0;
      }
    }
  }

  /** `from('users').update({credits: c}).eq('id', u)`: an update that matches no row changes nothing. */
  function SetCredits(db: Db, u: UserId, c: int): (r: Db)
    ensures r.documents == db.documents && r.transactions == db.transactions
    ensures r.users.Keys == db.users.Keys
    ensures u in db.users ==> Balance(r, u) == c
    ensures u !in db.users ==> r == db
    ensures forall v :: v != u ==> Balance(r, v) == Balance(db, v)
  {
    if u in db.users then db.(users := db.users[u := Profile(Some(c))]) else db
  }
}
