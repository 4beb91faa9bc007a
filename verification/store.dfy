/** The hosted data store the routes talk to, as one immutable record: the
    auth service's accounts, four tables, and the `kyc-documents` storage
    bucket. Tables are sequences of rows so that queries with several
    matches, and `.single()` on them, behave as the service does. */
module Store {
  import opened Common

  datatype KycStatus = NotSubmitted | UnderReview | Verified | Rejected

  /** A `users` row. The table has no e-mail column: the address lives with
      the auth account. */
  datatype UserRow = UserRow(
    id: string, name: string, age: Option<int>, phone: string, address: string,
    parentName: string, parentEmail: string, parentVerified: bool,
    kycStatus: KycStatus, createdAt: int)

  datatype StartupRow = StartupRow(
    id: string, userId: string, companyName: string, description: Option<string>,
    verified: bool, blockchainTx: Option<string>, tokenId: Option<string>)

  datatype KycDocRow = KycDocRow(userId: string, selfiePath: string, documentPath: string)

  datatype ParentTokenRow = ParentTokenRow(userId: string, token: string, expiresAt: int, emailSent: bool)

  datatype AuthAccount = AuthAccount(email: string, password: string, name: string, age: Option<int>)

  datatype Store = Store(
    auth: map<string, AuthAccount>,
    users: seq<UserRow>,
    startups: seq<StartupRow>,
    kycDocs: seq<KycDocRow>,
    parentTokens: seq<ParentTokenRow>,
    blobs: set<string>)

  // ---------------------------------------------------------------------------
  // Queries
  // ---------------------------------------------------------------------------

  /** The rows a query with equality filters selects, in table order. */
  function Filter<T(!new)>(rows: seq<T>, keep: T -> bool): (r: seq<T>)
    ensures |r| <= |rows|
    ensures forall x :: x in r <==> x in rows && keep(x)
  {
    if rows == [] then []
    else (if keep(rows[0]) then [rows[0]] else []) + Filter(rows[1..], keep)
  }

  /** `.single()`: the row when exactly one row matches; when none or
      several do, the service answers with an error and no data. */
  function Single<T(==,!new)>(rows: seq<T>, keep: T -> bool): (r: Option<T>)
    ensures r.Some? <==> |Filter(rows, keep)| == 1
    ensures r.Some? ==> r.value in rows && keep(r.value)
    ensures r.Some? ==> forall x :: x in rows && keep(x) ==> x == r.value
  {
    var matching := Filter(rows, keep);
    if |matching| == 1 then
      assert forall x :: x in matching ==> x == matching[0];
      Some(matching[0])
    else None
  }

  /** `.update(...)` with equality filters: every selected row is rewritten,
      every other row is left as it was. */
  function UpdateWhere<T>(rows: seq<T>, keep: T -> bool, change: T -> T): (r: seq<T>)
    ensures |r| == |rows|
    ensures forall i :: 0 <= i < |rows| ==> r[i] == if keep(rows[i]) then change(rows[i]) else rows[i]
  {
    if rows == [] then []
    else [if keep(rows[0]) then change(rows[0]) else rows[0]] + UpdateWhere(rows[1..], keep, change)
  }

  /** `.delete()` with equality filters. */
  function DeleteWhere<T(!new)>(rows: seq<T>, drop: T -> bool): (r: seq<T>)
    ensures forall x :: x in r <==> x in rows && !drop(x)
  {
    Filter(rows, x => !drop(x))
  }

  /** Appending rows appends what the query selects from them. */
  lemma FilterAppend<T(!new)>(rows: seq<T>, added: seq<T>, keep: T -> bool)
    ensures Filter(rows + added, keep) == Filter(rows, keep) + Filter(added, keep)
  {
    if rows == [] {
      assert rows + added == added;
    } else {
      assert (rows + added)[1..] == rows[1..] + added;
      FilterAppend(rows[1..], added, keep);
    }
  }

  /** A query every row matches selects the whole table. */
  lemma FilterAll<T(!new)>(rows: seq<T>, keep: T -> bool)
    requires forall x :: x in rows ==> keep(x)
    ensures Filter(rows, keep) == rows
  {
    if rows != [] {
      FilterAll(rows[1..], keep);
      assert rows == [rows[0]] + rows[1..];
    }
  }

  lemma FilterNone<T(!new)>(rows: seq<T>, keep: T -> bool)
    requires forall x :: x in rows ==> !keep(x)
    ensures Filter(rows, keep) == []
  {
  }

  /** Deleting exactly the rows just appended gives back the table as it was
      before: the compensating delete of a failed multi-step write. */
  lemma {:induction false} DeleteAppended<T(!new)>(rows: seq<T>, added: seq<T>, drop: T -> bool)
    requires forall x :: x in rows ==> !drop(x)
    requires forall x :: x in added ==> drop(x)
    ensures DeleteWhere(rows + added, drop) == rows
  {
    var keep := x => !drop(x);
    FilterAppend(rows, added, keep);
    FilterAll(rows, keep);
    FilterNone(added, keep);
  }

  function UserById(users: seq<UserRow>, id: string): Option<UserRow> {
    Single(users, (u: UserRow) => u.id == id)
  }

  function StartupOf(startups: seq<StartupRow>, userId: string): Option<StartupRow> {
    Single(startups, (r: StartupRow) => r.userId == userId)
  }

  function DocumentsOf(docs: seq<KycDocRow>, userId: string): seq<KycDocRow> {
    Filter(docs, (d: KycDocRow) => d.userId == userId)
  }

  /** `users.update({ kyc_status }).eq('id', userId)` */
  function SetKycStatus(users: seq<UserRow>, userId: string, status: KycStatus): (r: seq<UserRow>)
    ensures |r| == |users|
    ensures forall i :: 0 <= i < |users| ==>
      r[i] == if users[i].id == userId then users[i].(kycStatus := status) else users[i]
  {
    UpdateWhere(users, (u: UserRow) => u.id == userId, (u: UserRow) => u.(kycStatus := status))
  }

  // ---------------------------------------------------------------------------
  // What a route hands back
  // ---------------------------------------------------------------------------

  datatype Table = Users | Startups | KycDocuments | ParentTokens

  /** The calls a route makes that change something or reach outside, in
      the order made. */
  datatype Call =
    | CreateAuthUser(email: string)
    | DeleteAuthUser(id: string)
    | InsertRow(table: Table)
    | UpdateRows(table: Table)
    | DeleteRows(table: Table)
    | UploadBlob(path: string)
    | RemoveBlobs(paths: seq<string>)
    | PinToIpfs(signature: string)  // the argument's `signature`; the pinned JSON leaves it out
    | SendEmail(to: Option<string>, link: string)
    | RequestParentEmail(userId: string)

  /** A JSON response: the success body, or an HTTP status with `{ error }`. */
  datatype Reply<+T> = Success(body: T) | Failure(status: int, error: string)

  datatype Outcome<+T> = Outcome(store: Store, reply: Reply<T>, calls: seq<Call>)

  /** Call `a` is made before call `b`. */
  predicate Before(calls: seq<Call>, a: Call, b: Call) {
    exists i, j :: 0 <= i < j < |calls| && calls[i] == a && calls[j] == b
  }

  /** Every `users` and `startups` row belongs to an auth account: what
      registration establishes and its compensating deletes keep. */
  predicate Linked(s: Store) {
    && (forall u :: u in s.users ==> u.id in s.auth)
    && (forall r :: r in s.startups ==> r.userId in s.auth)
  }
}
