/** `GET /api/admin/kyc-review`: the accounts awaiting an identity decision,
    newest first, each with its startups, its document rows, and signed links
    to the first row's two files. */
module KycReviewRoute {
  import opened Common
  import opened Store

  const FetchFailedError := "Failed to fetch reviews"

  /** How long a signed link stays valid, in seconds. */
  const LinkLifetime := 3600

  /** `createSignedUrl(path, seconds)`: the link, or `None` when the storage
      service answers with an error. */
  type Signer = (string, nat) -> Option<string>

  datatype DocumentUrls = DocumentUrls(selfie: Option<string>, document: Option<string>)

  /** One listed account: the `users` row with its embedded `startups` and
      `kyc_documents` rows, and `document_urls`. */
  datatype ReviewEntry = ReviewEntry(user: UserRow, startups: seq<StartupRow>,
                                     documents: seq<KycDocRow>, documentUrls: Option<DocumentUrls>)

  /** Filtered on: the guardian has approved and the documents are under
      review. */
  predicate AwaitingReview(u: UserRow) {
    u.kycStatus == UnderReview && u.parentVerified
  }

  // ---------------------------------------------------------------------------
  // Ordering by creation time, newest first
  // ---------------------------------------------------------------------------

  predicate NewestFirst(rows: seq<UserRow>) {
    forall i, j :: 0 <= i < j < |rows| ==> rows[i].createdAt >= rows[j].createdAt
  }

  /** A row at least as new as every row of a newest-first list may lead it. */
  lemma ConsNewestFirst(h: UserRow, t: seq<UserRow>)
    requires NewestFirst(t)
    requires forall y :: y in t ==> y.createdAt <= h.createdAt
    ensures NewestFirst([h] + t)
  {
    var r := [h] + t;
    forall i, j | 0 <= i < j < |r| ensures r[i].createdAt >= r[j].createdAt {
      if i > 0 { assert r[i] == t[i - 1] && r[j] == t[j - 1]; }
      else { assert r[j] in t; }
    }
  }

  /** Places `x` after every row at least as new, before every older one. */
  function Insert(rows: seq<UserRow>, x: UserRow): (r: seq<UserRow>)
    requires NewestFirst(rows)
    ensures NewestFirst(r)
    ensures forall y :: y in r ==> y in rows || y == x
    ensures multiset(r) == multiset(rows) + multiset{x}
  {
    if rows == [] then [x]
    else if x.createdAt > rows[0].createdAt then
      ConsNewestFirst(x, rows);
      [x] + rows
    else
      var tail := Insert(rows[1..], x);
      assert rows == [rows[0]] + rows[1..];
      assert forall y :: y in rows[1..] ==> y.createdAt <= rows[0].createdAt;
      ConsNewestFirst(rows[0], tail);
      [rows[0]] + tail
  }

  /** `.order('created_at', { ascending: false })`. Rows created at the same
      time keep their table order, a choice the service leaves open. */
  function SortNewestFirst(rows: seq<UserRow>): (r: seq<UserRow>)
    ensures NewestFirst(r)
    ensures multiset(r) == multiset(rows)
  {
    if rows == [] then []
    else
      var init := rows[..|rows| - 1];
      assert rows == init + [rows[|rows| - 1]];
      Insert(SortNewestFirst(init), rows[|rows| - 1])
  }

  /** Rows with the same multiset are the same set of rows. */
  lemma SameMembers(a: seq<UserRow>, b: seq<UserRow>)
    requires multiset(a) == multiset(b)
    ensures forall u :: u in a <==> u in b
  {
    forall u ensures u in a <==> u in b {
      assert u in a <==> u in multiset(a);
      assert u in b <==> u in multiset(b);
    }
  }

  // ---------------------------------------------------------------------------
  // The route
  // ---------------------------------------------------------------------------

  /** The signed links of an account's first document row, or `null` when it
      has none. */
  function Links(documents: seq<KycDocRow>, sign: Signer): (r: Option<DocumentUrls>)
    ensures r.None? <==> documents == []
  {
    if documents == [] then None
    else Some(DocumentUrls(sign(documents[0].selfiePath, LinkLifetime),
                           sign(documents[0].documentPath, LinkLifetime)))
  }

  function Entry(s: Store, u: UserRow, sign: Signer): ReviewEntry {
    var documents := DocumentsOf(s.kycDocs, u.id);
    ReviewEntry(u, Filter(s.startups, (r: StartupRow) => r.userId == u.id), documents, Links(documents, sign))
  }

  function Entries(s: Store, rows: seq<UserRow>, sign: Signer): (r: seq<ReviewEntry>)
    ensures |r| == |rows|
    ensures forall i :: 0 <= i < |rows| ==> r[i] == Entry(s, rows[i], sign)
  {
    if rows == [] then [] else [Entry(s, rows[0], sign)] + Entries(s, rows[1..], sign)
  }

  function ListedUsers(entries: seq<ReviewEntry>): (r: seq<UserRow>)
    ensures |r| == |entries|
    ensures forall i :: 0 <= i < |entries| ==> r[i] == entries[i].user
  {
    if entries == [] then [] else [entries[0].user] + ListedUsers(entries[1..])
  }

  /** The route. `queryFails` is whether the query answers with an error.
      Nothing is written. */
  function KycReview(s: Store, queryFails: bool, sign: Signer): (o: Outcome<seq<ReviewEntry>>)
    ensures o.store == s && o.calls == []
    ensures queryFails <==> o.reply == Failure(500, FetchFailedError)
    ensures o.reply.Success? ==> (
      var listed := ListedUsers(o.reply.body);
      && NewestFirst(listed)
      && multiset(listed) == multiset(Filter(s.users, AwaitingReview))
      && (forall u :: u in listed <==> u in s.users && AwaitingReview(u)))
    ensures o.reply.Success? ==> forall e :: e in o.reply.body ==> (
      && e.startups == Filter(s.startups, (r: StartupRow) => r.userId == e.user.id)
      && e.documents == DocumentsOf(s.kycDocs, e.user.id)
      && (e.documentUrls.None? <==> e.documents == [])
      && (e.documents != [] ==>
            e.documentUrls == Some(DocumentUrls(sign(e.documents[0].selfiePath, LinkLifetime),
                                                sign(e.documents[0].documentPath, LinkLifetime)))))
  {
    if queryFails then Outcome(s, Failure(500, FetchFailedError), [])
    else
      var rows := SortNewestFirst(Filter(s.users, AwaitingReview));
      var entries := Entries(s, rows, sign);
      assert ListedUsers(entries) == rows;
      SameMembers(rows, Filter(s.users, AwaitingReview));
      Outcome(s, Success(entries), [])
  }
}
