/** `POST /api/admin/approve-kyc`: the administrator's decision on an
    account's identity documents. Both decisions delete the documents;
    approval then pins a record to IPFS, mints the ownership token and marks
    the account and its startup verified. */
module ApproveRoute {
  import opened Common
  import opened Text
  import opened Token
  import opened Store
  import ParentEmailRoute

  const MissingFieldsError := "Missing userId or action"
  const InvalidActionError := "Invalid action"
  const NotFoundError := "User or startup not found"
  /** The message `pinToIPFS` throws with, which the route's catch returns. */
  const PinFailedError := "Failed to upload to IPFS"

  /** The success bodies of the two decisions. */
  datatype KycAnswer =
    | KycRejected
    | KycApproved(tmitToken: string, ipfsCid: string, ipfsUrl: string)

  function GatewayUrl(cid: string): (u: string)
    ensures EndsWith(u, cid)
  {
    var u := "https://gateway.pinata.cloud/ipfs/" + cid;
    assert u[|u| - |cid|..] == cid;
    u
  }

  // ---------------------------------------------------------------------------
  // Deleting the documents
  // ---------------------------------------------------------------------------

  /** The document deletion both decisions start with. The row is read with
      `.single()`: when exactly one row exists its two files and every row of
      the account are deleted; when there is none, or more than one, the read
      yields nothing and nothing is deleted. */
  function Purge(s: Store, userId: string): (r: Store)
    ensures |DocumentsOf(s.kycDocs, userId)| == 1 ==>
      var d := DocumentsOf(s.kycDocs, userId)[0];
      && DocumentsOf(r.kycDocs, userId) == []
      && r.blobs == s.blobs - {d.selfiePath, d.documentPath}
      && (forall x :: x in r.kycDocs <==> x in s.kycDocs && x.userId != userId)
    ensures |DocumentsOf(s.kycDocs, userId)| != 1 ==> r == s
    ensures r.auth == s.auth && r.users == s.users && r.startups == s.startups && r.parentTokens == s.parentTokens
  {
    match Single(s.kycDocs, (d: KycDocRow) => d.userId == userId)
    case None => s
    case Some(d) =>
      var kept := DeleteWhere(s.kycDocs, (x: KycDocRow) => x.userId == userId);
      FilterNone(kept, (x: KycDocRow) => x.userId == userId);
      s.(blobs := s.blobs - {d.selfiePath, d.documentPath}, kycDocs := kept)
  }

  /** The calls the deletion makes: the two files, then the rows. */
  function PurgeCalls(s: Store, userId: string): (calls: seq<Call>)
    ensures |calls| == 0 || |calls| == 2
    ensures |calls| == 2 <==> |DocumentsOf(s.kycDocs, userId)| == 1
  {
    match Single(s.kycDocs, (d: KycDocRow) => d.userId == userId)
    case None => []
    case Some(d) => [RemoveBlobs([d.selfiePath, d.documentPath]), DeleteRows(KycDocuments)]
  }

  /** Deleting twice deletes nothing more. */
  lemma PurgeIdempotent(s: Store, userId: string)
    ensures Purge(Purge(s, userId), userId) == Purge(s, userId)
  {
    var r := Purge(s, userId);
    if |DocumentsOf(s.kycDocs, userId)| == 1 {
      assert |DocumentsOf(r.kycDocs, userId)| == 0;
    }
  }

  /** Two document rows for one account (two uploads before a decision)
      make `.single()` answer nothing: a rejection then deletes neither rows
      nor files, and the account is still marked rejected. */
  lemma DuplicateDocumentsSurvive(s: Store, userId: string, sha256: Sha256, site: Option<string>)
    requires userId != ""
    requires |DocumentsOf(s.kycDocs, userId)| >= 2
    ensures var o := ApproveKyc(s, Some(userId), Some("reject"), 0, 0, None, sha256, site);
      && o.reply == Success(KycRejected)
      && o.store.kycDocs == s.kycDocs && o.store.blobs == s.blobs
      && o.store.users == SetKycStatus(s.users, userId, Rejected)
  {
  }

  // ---------------------------------------------------------------------------
  // The route
  // ---------------------------------------------------------------------------

  /** The ownership token approval mints: the CID stands in for the
      transaction hash. */
  function ApprovalToken(s: Store, userId: string, tokenMs: nat, cid: string, sha256: Sha256): string
    requires StartupOf(s.startups, userId).Some?
  {
    GenerateTMITToken(TokenData(StartupOf(s.startups, userId).value.companyName, userId, tokenMs, Some(cid)),
                      tokenMs, sha256)
  }

  /** Every row of the account gets the verified flag, the CID and the token. */
  function MarkVerified(startups: seq<StartupRow>, userId: string, cid: string, token: string): seq<StartupRow> {
    UpdateWhere(startups, (r: StartupRow) => r.userId == userId,
                (r: StartupRow) => r.(verified := true, blockchainTx := Some(cid), tokenId := Some(token)))
  }

  /** The route. `pinMs` and `tokenMs` are the clock readings for the pinned
      record and for the token, `cid` what the pin returns (`None` when it
      throws), `site` is `NEXT_PUBLIC_SITE_URL`. */
  function ApproveKyc(s: Store, userId: Option<string>, action: Option<string>, pinMs: nat, tokenMs: nat,
                      cid: Option<string>, sha256: Sha256, site: Option<string>): (o: Outcome<KycAnswer>)
    ensures !Truthy(userId) || !Truthy(action) ==> o == Outcome(s, Failure(400, MissingFieldsError), [])
    ensures Truthy(userId) && Truthy(action) && action.value != "reject" && action.value != "approve" ==>
      o == Outcome(s, Failure(400, InvalidActionError), [])
    ensures Truthy(userId) && action == Some("approve")
            && (UserById(s.users, userId.value).None? || StartupOf(s.startups, userId.value).None?) ==>
      o == Outcome(s, Failure(404, NotFoundError), [])
    ensures o.reply.Success? <==> (Truthy(userId) && (action == Some("reject")
      || (action == Some("approve") && UserById(s.users, userId.value).Some?
          && StartupOf(s.startups, userId.value).Some? && cid.Some?)))
    ensures o.store != s ==> (
      && o.store.kycDocs == Purge(s, userId.value).kycDocs
      && o.store.blobs == Purge(s, userId.value).blobs
      && o.store.auth == s.auth && o.store.parentTokens == s.parentTokens)
    ensures Truthy(userId) && action == Some("reject") ==> (
      && o.reply == Success(KycRejected)
      && o.store.kycDocs == Purge(s, userId.value).kycDocs && o.store.blobs == Purge(s, userId.value).blobs
      && o.store.users == SetKycStatus(s.users, userId.value, Rejected)
      && o.store.startups == s.startups)
    ensures Truthy(userId) && action == Some("approve") && UserById(s.users, userId.value).Some?
            && StartupOf(s.startups, userId.value).Some? && cid.None? ==>
      o.reply == Failure(500, PinFailedError) && o.store == Purge(s, userId.value)
    ensures o.reply == Failure(500, PinFailedError) ==> (
      && o.store == Purge(s, userId.value)
      && o.store.users == s.users && o.store.startups == s.startups)
    ensures o.reply.Success? && o.reply.body.KycApproved? ==> (
      var token := ApprovalToken(s, userId.value, tokenMs, cid.value, sha256);
      && o.reply.body == KycApproved(token, cid.value, GatewayUrl(cid.value))
      && o.store.users == SetKycStatus(s.users, userId.value, Verified)
      && |o.store.startups| == |s.startups|
      && (forall i :: 0 <= i < |s.startups| ==> (o.store.startups[i] ==
            if s.startups[i].userId == userId.value
            then s.startups[i].(verified := true, blockchainTx := Some(cid.value), tokenId := Some(token))
            else s.startups[i])))
  {
    if !Truthy(userId) || !Truthy(action) then Outcome(s, Failure(400, MissingFieldsError), [])
    else
      var id := userId.value;
      if action.value == "reject" then
        var p := Purge(s, id);
        Outcome(p.(users := SetKycStatus(p.users, id, Rejected)), Success(KycRejected),
                PurgeCalls(s, id) + [UpdateRows(Users)])
      else if action.value == "approve" then
        if UserById(s.users, id).None? || StartupOf(s.startups, id).None? then
          Outcome(s, Failure(404, NotFoundError), [])
        else
          var p := Purge(s, id);
          var calls := PurgeCalls(s, id) + [PinToIpfs("VERIFIED-" + Decimal(pinMs))];
          match cid
          case None => Outcome(p, Failure(500, PinFailedError), calls)
          case Some(c) =>
            var token := ApprovalToken(s, id, tokenMs, c, sha256);
            Outcome(p.(users := SetKycStatus(p.users, id, Verified),
                       startups := MarkVerified(p.startups, id, c, token)),
                    Success(KycApproved(token, c, GatewayUrl(c))),
                    calls + [UpdateRows(Users), UpdateRows(Startups),
                             SendEmail(None, ParentEmailRoute.SiteUrl(site) + "/dashboard")])
      else Outcome(s, Failure(400, InvalidActionError), [])
  }

  /** Approval's calls open with the deletion's calls, then the pin. */
  lemma ApproveCallsStart(s: Store, userId: string, pinMs: nat, tokenMs: nat,
                          cid: Option<string>, sha256: Sha256, site: Option<string>)
    requires userId != ""
    requires UserById(s.users, userId).Some? && StartupOf(s.startups, userId).Some?
    ensures var o := ApproveKyc(s, Some(userId), Some("approve"), pinMs, tokenMs, cid, sha256, site);
      var start := PurgeCalls(s, userId) + [PinToIpfs("VERIFIED-" + Decimal(pinMs))];
      |start| <= |o.calls| && o.calls[..|start|] == start
  {
  }

  /** Approval deletes the files and the row before it pins anything, so a
      failed pin cannot leave the documents behind. */
  lemma ApproveDeletesBeforePin(s: Store, userId: string, pinMs: nat, tokenMs: nat,
                                cid: Option<string>, sha256: Sha256, site: Option<string>)
    requires userId != ""
    requires UserById(s.users, userId).Some? && StartupOf(s.startups, userId).Some?
    requires |DocumentsOf(s.kycDocs, userId)| == 1
    ensures var o := ApproveKyc(s, Some(userId), Some("approve"), pinMs, tokenMs, cid, sha256, site);
      && Before(o.calls, DeleteRows(KycDocuments), PinToIpfs("VERIFIED-" + Decimal(pinMs)))
      && Before(o.calls, o.calls[0], PinToIpfs("VERIFIED-" + Decimal(pinMs)))
      && o.calls[0].RemoveBlobs?
  {
    var calls := ApproveKyc(s, Some(userId), Some("approve"), pinMs, tokenMs, cid, sha256, site).calls;
    var purge := PurgeCalls(s, userId);
    var pin := PinToIpfs("VERIFIED-" + Decimal(pinMs));
    ApproveCallsStart(s, userId, pinMs, tokenMs, cid, sha256, site);
    assert |purge| == 2 && purge[0].RemoveBlobs? && purge[1] == DeleteRows(KycDocuments);
    assert calls[..3] == purge + [pin];
    assert calls[0] == purge[0] && calls[1] == purge[1] && calls[2] == pin;
  }

  /** An approved account's startup carries a token of the `TMIT-` shape
      stamped with the token clock, whose suffix is read from the CID. */
  lemma ApprovedTokenFromCid(s: Store, userId: string, tokenMs: nat, cid: string, sha256: Sha256)
    requires StartupOf(s.startups, userId).Some?
    requires tokenMs > 0 && |cid| >= 10
    ensures ApprovalToken(s, userId, tokenMs, cid, sha256) == TokenPrefix(tokenMs) + Upper(cid[2..10])
  {
  }
}
