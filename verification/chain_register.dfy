/** `POST /api/blockchain/register`: for a fully verified account, signs the
    registration, mints the ownership token from the same timestamp, hands
    the signature to the IPFS pin (carrying on without a CID when pinning
    fails) and writes the token and CID to the account's startup row. */
module ChainRegisterRoute {
  import opened Common
  import opened Text
  import opened Token
  import opened Store

  const MissingFieldsError := "Missing required fields"
  const UserNotFoundError := "User not found"
  const NotVerifiedError := "Verification not complete"
  const UpdateFailedError := "Failed to update record"

  /** The success body: the token and the CID, `null` when pinning failed. */
  datatype Registered = Registered(tokenId: string, ipfsCid: Option<string>)

  /** Both the guardian and the identity check have passed. */
  predicate FullyVerified(u: UserRow) {
    u.parentVerified && u.kycStatus == Verified
  }

  /** The registration data signed for this request. */
  function SignedData(companyName: string, userId: string, user: UserRow, nowMs: nat): RegistrationData {
    RegistrationData(companyName, userId, user.parentName, nowMs)
  }

  /** The token minted for this request: no transaction hash, so the suffix
      comes from the SHA-256 of the registration. */
  function MintedToken(companyName: string, userId: string, nowMs: nat, sha256: Sha256): string {
    GenerateTMITToken(TokenData(companyName, userId, nowMs, None), nowMs, sha256)
  }

  /** The update: rows of this account with this company name. */
  function RecordOnChain(startups: seq<StartupRow>, userId: string, companyName: string,
                         cid: Option<string>, token: string): seq<StartupRow> {
    UpdateWhere(startups, (r: StartupRow) => r.userId == userId && r.companyName == companyName,
                (r: StartupRow) => r.(blockchainTx := cid, tokenId := Some(token), verified := true))
  }

  /** The route. `nowMs` is the one clock reading, `env` is
      `TOKEN_ENCRYPTION_KEY`, `cid` what the pin returns (`None` when it
      throws), `updateFails` whether the update answers with an error. */
  function ChainRegister(s: Store, userId: Option<string>, companyName: Option<string>, nowMs: nat,
                         env: Option<string>, hmac: Hmac, sha256: Sha256,
                         cid: Option<string>, updateFails: bool): (o: Outcome<Registered>)
    ensures !Truthy(userId) || !Truthy(companyName) ==> o == Outcome(s, Failure(400, MissingFieldsError), [])
    ensures Truthy(userId) && Truthy(companyName) && UserById(s.users, userId.value).None? ==>
      o == Outcome(s, Failure(404, UserNotFoundError), [])
    ensures Truthy(userId) && Truthy(companyName) && UserById(s.users, userId.value).Some?
            && !FullyVerified(UserById(s.users, userId.value).value) ==>
      o == Outcome(s, Failure(403, NotVerifiedError), [])
    ensures o.reply.Success? <==> (
      && Truthy(userId) && Truthy(companyName) && UserById(s.users, userId.value).Some?
      && FullyVerified(UserById(s.users, userId.value).value) && !updateFails)
    ensures Truthy(userId) && Truthy(companyName) && UserById(s.users, userId.value).Some?
            && FullyVerified(UserById(s.users, userId.value).value) && updateFails ==>
      o.reply == Failure(500, UpdateFailedError) && o.store == s
    ensures o.reply.Failure? ==> o.store == s
    ensures o.reply.Success? ==> (
      && o.reply.body == Registered(MintedToken(companyName.value, userId.value, nowMs, sha256), cid)
      && o.store == s.(startups := o.store.startups)
      && |o.store.startups| == |s.startups|
      && (forall i :: 0 <= i < |s.startups| ==> (o.store.startups[i] ==
            if s.startups[i].userId == userId.value && s.startups[i].companyName == companyName.value
            then s.startups[i].(blockchainTx := cid, tokenId := Some(o.reply.body.tokenId), verified := true)
            else s.startups[i])))
    ensures forall c :: c in o.calls && c.PinToIpfs? ==> (
      && Truthy(userId) && Truthy(companyName) && UserById(s.users, userId.value).Some?
      && c.signature == CreateRegistrationSignature(
           SignedData(companyName.value, userId.value, UserById(s.users, userId.value).value, nowMs), env, hmac))
  {
    if !Truthy(userId) || !Truthy(companyName) then Outcome(s, Failure(400, MissingFieldsError), [])
    else
      var id := userId.value;
      var company := companyName.value;
      match UserById(s.users, id)
      case None => Outcome(s, Failure(404, UserNotFoundError), [])
      case Some(user) =>
        if !FullyVerified(user) then Outcome(s, Failure(403, NotVerifiedError), [])
        else
          var signature := CreateRegistrationSignature(SignedData(company, id, user, nowMs), env, hmac);
          var token := MintedToken(company, id, nowMs, sha256);
          var calls := [PinToIpfs(signature), UpdateRows(Startups)];
          if updateFails then Outcome(s, Failure(500, UpdateFailedError), calls)
          else
            Outcome(s.(startups := RecordOnChain(s.startups, id, company, cid, token)),
                    Success(Registered(token, cid)), calls)
  }

  /** The signature handed to `pinToIPFS` verifies against the registration
      data signed for the request. */
  lemma PinnedSignatureVerifies(s: Store, userId: string, companyName: string, nowMs: nat,
                                env: Option<string>, hmac: Hmac, sha256: Sha256,
                                cid: Option<string>, updateFails: bool)
    requires userId != "" && companyName != ""
    requires UserById(s.users, userId).Some? && FullyVerified(UserById(s.users, userId).value)
    ensures var o := ChainRegister(s, Some(userId), Some(companyName), nowMs, env, hmac, sha256, cid, updateFails);
      var d := SignedData(companyName, userId, UserById(s.users, userId).value, nowMs);
      && o.calls[0].PinToIpfs?
      && VerifyRegistrationSignature(d, o.calls[0].signature, env, hmac) == Ok(true)
  {
    var o := ChainRegister(s, Some(userId), Some(companyName), nowMs, env, hmac, sha256, cid, updateFails);
    var d := SignedData(companyName, userId, UserById(s.users, userId).value, nowMs);
    assert o.calls[0] == PinToIpfs(CreateRegistrationSignature(d, env, hmac));
    SignatureRoundTrip(d, env, hmac);
  }

  /** One timestamp serves the signature and the token: the token's digits
      read back as the timestamp inside the signed data, and for a 13-digit
      clock the token passes the format check. */
  lemma TokenAndSignatureAgree(user: UserRow, userId: string, companyName: string, nowMs: nat, sha256: Sha256)
    requires nowMs > 0
    ensures var t := MintedToken(companyName, userId, nowMs, sha256);
      && DigitsValue(t[5..5 + |Decimal(nowMs)|]) == SignedData(companyName, userId, user, nowMs).timestamp
      && (1_000_000_000_000 <= nowMs < 10_000_000_000_000 ==> IsValidTokenFormat(t))
  {
    var data := TokenData(companyName, userId, nowMs, None);
    TokenTimestampReadable(data, nowMs, sha256);
    if 1_000_000_000_000 <= nowMs < 10_000_000_000_000 {
      FallbackTokenValid(data, nowMs, sha256);
    }
  }

  /** The update is filtered by company name as well: a request naming a
      company the account does not have changes no row and still succeeds. */
  lemma UnknownCompanyStillSucceeds(s: Store, userId: string, companyName: string, nowMs: nat,
                                    env: Option<string>, hmac: Hmac, sha256: Sha256, cid: Option<string>)
    requires userId != "" && companyName != ""
    requires UserById(s.users, userId).Some? && FullyVerified(UserById(s.users, userId).value)
    requires forall r :: r in s.startups && r.userId == userId ==> r.companyName != companyName
    ensures var o := ChainRegister(s, Some(userId), Some(companyName), nowMs, env, hmac, sha256, cid, false);
      o.reply.Success? && o.store == s
  {
    var o := ChainRegister(s, Some(userId), Some(companyName), nowMs, env, hmac, sha256, cid, false);
    assert o.store.startups == s.startups;
  }
}
