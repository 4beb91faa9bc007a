/** `POST /api/send-parent-email`: stores a fresh guardian token for the
    account and mails the guardian a link that carries it. */
module ParentEmailRoute {
  import opened Common
  import opened Text
  import opened Hex
  import opened Token
  import opened Store
  import RegisterRoute

  const NotConfiguredError := "Email service not configured"
  const UserNotFoundError := "User not found"
  const StartupNotFoundError := "Startup not found"
  const TokenInsertError := "Failed to create verification token"
  const SendFailedError := "Failed to send email: "

  /** `setHours(getHours() + 24)`, in milliseconds. */
  const TokenLifetimeMs := 24 * 60 * 60 * 1000

  const DefaultSite := "http://localhost:3000"

  /** `NEXT_PUBLIC_SITE_URL`, or the local address when unset or empty. */
  function SiteUrl(site: Option<string>): string {
    OrElse(site, DefaultSite)
  }

  /** The guardian's link: the site, the page path, the token. */
  function VerificationUrl(site: Option<string>, token: string): (u: string)
    ensures StartsWith(u, SiteUrl(site)) && EndsWith(u, "/verify-parent/" + token)
  {
    var u := SiteUrl(site) + "/verify-parent/" + token;
    assert u[..|SiteUrl(site)|] == SiteUrl(site);
    assert u[|u| - |"/verify-parent/" + token|..] == "/verify-parent/" + token;
    u
  }

  /** The `parent_tokens` row written for `userId` at `nowMs`. */
  function TokenRow(userId: string, random: Bytes32, nowMs: int): ParentTokenRow {
    ParentTokenRow(userId, GenerateVerificationToken(random), nowMs + TokenLifetimeMs, true)
  }

  /** The route. `apiKey` is `RESEND_API_KEY`, `random` the 32 bytes the token
      is made of, `insertFails` whether the token insert answers with an
      error, `sendError` the mail service's error, already serialised. The
      reply body is the guardian's address. */
  function SendParentEmail(s: Store, apiKey: Option<string>, userId: Option<string>, random: Bytes32,
                           nowMs: int, site: Option<string>, insertFails: bool,
                           sendError: Option<string>): (o: Outcome<string>)
    ensures !Truthy(apiKey) ==> o == Outcome(s, Failure(500, NotConfiguredError), [])
    ensures Truthy(apiKey) && (userId.None? || UserById(s.users, userId.value).None?) ==>
      o == Outcome(s, Failure(404, UserNotFoundError), [])
    ensures Truthy(apiKey) && userId.Some? && UserById(s.users, userId.value).Some?
            && StartupOf(s.startups, userId.value).None? ==>
      o == Outcome(s, Failure(404, StartupNotFoundError), [])
    ensures Truthy(apiKey) && userId.Some? && UserById(s.users, userId.value).Some?
            && StartupOf(s.startups, userId.value).Some? && insertFails ==>
      o == Outcome(s, Failure(500, TokenInsertError), [InsertRow(ParentTokens)])
    ensures (Truthy(apiKey) && userId.Some? && UserById(s.users, userId.value).Some?
             && StartupOf(s.startups, userId.value).Some? && !insertFails) ==> (
      && o.store == s.(parentTokens := s.parentTokens + [TokenRow(userId.value, random, nowMs)])
      && o.calls == [InsertRow(ParentTokens),
                     SendEmail(Some(UserById(s.users, userId.value).value.parentEmail),
                               VerificationUrl(site, GenerateVerificationToken(random)))]
      && (sendError.Some? ==> o.reply == Failure(500, SendFailedError + sendError.value)))
    ensures o.reply.Success? <==> (
      && Truthy(apiKey) && userId.Some?
      && UserById(s.users, userId.value).Some? && StartupOf(s.startups, userId.value).Some?
      && !insertFails && sendError.None?)
    ensures o.reply.Success? ==> o.reply.body == UserById(s.users, userId.value).value.parentEmail
    ensures o.store == s || (
      && userId.Some?
      && o.store == s.(parentTokens := s.parentTokens + [TokenRow(userId.value, random, nowMs)]))
    ensures o.reply.Success? ==> o.store != s
    ensures forall c :: c in o.calls && c.SendEmail? ==> (
      && userId.Some? && UserById(s.users, userId.value).Some?
      && c == SendEmail(Some(UserById(s.users, userId.value).value.parentEmail),
                        VerificationUrl(site, GenerateVerificationToken(random))))
    ensures sendError.Some? && o.calls != [] && o.calls[|o.calls| - 1].SendEmail? ==>
      o.reply == Failure(500, SendFailedError + sendError.value)
  {
    if !Truthy(apiKey) then Outcome(s, Failure(500, NotConfiguredError), [])
    else if userId.None? || UserById(s.users, userId.value).None? then
      Outcome(s, Failure(404, UserNotFoundError), [])
    else if StartupOf(s.startups, userId.value).None? then
      Outcome(s, Failure(404, StartupNotFoundError), [])
    else
      var user := UserById(s.users, userId.value).value;
      var token := GenerateVerificationToken(random);
      if insertFails then Outcome(s, Failure(500, TokenInsertError), [InsertRow(ParentTokens)])
      else
        var stored := s.(parentTokens := s.parentTokens + [TokenRow(userId.value, random, nowMs)]);
        var calls := [InsertRow(ParentTokens), SendEmail(Some(user.parentEmail), VerificationUrl(site, token))];
        if sendError.Some? then Outcome(stored, Failure(500, SendFailedError + sendError.value), calls)
        else Outcome(stored, Success(user.parentEmail), calls)
  }

  /** Every link mailed carries a token that was stored for the same account
      before the mail went out and expires a day after it was made. */
  lemma MailedTokenIsStored(s: Store, apiKey: Option<string>, userId: Option<string>, random: Bytes32,
                            nowMs: int, site: Option<string>, insertFails: bool, sendError: Option<string>)
    ensures var o := SendParentEmail(s, apiKey, userId, random, nowMs, site, insertFails, sendError);
      var token := GenerateVerificationToken(random);
      forall c :: c in o.calls && c.SendEmail? ==> (
        && EndsWith(c.link, "/verify-parent/" + token)
        && Before(o.calls, InsertRow(ParentTokens), c)
        && userId.Some? && ParentTokenRow(userId.value, token, nowMs + TokenLifetimeMs, true) in o.store.parentTokens)
  {
    var o := SendParentEmail(s, apiKey, userId, random, nowMs, site, insertFails, sendError);
    var token := GenerateVerificationToken(random);
    MailSent(s, apiKey, userId, random, nowMs, site, insertFails, sendError);
    forall c | c in o.calls && c.SendEmail?
      ensures && EndsWith(c.link, "/verify-parent/" + token)
              && Before(o.calls, InsertRow(ParentTokens), c)
              && userId.Some? && ParentTokenRow(userId.value, token, nowMs + TokenLifetimeMs, true) in o.store.parentTokens
    {
      assert c == o.calls[1];
      assert c.link == VerificationUrl(site, token);
      assert 0 < 1 < |o.calls| && o.calls[0] == InsertRow(ParentTokens);
      assert o.store.parentTokens[|s.parentTokens|] == TokenRow(userId.value, random, nowMs);
    }
  }

  /** A mail goes out only after the token row is written. */
  lemma MailSent(s: Store, apiKey: Option<string>, userId: Option<string>, random: Bytes32,
                 nowMs: int, site: Option<string>, insertFails: bool, sendError: Option<string>)
    ensures var o := SendParentEmail(s, apiKey, userId, random, nowMs, site, insertFails, sendError);
      (exists c :: c in o.calls && c.SendEmail?) ==> (
        && userId.Some? && |o.calls| == 2 && o.calls[0] == InsertRow(ParentTokens) && o.calls[1].SendEmail?
        && o.store.parentTokens == s.parentTokens + [TokenRow(userId.value, random, nowMs)])
  {
  }

  /** Registration and the guardian mail compose: right after a successful
      registration on a consistent store, the mail route finds the account
      and its startup, and with a working mail service it mails the
      guardian address given at registration. */
  lemma RegisterThenMail(s: Store, body: RegisterRoute.RegisterBody, id: string, startupId: string, now: int,
                         apiKey: string, random: Bytes32, nowMs: int, site: Option<string>)
    requires Linked(s) && id !in s.auth
    requires RegisterRoute.HasRequiredFields(body)
    requires apiKey != ""
    ensures var r := RegisterRoute.Register(s, body, RegisterRoute.CreatedUser(id), None, None, startupId, now);
      SendParentEmail(r.store, Some(apiKey), Some(id), random, nowMs, site, false, None).reply
        == Success(body.parentEmail.value)
  {
    var r := RegisterRoute.Register(s, body, RegisterRoute.CreatedUser(id), None, None, startupId, now);
    RegisterRoute.RegisterSuccessRows(s, body, RegisterRoute.CreatedUser(id), None, None, startupId, now);
    assert RegisterRoute.NewUser(id, body, now) in r.store.users;
    assert RegisterRoute.NewStartup(startupId, id, body) in r.store.startups;
  }
}
