/** `POST /api/badge/generate-token`: issues a domain-locked badge token and
    its embed code for the signed-in founder's verified startup. */
module BadgeGenerateRoute {
  import opened Common
  import opened Text
  import opened Domain
  import opened BadgeJwt
  import opened Store

  const DomainRequiredError := "Domain is required"
  const InvalidDomainError := "Invalid domain format"
  const UnauthorizedError := "Unauthorized"
  const NoVerifiedStartupError := "No verified startup found. Complete verification first."
  const ExpiresIn := "1 year"
  const DefaultSite := "https://timint.vercel.app"

  /** The success body. `domain` is the domain as sent, while the token holds
      it lower-cased. */
  datatype BadgeIssued = BadgeIssued(token: string, domain: string, embedCode: string, expiresIn: string)

  /** `NEXT_PUBLIC_SITE_URL`, or the production address when unset or empty. */
  function BadgeSite(site: Option<string>): string {
    OrElse(site, DefaultSite)
  }

  /** The badge page the embed code links to. */
  function BadgeLink(site: Option<string>, startupId: string, token: string): string {
    BadgeSite(site) + "/badge/" + startupId + "?token=" + token
  }

  /** Everything of the anchor after its link: styling and the badge text,
      whose word "Verified" carries a stray space. */
  const EmbedTail := " target=\"_blank\" style=\"display: inline-flex; align-items: center; gap: 6px; "
    + "padding: 8px 12px; background: #0D1E33; color: white; text-decoration: none; border-radius: 6px; "
    + "font-size: 14px; font-family: sans-serif;\">\U{2713} Ver ified by TiMint Finance</a>"

  function EmbedCode(link: string): (code: string)
    ensures StartsWith(code, "<a href=\"" + link + "\"")
  {
    var code := "<a href=\"" + link + "\"" + EmbedTail;
    assert code[..|"<a href=\"" + link + "\""|] == "<a href=\"" + link + "\"";
    code
  }

  /** The founder's startup, if exactly one verified one exists. */
  function VerifiedStartupOf(s: Store, userId: string): Option<StartupRow> {
    Single(s.startups, (r: StartupRow) => r.userId == userId && r.verified)
  }

  /** The route. `authUser` is the signed-in account's id, `nowMs` the clock,
      `env` is `BADGE_JWT_SECRET`, `site` is `NEXT_PUBLIC_SITE_URL`. Nothing
      is written. */
  function GenerateToken(s: Store, domain: Option<string>, authUser: Option<string>, nowMs: nat,
                         env: Option<string>, jwt: Jwt, site: Option<string>): (o: Outcome<BadgeIssued>)
    ensures o.store == s && o.calls == []
    ensures !Truthy(domain) ==> o.reply == Failure(400, DomainRequiredError)
    ensures Truthy(domain) && !IsValidDomain(domain.value) ==> o.reply == Failure(400, InvalidDomainError)
    ensures Truthy(domain) && IsValidDomain(domain.value) && authUser.None? ==> o.reply == Failure(401, UnauthorizedError)
    ensures Truthy(domain) && IsValidDomain(domain.value) && authUser.Some?
            && VerifiedStartupOf(s, authUser.value).None? ==>
      o.reply == Failure(404, NoVerifiedStartupError)
    ensures o.reply.Success? <==> (
      && Truthy(domain) && IsValidDomain(domain.value) && authUser.Some?
      && VerifiedStartupOf(s, authUser.value).Some?)
    ensures o.reply.Success? ==> (
      var startup := VerifiedStartupOf(s, authUser.value).value;
      && startup.userId == authUser.value && startup.verified
      && o.reply.body.domain == domain.value
      && o.reply.body.expiresIn == ExpiresIn
      && o.reply.body.token == GenerateBadgeToken(startup.id, Lower(domain.value), authUser.value, nowMs, env, jwt)
      && StartsWith(o.reply.body.embedCode,
                    "<a href=\"" + BadgeLink(site, startup.id, o.reply.body.token) + "\""))
  {
    if !Truthy(domain) then Outcome(s, Failure(400, DomainRequiredError), [])
    else if !IsValidDomain(domain.value) then Outcome(s, Failure(400, InvalidDomainError), [])
    else if authUser.None? then Outcome(s, Failure(401, UnauthorizedError), [])
    else
      match VerifiedStartupOf(s, authUser.value)
      case None => Outcome(s, Failure(404, NoVerifiedStartupError), [])
      case Some(startup) =>
        var token := GenerateBadgeToken(startup.id, Lower(domain.value), authUser.value, nowMs, env, jwt);
        Outcome(s, Success(BadgeIssued(token, domain.value,
                                       EmbedCode(BadgeLink(site, startup.id, token)), ExpiresIn)), [])
  }

  /** The domain written into an issued token passes the same pattern as the
      domain sent: lower-casing keeps the verdict. */
  lemma IssuedDomainValid(domain: string)
    requires IsValidDomain(domain)
    ensures IsValidDomain(Lower(domain)) && DomainShape(Lower(domain))
  {
    LowerKeepsVerdict(domain);
    DomainPattern(Lower(domain));
  }
}

/** `POST /api/badge/verify`: checks a badge token against the embedding
    page's domain and confirms its startup is still verified. */
module BadgeVerifyRoute {
  import opened Common
  import opened Text
  import opened BadgeJwt
  import opened Store
  import BadgeGenerateRoute

  const TokenRequiredError := "Token required"
  const InvalidTokenFallback := "Invalid token"
  const VerificationFailedError := "Token verification failed"
  const StartupGoneError := "Startup not found or not verified"

  /** The success body, sent with `verified: true`; every failure is sent
      with `verified: false`. */
  datatype BadgeVerified = BadgeVerified(startupId: string, domain: string, companyName: string)

  /** The route. `referer` is the `Referer` header; the token is checked
      twice, by the domain check at `checkMs` and again at `verifyMs`, each
      reading the clock itself. */
  function VerifyBadge(s: Store, token: Option<string>, referer: Option<string>, checkMs: nat, verifyMs: nat,
                       env: Option<string>, jwt: Jwt, hostname: string -> Option<string>): (o: Outcome<BadgeVerified>)
    ensures o.store == s && o.calls == []
    ensures !Truthy(token) ==> o.reply == Failure(400, TokenRequiredError)
    ensures Truthy(token) && !IsTokenValidForDomain(token.value, referer, checkMs, env, jwt, hostname).valid ==>
      o.reply == Failure(403, IsTokenValidForDomain(token.value, referer, checkMs, env, jwt, hostname).error.value)
    ensures o.reply.Success? <==> (
      && Truthy(token)
      && IsTokenValidForDomain(token.value, referer, checkMs, env, jwt, hostname).valid
      && VerifyBadgeToken(token.value, verifyMs, env, jwt).Some?
      && Single(s.startups, (r: StartupRow) => r.id == VerifyBadgeToken(token.value, verifyMs, env, jwt).value.startupId).Some?
      && Single(s.startups, (r: StartupRow) => r.id == VerifyBadgeToken(token.value, verifyMs, env, jwt).value.startupId).value.verified)
    ensures o.reply.Success? ==> (
      var claims := VerifyBadgeToken(token.value, verifyMs, env, jwt).value;
      var startup := Single(s.startups, (r: StartupRow) => r.id == claims.startupId).value;
      o.reply.body == BadgeVerified(claims.startupId, claims.domain, startup.companyName))
    ensures Truthy(token) && IsTokenValidForDomain(token.value, referer, checkMs, env, jwt, hostname).valid
            && VerifyBadgeToken(token.value, verifyMs, env, jwt).None? ==>
      o.reply == Failure(403, VerificationFailedError)
    ensures Truthy(token) && IsTokenValidForDomain(token.value, referer, checkMs, env, jwt, hostname).valid
            && VerifyBadgeToken(token.value, verifyMs, env, jwt).Some?
            && (var found := Single(s.startups, (r: StartupRow) => r.id == VerifyBadgeToken(token.value, verifyMs, env, jwt).value.startupId);
                found.None? || !found.value.verified) ==>
      o.reply == Failure(404, StartupGoneError)
    ensures o.reply.Failure? ==> o.reply.status in {400, 403, 404}
  {
    if !Truthy(token) then Outcome(s, Failure(400, TokenRequiredError), [])
    else
      var check := IsTokenValidForDomain(token.value, referer, checkMs, env, jwt, hostname);
      if !check.valid then
        Outcome(s, Failure(403, if check.error.Some? && check.error.value != "" then check.error.value
                                else InvalidTokenFallback), [])
      else
        match VerifyBadgeToken(token.value, verifyMs, env, jwt)
        case None => Outcome(s, Failure(403, VerificationFailedError), [])
        case Some(claims) =>
          match Single(s.startups, (r: StartupRow) => r.id == claims.startupId)
          case None => Outcome(s, Failure(404, StartupGoneError), [])
          case Some(startup) =>
            if !startup.verified then Outcome(s, Failure(404, StartupGoneError), [])
            else Outcome(s, Success(BadgeVerified(claims.startupId, claims.domain, startup.companyName)), [])
  }

  /** The second check can only fail when the clock has crossed a second
      boundary between the two readings and the token expired on it: with
      no later second it is never the reason for a refusal. */
  lemma SecondCheckRedundant(s: Store, token: Option<string>, referer: Option<string>, checkMs: nat, verifyMs: nat,
                             env: Option<string>, jwt: Jwt, hostname: string -> Option<string>)
    requires Seconds(verifyMs) <= Seconds(checkMs)
    ensures VerifyBadge(s, token, referer, checkMs, verifyMs, env, jwt, hostname).reply
            != Failure(403, VerificationFailedError)
  {
    if Truthy(token) {
      var check := IsTokenValidForDomain(token.value, referer, checkMs, env, jwt, hostname);
      if check.valid {
        assert VerifyBadgeToken(token.value, checkMs, env, jwt).Some?;
      } else {
        assert check.error.value != VerificationFailedError by {
          MessagesDiffer(check, token.value, referer, checkMs, env, jwt, hostname);
        }
      }
    }
  }

  /** No domain-check message reads like the second check's. */
  lemma MessagesDiffer(check: DomainCheck, token: string, referer: Option<string>, nowMs: nat,
                       env: Option<string>, jwt: Jwt, hostname: string -> Option<string>)
    requires check == IsTokenValidForDomain(token, referer, nowMs, env, jwt, hostname) && !check.valid
    ensures check.error.value != VerificationFailedError && check.error.value != ""
  {
    if check.error.value != InvalidTokenError && check.error.value != InvalidRefererError {
      var host := hostname(referer.value).value;
      var domain := VerifyBadgeToken(token, nowMs, env, jwt).value.domain;
      assert check.error.value == MismatchError(domain, host);
      assert check.error.value[..5] == "Token"[..5];
      assert check.error.value[6] == 'o';
    }
  }

  /** A live token, shown on a page of its domain or a subdomain, for a
      startup that is still the one verified startup with its id, is
      confirmed with the ids and domain it was issued with. */
  lemma LiveTokenConfirmed(s: Store, startupId: string, domain: string, userId: string, issuedMs: nat,
                           checkMs: nat, verifyMs: nat, env: Option<string>, jwt: Jwt,
                           referer: string, prefix: string, hostname: string -> Option<string>, startup: StartupRow)
    requires Sound(jwt)
    requires Seconds(checkMs) < Seconds(issuedMs) + Lifetime && Seconds(verifyMs) < Seconds(issuedMs) + Lifetime
    requires referer != "" && hostname(referer) == Some(prefix + domain)
    requires prefix == [] || prefix[|prefix| - 1] == '.'
    requires Single(s.startups, (r: StartupRow) => r.id == startupId) == Some(startup) && startup.verified
    ensures VerifyBadge(s, Some(GenerateBadgeToken(startupId, domain, userId, issuedMs, env, jwt)), Some(referer),
                        checkMs, verifyMs, env, jwt, hostname).reply
            == Success(BadgeVerified(startupId, domain, startup.companyName))
  {
    DomainLock(startupId, domain, userId, issuedMs, checkMs, env, jwt, referer, prefix, hostname);
    BadgeRoundTrip(startupId, domain, userId, issuedMs, verifyMs, env, jwt);
  }

  /** End to end: a badge issued for a domain, shown within the year on a
      page of that domain or one of its subdomains while the startup is
      still the one verified startup with its id, is confirmed with the
      startup's id, the lower-cased domain and the company name. */
  lemma IssuedBadgeConfirmed(s: Store, domain: string, userId: string, issuedMs: nat,
                             checkMs: nat, verifyMs: nat, env: Option<string>, jwt: Jwt, site: Option<string>,
                             referer: string, prefix: string, hostname: string -> Option<string>)
    requires Sound(jwt)
    requires BadgeGenerateRoute.GenerateToken(s, Some(domain), Some(userId), issuedMs, env, jwt, site).reply.Success?
    requires Seconds(checkMs) < Seconds(issuedMs) + Lifetime && Seconds(verifyMs) < Seconds(issuedMs) + Lifetime
    requires referer != "" && hostname(referer) == Some(prefix + Lower(domain))
    requires prefix == [] || prefix[|prefix| - 1] == '.'
    requires var startup := BadgeGenerateRoute.VerifiedStartupOf(s, userId).value;
      Single(s.startups, (r: StartupRow) => r.id == startup.id) == Some(startup)
    ensures var issued := BadgeGenerateRoute.GenerateToken(s, Some(domain), Some(userId), issuedMs, env, jwt, site);
      var startup := BadgeGenerateRoute.VerifiedStartupOf(s, userId).value;
      VerifyBadge(s, Some(issued.reply.body.token), Some(referer), checkMs, verifyMs, env, jwt, hostname).reply
        == Success(BadgeVerified(startup.id, Lower(domain), startup.companyName))
  {
    var startup := BadgeGenerateRoute.VerifiedStartupOf(s, userId).value;
    LiveTokenConfirmed(s, startup.id, Lower(domain), userId, issuedMs, checkMs, verifyMs, env, jwt,
                       referer, prefix, hostname, startup);
  }
}
