/** Domain-locked badge tokens: a signed claim set that expires after 365
    days, and the check that the page embedding a badge is on the domain the
    token was issued for. The JWT library and the WHATWG URL parser are
    parameters. */
module BadgeJwt {
  import opened Common
  import opened Text

  /** The payload of a badge token, with the times the library adds (seconds
      since the epoch). A token not made by `GenerateBadgeToken` may lack an
      expiry. */
  datatype Claims = Claims(startupId: string, domain: string, userId: string, iat: int, exp: Option<int>)

  /** `jwt.sign` and the signature part of `jwt.verify`, for one secret. */
  datatype Jwt = Jwt(seal: (string, Claims) -> string, unseal: (string, string) -> Option<Claims>)

  /** What the library guarantees: a token signed with a secret is not empty
      (it has three dot-separated parts) and opens, with that secret, to the
      claims that were signed. */
  ghost predicate Sound(jwt: Jwt) {
    forall secret, claims ::
      jwt.seal(secret, claims) != "" && jwt.unseal(secret, jwt.seal(secret, claims)) == Some(claims)
  }

  const DefaultSecret := "default_secret_change_in_production"

  /** `expiresIn: '365d'`, in seconds. */
  const Lifetime := 365 * 24 * 60 * 60

  /** `BADGE_JWT_SECRET`, or the default when it is unset or empty. */
  function Secret(env: Option<string>): (k: string)
    ensures env.Some? && env.value != "" ==> k == env.value
    ensures env.None? || env.value == "" ==> k == DefaultSecret
  {
    OrElse(env, DefaultSecret)
  }

  /** The library's clock: whole seconds of the millisecond clock. */
  function Seconds(nowMs: nat): nat { nowMs / 1000 }

  /** `generateBadgeToken`: signs the three ids, stamped now and expiring a
      year later. */
  function GenerateBadgeToken(startupId: string, domain: string, userId: string,
                              nowMs: nat, env: Option<string>, jwt: Jwt): string
  {
    jwt.seal(Secret(env), Claims(startupId, domain, userId, Seconds(nowMs), Some(Seconds(nowMs) + Lifetime)))
  }

  /** `verifyBadgeToken`: the claims of a token that opens with the secret and
      whose expiry, if any, is still ahead of the clock; otherwise nothing. */
  function VerifyBadgeToken(token: string, nowMs: nat, env: Option<string>, jwt: Jwt): (r: Option<Claims>)
    ensures r.Some? ==> jwt.unseal(Secret(env), token) == r
    ensures r.Some? <==> (jwt.unseal(Secret(env), token).Some?
      && (jwt.unseal(Secret(env), token).value.exp.None?
          || Seconds(nowMs) < jwt.unseal(Secret(env), token).value.exp.value))
  {
    match jwt.unseal(Secret(env), token)
    case None => None
    case Some(claims) =>
      if claims.exp.Some? && Seconds(nowMs) >= claims.exp.value then None else Some(claims)
  }

  /** A fresh token opens to the ids it was made from for exactly one year
      (in whole seconds of the issuing clock), and to nothing afterwards. */
  lemma BadgeRoundTrip(startupId: string, domain: string, userId: string,
                       issuedMs: nat, nowMs: nat, env: Option<string>, jwt: Jwt)
    requires Sound(jwt)
    ensures VerifyBadgeToken(GenerateBadgeToken(startupId, domain, userId, issuedMs, env, jwt), nowMs, env, jwt).Some?
            <==> Seconds(nowMs) < Seconds(issuedMs) + Lifetime
    ensures Seconds(nowMs) < Seconds(issuedMs) + Lifetime ==>
      var c := VerifyBadgeToken(GenerateBadgeToken(startupId, domain, userId, issuedMs, env, jwt), nowMs, env, jwt).value;
      c.startupId == startupId && c.domain == domain && c.userId == userId
  {
    var claims := Claims(startupId, domain, userId, Seconds(issuedMs), Some(Seconds(issuedMs) + Lifetime));
    assert jwt.unseal(Secret(env), jwt.seal(Secret(env), claims)) == Some(claims);
  }

  /** Once 365 days of milliseconds have passed, the token is refused. */
  lemma BadgeExpires(startupId: string, domain: string, userId: string,
                     issuedMs: nat, nowMs: nat, env: Option<string>, jwt: Jwt)
    requires Sound(jwt)
    requires nowMs >= issuedMs + Lifetime * 1000
    ensures VerifyBadgeToken(GenerateBadgeToken(startupId, domain, userId, issuedMs, env, jwt), nowMs, env, jwt).None?
  {
    BadgeRoundTrip(startupId, domain, userId, issuedMs, nowMs, env, jwt);
    assert (issuedMs + Lifetime * 1000) / 1000 == issuedMs / 1000 + Lifetime;
  }

  // ---------------------------------------------------------------------------
  // isTokenValidForDomain
  // ---------------------------------------------------------------------------

  /** `{ valid, error? }` */
  datatype DomainCheck = DomainCheck(valid: bool, error: Option<string>)

  const InvalidTokenError := "Invalid or expired token"
  const InvalidRefererError := "Invalid referer URL"

  function MismatchError(allowed: string, host: string): string {
    "Token only valid for " + allowed + ", used on " + host
  }

  /** The referer's host is the allowed domain or one of its subdomains. */
  predicate HostMatches(host: string, domain: string) {
    host == domain || EndsWith(host, "." + domain)
  }

  /** A host that ends with the domain matches exactly when nothing precedes
      the domain or a dot does: `shop.example.com` matches `example.com`,
      `notexample.com` does not. */
  lemma HostMatchesSuffix(prefix: string, domain: string)
    ensures HostMatches(prefix + domain, domain) <==> prefix == [] || prefix[|prefix| - 1] == '.'
  {
    var host := prefix + domain;
    if EndsWith(host, "." + domain) {
      DotBeforeSuffix(prefix, domain);
    }
    if prefix != [] && prefix[|prefix| - 1] == '.' {
      assert host[|host| - |"." + domain|..] == "." + domain;
    }
    if prefix == [] {
      assert host == domain;
    }
  }

  lemma DotBeforeSuffix(prefix: string, domain: string)
    requires EndsWith(prefix + domain, "." + domain)
    ensures prefix != [] && prefix[|prefix| - 1] == '.'
  {
    var host := prefix + domain;
    var k := |host| - |domain| - 1;
    assert host[k..][0] == '.';
    assert host[k] == prefix[|prefix| - 1];
  }

  /** A host that does not end with the domain never matches. */
  lemma HostMatchesOnlySuffix(host: string, domain: string)
    requires HostMatches(host, domain)
    ensures EndsWith(host, domain)
  {
    if host != domain {
      assert host[|host| - |domain|..] == ("." + domain)[1..];
    }
  }

  /** `isTokenValidForDomain`: the token must verify; then an absent or empty
      referer is accepted, an unparseable one is refused, and otherwise its
      host must match the token's domain. `hostname` is `new URL(r).hostname`,
      `None` where the constructor throws. */
  function IsTokenValidForDomain(token: string, referer: Option<string>, nowMs: nat, env: Option<string>,
                                 jwt: Jwt, hostname: string -> Option<string>): (r: DomainCheck)
    ensures VerifyBadgeToken(token, nowMs, env, jwt).None? ==> r == DomainCheck(false, Some(InvalidTokenError))
    ensures VerifyBadgeToken(token, nowMs, env, jwt).Some? && (referer.None? || referer.value == "")
            ==> r == DomainCheck(true, None)
    ensures r.valid <==> (VerifyBadgeToken(token, nowMs, env, jwt).Some?
      && (referer.None? || referer.value == ""
          || (hostname(referer.value).Some?
              && HostMatches(hostname(referer.value).value, VerifyBadgeToken(token, nowMs, env, jwt).value.domain))))
    ensures VerifyBadgeToken(token, nowMs, env, jwt).Some? && Truthy(referer) && hostname(referer.value).None?
            ==> r == DomainCheck(false, Some(InvalidRefererError))
    ensures VerifyBadgeToken(token, nowMs, env, jwt).Some? && Truthy(referer) && hostname(referer.value).Some?
            && !HostMatches(hostname(referer.value).value, VerifyBadgeToken(token, nowMs, env, jwt).value.domain)
            ==> r == DomainCheck(false, Some(MismatchError(VerifyBadgeToken(token, nowMs, env, jwt).value.domain,
                                                           hostname(referer.value).value)))
    ensures r.valid ==> r.error.None?
    ensures !r.valid ==> r.error.Some?
  {
    match VerifyBadgeToken(token, nowMs, env, jwt)
    case None => DomainCheck(false, Some(InvalidTokenError))
    case Some(claims) =>
      if referer.None? || referer.value == "" then DomainCheck(true, None)
      else
        match hostname(referer.value)
        case None => DomainCheck(false, Some(InvalidRefererError))
        case Some(host) =>
          if HostMatches(host, claims.domain) then DomainCheck(true, None)
          else DomainCheck(false, Some(MismatchError(claims.domain, host)))
  }

  /** A live token issued for `domain`, shown on a page whose host is `host`
      (a subdomain written as `prefix + domain`): accepted exactly when the
      prefix is empty or ends in a dot; refused otherwise with the message
      naming both. */
  lemma DomainLock(startupId: string, domain: string, userId: string, issuedMs: nat, nowMs: nat,
                   env: Option<string>, jwt: Jwt, referer: string, prefix: string,
                   hostname: string -> Option<string>)
    requires Sound(jwt)
    requires Seconds(nowMs) < Seconds(issuedMs) + Lifetime
    requires referer != "" && hostname(referer) == Some(prefix + domain)
    ensures IsTokenValidForDomain(GenerateBadgeToken(startupId, domain, userId, issuedMs, env, jwt),
                                  Some(referer), nowMs, env, jwt, hostname)
            == if prefix == [] || prefix[|prefix| - 1] == '.' then DomainCheck(true, None)
               else DomainCheck(false, Some(MismatchError(domain, prefix + domain)))
  {
    BadgeRoundTrip(startupId, domain, userId, issuedMs, nowMs, env, jwt);
    HostMatchesSuffix(prefix, domain);
  }

  /** The subdomain example: `shop.example.com` may show a badge issued for
      `example.com`, `notexample.com` may not. */
  lemma ExampleHosts()
    ensures HostMatches("shop.example.com", "example.com")
    ensures !HostMatches("notexample.com", "example.com")
  {
    HostMatchesSuffix("shop.", "example.com");
    assert "shop." + "example.com" == "shop.example.com";
    HostMatchesSuffix("not", "example.com");
    assert "not" + "example.com" == "notexample.com";
  }
}
