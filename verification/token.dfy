/** The identifier and signature helpers of the blockchain library: the
    `TMIT-<timestamp>-<HEX8>` ownership token, the `TMT-` verification id, the
    token-format check, the HMAC registration signature and the guardian
    verification token. SHA-256 and HMAC-SHA256 are parameters returning a
    `Sha256Hex`; the clock read by `Date.now()` is a parameter. */
module Token {
  import opened Common
  import opened Text
  import opened Hex

  /** `createHash('sha256').update(input).digest('hex')` */
  type Sha256 = string -> Sha256Hex

  /** `createHmac('sha256', key).update(message).digest('hex')`, as a function
      of `(key, message)`. */
  type Hmac = (string, string) -> Sha256Hex

  /** The argument of `generateTMITToken`; `txHash` is `blockchainTxHash`. */
  datatype TokenData = TokenData(companyName: string, userId: string, timestamp: nat, txHash: Option<string>)

  /** `data.timestamp || Date.now()`: a zero timestamp is falsy and replaced by the clock. */
  function EffectiveTimestamp(data: TokenData, clock: nat): nat {
    if data.timestamp == 0 then clock else data.timestamp
  }

  /** True when `blockchainTxHash` is truthy, i.e. present and non-empty. */
  predicate HasTxHash(data: TokenData) {
    data.txHash.Some? && data.txHash.value != ""
  }

  /** The text hashed on the fallback branch: `company:user:timestamp`. */
  function FallbackHashInput(data: TokenData, ts: nat): string {
    data.companyName + ":" + data.userId + ":" + Decimal(ts)
  }

  /** `TMIT-<timestamp>-`, the part every token starts with. */
  function TokenPrefix(ts: nat): string {
    "TMIT-" + Decimal(ts) + "-"
  }

  /** `generateTMITToken`. With a transaction hash the suffix is characters
      2..10 of the hash, upper-cased; otherwise it is the first 8 hex digits of
      the SHA-256 of the fallback input, upper-cased. */
  function GenerateTMITToken(data: TokenData, clock: nat, sha256: Sha256): (r: string)
    ensures StartsWith(r, TokenPrefix(EffectiveTimestamp(data, clock)))
    ensures |r| <= |TokenPrefix(EffectiveTimestamp(data, clock))| + 8
    ensures !HasTxHash(data) ==>
      |r| == |TokenPrefix(EffectiveTimestamp(data, clock))| + 8
      && AllUpperHex(r[|TokenPrefix(EffectiveTimestamp(data, clock))|..])
  {
    var ts := EffectiveTimestamp(data, clock);
    if HasTxHash(data) then
      "TMIT-" + Decimal(ts) + "-" + Upper(Slice(data.txHash.value, 2, 10))
    else
      "TMIT-" + Decimal(ts) + "-" + Upper(sha256(FallbackHashInput(data, ts))[..8])
  }

  // ---------------------------------------------------------------------------
  // isValidTokenFormat: /^TMIT-\d{13}-[A-F0-9]{8}$/
  // ---------------------------------------------------------------------------

  datatype Atom = Literal(c: char) | AnyDigit | UpperHexDigit

  predicate AtomMatches(a: Atom, c: char) {
    match a
    case Literal(l) => c == l
    case AnyDigit => IsDigit(c)
    case UpperHexDigit => IsUpperHexDigit(c)
  }

  /** `n` copies of one atom: the repetition `{n}`. */
  function Repeat(a: Atom, n: nat): (r: seq<Atom>)
    ensures |r| == n && forall i :: 0 <= i < n ==> r[i] == a
  {
    if n == 0 then [] else [a] + Repeat(a, n - 1)
  }

  /** The regular expression unrolled into one atom per character: it has no
      alternation and only fixed repetition counts, so it matches strings of
      exactly this many characters. */
  const TokenPattern: seq<Atom> :=
    [Literal('T'), Literal('M'), Literal('I'), Literal('T'), Literal('-')]
    + Repeat(AnyDigit, 13) + [Literal('-')] + Repeat(UpperHexDigit, 8)

  /** `isValidTokenFormat` */
  predicate IsValidTokenFormat(t: string) {
    |t| == |TokenPattern| && forall i :: 0 <= i < |t| ==> AtomMatches(TokenPattern[i], t[i])
  }

  lemma PatternShape()
    ensures |TokenPattern| == 27
    ensures forall i :: 0 <= i < 5 ==> TokenPattern[i] == Literal("TMIT-"[i])
    ensures forall i :: 5 <= i < 18 ==> TokenPattern[i] == AnyDigit
    ensures TokenPattern[18] == Literal('-')
    ensures forall i :: 19 <= i < 27 ==> TokenPattern[i] == UpperHexDigit
  {
    var head := [Literal('T'), Literal('M'), Literal('I'), Literal('T'), Literal('-')];
    assert TokenPattern == head + Repeat(AnyDigit, 13) + [Literal('-')] + Repeat(UpperHexDigit, 8);
  }

  /** A string built like a token passes the format check exactly when its
      timestamp part is 13 decimal digits and its suffix is 8 characters of
      `[A-F0-9]`. Lower-case hex is not accepted. */
  lemma ValidTokenFormatOf(digits: string, suffix: string)
    ensures IsValidTokenFormat("TMIT-" + digits + "-" + suffix)
        <==> |digits| == 13 && AllDigits(digits) && |suffix| == 8 && AllUpperHex(suffix)
  {
    var t := "TMIT-" + digits + "-" + suffix;
    PatternShape();
    var p := 5 + |digits|;
    assert t[p] == '-';
    if IsValidTokenFormat(t) {
      assert AtomMatches(TokenPattern[p], t[p]);
      forall j | 0 <= j < 13 ensures IsDigit(digits[j]) {
        assert t[5 + j] == digits[j];
        assert AtomMatches(TokenPattern[5 + j], t[5 + j]);
      }
      forall j | 0 <= j < 8 ensures IsUpperHexDigit(suffix[j]) {
        assert t[19 + j] == suffix[j];
        assert AtomMatches(TokenPattern[19 + j], t[19 + j]);
      }
    }
    if |digits| == 13 && AllDigits(digits) && |suffix| == 8 && AllUpperHex(suffix) {
      forall i | 0 <= i < 27 ensures AtomMatches(TokenPattern[i], t[i]) {
        if 5 <= i < 18 {
          assert t[i] == digits[i - 5];
        } else if 19 <= i {
          assert t[i] == suffix[i - 19];
        }
      }
    }
  }

  /** With a transaction hash, the token is valid exactly when the clock value
      has 13 digits and the hash has 8 hex digits (of either case) at
      positions 2..10, as a `0x`-prefixed transaction hash does. */
  lemma TxHashTokenValidity(data: TokenData, clock: nat, sha256: Sha256)
    requires HasTxHash(data)
    ensures IsValidTokenFormat(GenerateTMITToken(data, clock, sha256))
      <==> 1_000_000_000_000 <= EffectiveTimestamp(data, clock) < 10_000_000_000_000
           && |data.txHash.value| >= 10 && AllHex(data.txHash.value[2..10])
  {
    var h := data.txHash.value;
    var ts := EffectiveTimestamp(data, clock);
    var suffix := Upper(Slice(h, 2, 10));
    ValidTokenFormatOf(Decimal(ts), suffix);
    ThirteenDigits(ts);
    if |h| >= 10 {
      assert Slice(h, 2, 10) == h[2..10];
      forall i | 0 <= i < 8 ensures IsUpperHexDigit(suffix[i]) <==> IsHexDigit(h[2 + i]) {
        UpperHexExactly(h[2 + i]);
      }
      assert AllHex(h[2..10]) <==> AllUpperHex(suffix) by {
        assert forall i :: 0 <= i < 8 ==> h[2..10][i] == h[2 + i];
      }
    }
  }

  /** On the fallback branch, any 13-digit timestamp yields a valid token,
      whatever the company name, user id and digest. */
  lemma FallbackTokenValid(data: TokenData, clock: nat, sha256: Sha256)
    requires !HasTxHash(data)
    requires 1_000_000_000_000 <= EffectiveTimestamp(data, clock) < 10_000_000_000_000
    ensures IsValidTokenFormat(GenerateTMITToken(data, clock, sha256))
  {
    var ts := EffectiveTimestamp(data, clock);
    var digest := sha256(FallbackHashInput(data, ts));
    ThirteenDigits(ts);
    assert AllUpperHex(Upper(digest[..8])) by {
      forall i | 0 <= i < 8 ensures IsUpperHexDigit(Upper(digest[..8])[i]) {
        UpperHexExactly(digest[i]);
      }
    }
    ValidTokenFormatOf(Decimal(ts), Upper(digest[..8]));
  }

  /** The fallback suffix is the SHA-256 of `company:user:timestamp`, the same
      timestamp the token shows, truncated to 8 digits and upper-cased. */
  lemma FallbackSuffix(data: TokenData, clock: nat, sha256: Sha256)
    requires !HasTxHash(data)
    ensures var ts := EffectiveTimestamp(data, clock);
      var t := GenerateTMITToken(data, clock, sha256);
      var digest := sha256(data.companyName + ":" + data.userId + ":" + Decimal(ts));
      t[6 + |Decimal(ts)|..] == Upper(digest[..8])
  {
  }

  /** The timestamp written into a token can be read back: it is the given
      timestamp, or the clock when the given one is zero. */
  lemma TokenTimestampReadable(data: TokenData, clock: nat, sha256: Sha256)
    ensures var t := GenerateTMITToken(data, clock, sha256);
      var n := |Decimal(EffectiveTimestamp(data, clock))|;
      AllDigits(t[5..5 + n])
      && DigitsValue(t[5..5 + n]) == (if data.timestamp == 0 then clock else data.timestamp)
  {
    var ts := EffectiveTimestamp(data, clock);
    var t := GenerateTMITToken(data, clock, sha256);
    assert t[5..5 + |Decimal(ts)|] == Decimal(ts);
    DecimalRoundTrip(ts);
  }

  /** An IPFS CIDv0: base58, starting `Qm`. */
  const ExampleCid: string := "QmYwAPJzv5CZsnA625s3Xf2nemtYgPpHdWEz79ojWnPbdG"

  /** A CID used as the transaction hash, as the KYC approval does, gives a
      token the format check rejects whenever a base58 letter outside
      `[0-9a-fA-F]` falls in positions 2..10, as in this one. */
  lemma CidTokenRejected(companyName: string, userId: string, ts: nat, clock: nat, sha256: Sha256)
    ensures !IsValidTokenFormat(GenerateTMITToken(TokenData(companyName, userId, ts, Some(ExampleCid)), clock, sha256))
  {
    TxHashTokenValidity(TokenData(companyName, userId, ts, Some(ExampleCid)), clock, sha256);
    assert ExampleCid[2..10][0] == ExampleCid[2] == 'Y';
  }

  // ---------------------------------------------------------------------------
  // generateVerificationId
  // ---------------------------------------------------------------------------

  /** `generateVerificationId`: `TMT-` and the first 8 characters of the
      startup id, upper-cased. */
  function GenerateVerificationId(startupId: string): (r: string)
    ensures StartsWith(r, "TMT-")
    ensures |r| == 4 + (if |startupId| < 8 then |startupId| else 8)
    ensures forall i :: 4 <= i < |r| ==> r[i] == UpperChar(startupId[i - 4])
  {
    "TMT-" + Upper(Slice(startupId, 0, 8))
  }

  /** For a UUID-shaped startup id (lowercase hex first group), the id is
      exactly 12 characters ending in upper-case hex. */
  lemma VerificationIdOfUuid(startupId: string)
    requires |startupId| >= 8 && AllLowerHex(startupId[..8])
    ensures var r := GenerateVerificationId(startupId);
      |r| == 12 && AllUpperHex(r[4..])
  {
    var r := GenerateVerificationId(startupId);
    forall i | 4 <= i < 12 ensures IsUpperHexDigit(r[i]) {
      assert IsLowerHexDigit(startupId[..8][i - 4]);
      UpperHexExactly(startupId[i - 4]);
    }
  }

  // ---------------------------------------------------------------------------
  // Registration signature
  // ---------------------------------------------------------------------------

  /** The argument of `createRegistrationSignature`. */
  datatype RegistrationData = RegistrationData(companyName: string, userId: string, guardianName: string, timestamp: nat)

  const DefaultSigningKey: string := "default-secret-key"

  /** `process.env.TOKEN_ENCRYPTION_KEY || 'default-secret-key'` */
  function SigningKey(env: Option<string>): (k: string)
    ensures k != ""
    ensures env.Some? && env.value != "" ==> k == env.value
    ensures !Truthy(env) ==> k == DefaultSigningKey
  {
    OrElse(env, DefaultSigningKey)
  }

  /** `JSON.stringify` of one character inside a string literal. */
  function EscapeChar(c: char): string {
    if c == '"' then "\\\""
    else if c == '\\' then "\\\\"
    else if c == '\U{0008}' then "\\b"
    else if c == '\U{000C}' then "\\f"
    else if c == '\n' then "\\n"
    else if c == '\r' then "\\r"
    else if c == '\t' then "\\t"
    else if (c as int) < 0x20 then "\\u00" + [NibbleChar(c as int / 16), NibbleChar(c as int % 16)]
    else [c]
  }

  function Escape(s: string): string {
    if s == [] then [] else EscapeChar(s[0]) + Escape(s[1..])
  }

  /** `"key" + JSON string of x + rest`, one member of the serialised object;
      `key` carries the opening quote of the value. */
  function Member(key: string, x: string, rest: string): string {
    key + Escape(x) + "\"" + rest
  }

  /** `JSON.stringify({ c, u, g, t })`, the message the signature is computed over. */
  function SignaturePayload(d: RegistrationData): string {
    Member("{\"c\":\"", d.companyName,
      Member(",\"u\":\"", d.userId,
        Member(",\"g\":\"", d.guardianName,
          ",\"t\":" + Decimal(d.timestamp) + "}")))
  }

  /** Reads a JSON string body up to its closing quote: the decoded text and
      what follows the quote. */
  function Unescape(s: string): Option<(string, string)>
    decreases |s|
  {
    if s == [] then None
    else if s[0] == '"' then Some(([], s[1..]))
    else if s[0] != '\\' then
      match Unescape(s[1..])
      case None => None
      case Some(p) => Some(([s[0]] + p.0, p.1))
    else if |s| < 2 then None
    else
      var e := s[1];
      var simple :=
        if e == '"' then Some('"') else if e == '\\' then Some('\\')
        else if e == 'b' then Some('\U{0008}') else if e == 'f' then Some('\U{000C}')
        else if e == 'n' then Some('\n') else if e == 'r' then Some('\r')
        else if e == 't' then Some('\t') else None;
      if simple.Some? then
        match Unescape(s[2..])
        case None => None
        case Some(p) => Some(([simple.value] + p.0, p.1))
      else if e == 'u' && |s| >= 6 && s[2] == '0' && s[3] == '0'
              && IsLowerHexDigit(s[4]) && IsLowerHexDigit(s[5]) && NibbleValue(s[4]) < 2 then
        match Unescape(s[6..])
        case None => None
        case Some(p) => Some(([(NibbleValue(s[4]) * 16 + NibbleValue(s[5])) as char] + p.0, p.1))
      else None
  }

  lemma NibbleRoundTrip(n: nat)
    requires n < 16
    ensures NibbleValue(NibbleChar(n)) == n
  {
  }

  /** A control character without a short escape is written `\u00XX` and read back. */
  lemma UnescapeControl(c: char, tail: string)
    requires (c as int) < 0x20
    requires c != '\U{0008}' && c != '\U{000C}' && c != '\n' && c != '\r' && c != '\t'
    ensures EscapeChar(c) == "\\u00" + [NibbleChar(c as int / 16), NibbleChar(c as int % 16)]
    ensures var s := EscapeChar(c) + tail;
      |s| >= 6 && s[0] == '\\' && s[1] == 'u' && s[2] == '0' && s[3] == '0'
      && IsLowerHexDigit(s[4]) && IsLowerHexDigit(s[5]) && NibbleValue(s[4]) < 2
      && (NibbleValue(s[4]) * 16 + NibbleValue(s[5])) as char == c
      && s[6..] == tail
  {
    var v := c as int;
    NibbleRoundTrip(v / 16);
    NibbleRoundTrip(v % 16);
    var s := EscapeChar(c) + tail;
    assert s[6..] == tail;
  }

  /** A character written as itself is read back as itself. */
  lemma UnescapePlain(c: char, tail: string)
    requires (c as int) >= 0x20 && c != '"' && c != '\\'
    ensures Unescape(EscapeChar(c) + tail) == match Unescape(tail)
      case None => None
      case Some(p) => Some(([c] + p.0, p.1))
  {
    var s := EscapeChar(c) + tail;
    assert EscapeChar(c) == [c];
    assert s[0] == c && s[1..] == tail;
  }

  /** A character with a two-character escape is read back from it. */
  lemma UnescapeShort(c: char, tail: string)
    requires c == '"' || c == '\\' || c == '\U{0008}' || c == '\U{000C}' || c == '\n' || c == '\r' || c == '\t'
    ensures Unescape(EscapeChar(c) + tail) == match Unescape(tail)
      case None => None
      case Some(p) => Some(([c] + p.0, p.1))
  {
    var s := EscapeChar(c) + tail;
    assert |EscapeChar(c)| == 2 && EscapeChar(c)[0] == '\\';
    assert s[0] == '\\' && s[2..] == tail;
  }

  /** A control character is read back from its `\u00XX` escape. */
  lemma UnescapeLong(c: char, tail: string)
    requires (c as int) < 0x20
    requires c != '\U{0008}' && c != '\U{000C}' && c != '\n' && c != '\r' && c != '\t'
    ensures Unescape(EscapeChar(c) + tail) == match Unescape(tail)
      case None => None
      case Some(p) => Some(([c] + p.0, p.1))
  {
    UnescapeControl(c, tail);
  }

  /** Every character is read back from its escape. */
  lemma UnescapeOne(c: char, tail: string)
    ensures Unescape(EscapeChar(c) + tail) == match Unescape(tail)
      case None => None
      case Some(p) => Some(([c] + p.0, p.1))
  {
    if c == '"' || c == '\\' || c == '\U{0008}' || c == '\U{000C}' || c == '\n' || c == '\r' || c == '\t' {
      UnescapeShort(c, tail);
    } else if (c as int) < 0x20 {
      UnescapeLong(c, tail);
    } else {
      UnescapePlain(c, tail);
    }
  }

  lemma {:induction false} UnescapeEscape(x: string, rest: string)
    ensures Unescape(Escape(x) + "\"" + rest) == Some((x, rest))
  {
    if x == [] {
      assert Escape(x) + "\"" + rest == "\"" + rest;
    } else {
      var c := x[0];
      var tail := Escape(x[1..]) + "\"" + rest;
      UnescapeEscape(x[1..], rest);
      assert Unescape(tail) == Some((x[1..], rest));
      calc {
        Escape(x) + "\"" + rest;
        (EscapeChar(c) + Escape(x[1..])) + "\"" + rest;
        EscapeChar(c) + tail;
      }
      UnescapeOne(c, tail);
      assert [c] + x[1..] == x;
    }
  }

  /** Splits off the longest prefix of decimal digits. */
  function TakeDigits(s: string): (r: (string, string))
    ensures AllDigits(r.0) && r.0 + r.1 == s
  {
    if s == [] || !IsDigit(s[0]) then ([], s)
    else var p := TakeDigits(s[1..]); ([s[0]] + p.0, p.1)
  }

  lemma {:induction false} TakeDigitsOf(digits: string, rest: string)
    requires AllDigits(digits)
    requires rest == [] || !IsDigit(rest[0])
    ensures TakeDigits(digits + rest) == (digits, rest)
  {
    if digits == [] {
      assert digits + rest == rest;
    } else {
      assert (digits + rest)[1..] == digits[1..] + rest;
      TakeDigitsOf(digits[1..], rest);
      assert [digits[0]] + digits[1..] == digits;
    }
  }

  /** Reads a `key` and the JSON string after it: the decoded text and what
      follows its closing quote. */
  function ParseField(key: string, p: string): Option<(string, string)> {
    if StartsWith(p, key) then Unescape(p[|key|..]) else None
  }

  /** Reads the closing `,"t":<digits>}` of the payload. */
  function ParseTimestamp(p: string): Option<nat> {
    var key := ",\"t\":";
    if !StartsWith(p, key) then None
    else
      var t := TakeDigits(p[|key|..]);
      if t.0 == [] || t.1 != "}" then None else Some(DigitsValue(t.0))
  }

  /** Reads `{"c":…,"u":…,"g":…,"t":…}` back into registration data. */
  function ParsePayload(p: string): Option<RegistrationData> {
    match ParseField("{\"c\":\"", p)
    case None => None
    case Some(c) =>
      match ParseField(",\"u\":\"", c.1)
      case None => None
      case Some(u) =>
        match ParseField(",\"g\":\"", u.1)
        case None => None
        case Some(g) =>
          match ParseTimestamp(g.1)
          case None => None
          case Some(t) => Some(RegistrationData(c.0, u.0, g.0, t))
  }

  lemma ParseFieldOf(key: string, x: string, rest: string)
    ensures ParseField(key, Member(key, x, rest)) == Some((x, rest))
  {
    var p := Member(key, x, rest);
    assert p[|key|..] == Escape(x) + "\"" + rest;
    UnescapeEscape(x, rest);
  }

  lemma ParseTimestampOf(n: nat)
    ensures ParseTimestamp(",\"t\":" + Decimal(n) + "}") == Some(n)
  {
    var key := ",\"t\":";
    var p := key + Decimal(n) + "}";
    assert p[|key|..] == Decimal(n) + "}";
    TakeDigitsOf(Decimal(n), "}");
    DecimalRoundTrip(n);
  }

  /** The signed message determines all four fields: reading it back gives
      the registration data, so no two registrations share a message. */
  lemma PayloadRoundTrip(d: RegistrationData)
    ensures ParsePayload(SignaturePayload(d)) == Some(d)
  {
    var k1, k2, k3, k4 := "{\"c\":\"", ",\"u\":\"", ",\"g\":\"", ",\"t\":";
    var rest3 := k4 + Decimal(d.timestamp) + "}";
    var rest2 := Member(k3, d.guardianName, rest3);
    var rest1 := Member(k2, d.userId, rest2);
    ParseFieldOf(k1, d.companyName, rest1);
    ParseFieldOf(k2, d.userId, rest2);
    ParseFieldOf(k3, d.guardianName, rest3);
    ParseTimestampOf(d.timestamp);
  }

  lemma PayloadInjective(d1: RegistrationData, d2: RegistrationData)
    ensures SignaturePayload(d1) == SignaturePayload(d2) ==> d1 == d2
  {
    PayloadRoundTrip(d1);
    PayloadRoundTrip(d2);
  }

  /** `createRegistrationSignature` */
  function CreateRegistrationSignature(d: RegistrationData, env: Option<string>, hmac: Hmac): Sha256Hex {
    hmac(SigningKey(env), SignaturePayload(d))
  }

  const BufferLengthError: string := "Input buffers must have the same byte length"

  /** `verifyRegistrationSignature`: `timingSafeEqual` on the UTF-8 bytes of
      both signatures, which throws when their byte lengths differ. */
  function VerifyRegistrationSignature(d: RegistrationData, signature: string, env: Option<string>, hmac: Hmac): (r: Result<bool, string>)
    ensures r.Err? <==> |Utf8(signature)| != 64
    ensures r == Ok(true) <==> signature == CreateRegistrationSignature(d, env, hmac)
  {
    var expected := CreateRegistrationSignature(d, env, hmac);
    LowerHexIsAscii(expected);
    Utf8OfAscii(expected);
    Utf8MatchesAsciiOnlyItself(signature, expected);
    if |Utf8(signature)| != |Utf8(expected)| then Err(BufferLengthError)
    else Ok(Utf8(signature) == Utf8(expected))
  }

  /** A freshly created signature verifies against the same data and key. */
  lemma SignatureRoundTrip(d: RegistrationData, env: Option<string>, hmac: Hmac)
    ensures VerifyRegistrationSignature(d, CreateRegistrationSignature(d, env, hmac), env, hmac) == Ok(true)
  {
  }

  // ---------------------------------------------------------------------------
  // generateVerificationToken
  // ---------------------------------------------------------------------------

  /** `randomBytes(32).toString('hex')`: 64 lowercase hex digits that encode
      the random bytes without loss. */
  function GenerateVerificationToken(random: Bytes32): (t: string)
    ensures |t| == 64 && AllLowerHex(t)
    ensures HexDecode(t) == random
  {
    HexRoundTrip(random);
    HexEncode(random)
  }
}
