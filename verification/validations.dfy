/** The registration and login schemas of the validation library, as field
    rules over strings. String lengths are JavaScript lengths (UTF-16 code
    units); zod's e-mail check is a parameter. */
module Validations {
  import opened Common
  import opened Text

  /** zod's `.email()` test, left abstract. */
  type EmailCheck = string -> bool

  // ---------------------------------------------------------------------------
  // Phone: /^[\+]?[(]?[0-9]{3}[)]?[-\s\.]?[0-9]{3}[-\s\.]?[0-9]{4,6}$/
  // ---------------------------------------------------------------------------

  /** `[-\s\.]` */
  predicate IsPhoneSeparator(c: char) { c == '-' || c == '.' || IsJsWhitespace(c) }

  /** One way of writing a phone number the pattern accepts, piece by piece. */
  datatype PhoneParts = PhoneParts(
    plus: bool, open: bool, area: string, close: bool,
    sep1: Option<char>, exchange: string, sep2: Option<char>, line: string)

  /** The pieces from the second separator on: an optional separator, then
      4 to 6 digits. */
  predicate LineOk(p: PhoneParts) {
    (p.sep2.Some? ==> IsPhoneSeparator(p.sep2.value)) && 4 <= |p.line| <= 6 && AllDigits(p.line)
  }

  predicate ExchangeOk(p: PhoneParts) {
    (p.sep1.Some? ==> IsPhoneSeparator(p.sep1.value)) && |p.exchange| == 3 && AllDigits(p.exchange)
    && LineOk(p)
  }

  predicate WellFormedParts(p: PhoneParts) {
    |p.area| == 3 && AllDigits(p.area) && ExchangeOk(p)
  }

  function Optional(present: bool, c: char): string {
    if present then [c] else []
  }

  function OptionalSeparator(sep: Option<char>): string {
    if sep.Some? then [sep.value] else []
  }

  function RenderLine(p: PhoneParts): string {
    OptionalSeparator(p.sep2) + p.line
  }

  function RenderExchange(p: PhoneParts): string {
    OptionalSeparator(p.sep1) + (p.exchange + RenderLine(p))
  }

  function RenderArea(p: PhoneParts): string {
    p.area + (Optional(p.close, ')') + RenderExchange(p))
  }

  /** The string the pieces spell, in the pattern's order. */
  function Render(p: PhoneParts): string {
    Optional(p.plus, '+') + (Optional(p.open, '(') + RenderArea(p))
  }

  function TakeOptional(s: string, c: char): (r: (bool, string))
    ensures s == Optional(r.0, c) + r.1
  {
    if |s| > 0 && s[0] == c then (true, s[1..]) else (false, s)
  }

  function TakeSeparator(s: string): (r: (Option<char>, string))
    ensures s == OptionalSeparator(r.0) + r.1
    ensures r.0.Some? ==> IsPhoneSeparator(r.0.value)
  {
    if |s| > 0 && IsPhoneSeparator(s[0]) then (Some(s[0]), s[1..]) else (None, s)
  }

  /** Matches the rest of the pattern after the exchange, filling in the last
      two pieces of `p`. */
  function ParseLine(p: PhoneParts, s: string): Option<PhoneParts> {
    var (sep2, line) := TakeSeparator(s);
    if 4 <= |line| <= 6 && AllDigits(line) then Some(p.(sep2 := sep2, line := line)) else None
  }

  function ParseExchange(p: PhoneParts, s: string): Option<PhoneParts> {
    var (sep1, rest) := TakeSeparator(s);
    if |rest| < 3 || !AllDigits(rest[..3]) then None
    else ParseLine(p.(sep1 := sep1, exchange := rest[..3]), rest[3..])
  }

  function ParseArea(p: PhoneParts, s: string): Option<PhoneParts> {
    if |s| < 3 || !AllDigits(s[..3]) then None
    else
      var (close, rest) := TakeOptional(s[3..], ')');
      ParseExchange(p.(area := s[..3], close := close), rest)
  }

  /** Matches the pattern left to right. Each optional character belongs to a
      class that the next mandatory piece cannot start with, so taking it
      whenever it is there never loses a match. */
  function ParsePhone(s: string): Option<PhoneParts> {
    var (plus, s1) := TakeOptional(s, '+');
    var (open, s2) := TakeOptional(s1, '(');
    ParseArea(PhoneParts(plus, open, "", false, None, "", None, ""), s2)
  }

  /** The phone rule of the schema. */
  predicate IsValidPhone(s: string) { ParsePhone(s).Some? }

  lemma TakeOptionalOf(present: bool, c: char, rest: string)
    requires rest == [] || rest[0] != c
    ensures TakeOptional(Optional(present, c) + rest, c) == (present, rest)
  {
    if present {
      assert (Optional(present, c) + rest)[1..] == rest;
    } else {
      assert Optional(present, c) + rest == rest;
    }
  }

  lemma TakeSeparatorOf(sep: Option<char>, rest: string)
    requires sep.Some? ==> IsPhoneSeparator(sep.value)
    requires rest == [] || !IsPhoneSeparator(rest[0])
    ensures TakeSeparator(OptionalSeparator(sep) + rest) == (sep, rest)
  {
    if sep.Some? {
      assert (OptionalSeparator(sep) + rest)[1..] == rest;
    } else {
      assert OptionalSeparator(sep) + rest == rest;
    }
  }

  lemma ParseLineOf(p: PhoneParts, q: PhoneParts)
    requires LineOk(q)
    ensures ParseLine(p, RenderLine(q)) == Some(p.(sep2 := q.sep2, line := q.line))
  {
    assert IsDigit(q.line[0]);
    TakeSeparatorOf(q.sep2, q.line);
  }

  lemma ParseExchangeOf(p: PhoneParts, q: PhoneParts)
    requires ExchangeOk(q)
    ensures ParseExchange(p, RenderExchange(q))
         == Some(p.(sep1 := q.sep1, exchange := q.exchange, sep2 := q.sep2, line := q.line))
  {
    var rest := q.exchange + RenderLine(q);
    assert IsDigit(q.exchange[0]) && rest[0] == q.exchange[0];
    TakeSeparatorOf(q.sep1, rest);
    assert rest[..3] == q.exchange && rest[3..] == RenderLine(q);
    ParseLineOf(p.(sep1 := q.sep1, exchange := q.exchange), q);
  }

  lemma ParseAreaOf(p: PhoneParts, q: PhoneParts)
    requires WellFormedParts(q)
    ensures ParseArea(p, RenderArea(q)) == Some(q.(plus := p.plus, open := p.open))
  {
    var s := RenderArea(q);
    var e := RenderExchange(q);
    assert s[..3] == q.area && s[3..] == Optional(q.close, ')') + e;
    assert IsDigit(q.exchange[0]);
    if q.sep1.Some? {
      assert e[0] == q.sep1.value;
    } else {
      assert e[0] == q.exchange[0];
    }
    TakeOptionalOf(q.close, ')', e);
    ParseExchangeOf(p.(area := q.area, close := q.close), q);
  }

  /** Every well-formed way of writing a number is accepted, and read back as
      the same pieces. */
  lemma ParseRender(p: PhoneParts)
    requires WellFormedParts(p)
    ensures ParsePhone(Render(p)) == Some(p)
  {
    var a := RenderArea(p);
    var t := Optional(p.open, '(') + a;
    assert IsDigit(p.area[0]) && a[0] == p.area[0];
    assert t[0] == '(' || t[0] == p.area[0];
    TakeOptionalOf(p.plus, '+', t);
    TakeOptionalOf(p.open, '(', a);
    ParseAreaOf(PhoneParts(p.plus, p.open, "", false, None, "", None, ""), p);
  }

  lemma ParseLineSome(p: PhoneParts, s: string)
    requires ParseLine(p, s).Some?
    ensures LineOk(ParseLine(p, s).value) && RenderLine(ParseLine(p, s).value) == s
    ensures ParseLine(p, s).value.(sep2 := p.sep2, line := p.line) == p
  {
  }

  lemma ParseExchangeSome(p: PhoneParts, s: string)
    requires ParseExchange(p, s).Some?
    ensures ExchangeOk(ParseExchange(p, s).value) && RenderExchange(ParseExchange(p, s).value) == s
    ensures ParseExchange(p, s).value.(sep1 := p.sep1, exchange := p.exchange, sep2 := p.sep2, line := p.line) == p
  {
    var t := TakeSeparator(s);
    var rest := t.1;
    var p1 := p.(sep1 := t.0, exchange := rest[..3]);
    var q := ParseLine(p1, rest[3..]);
    assert ParseExchange(p, s) == q;
    ParseLineSome(p1, rest[3..]);
    var v := q.value;
    assert v.sep1 == t.0 && v.exchange == rest[..3] && |rest[..3]| == 3 && AllDigits(rest[..3]);
    assert v.(sep2 := p.sep2, line := p.line) == p1;
    calc {
      RenderExchange(v);
      OptionalSeparator(t.0) + (rest[..3] + rest[3..]);
      { assert rest[..3] + rest[3..] == rest; }
      s;
    }
  }

  lemma ParseAreaSome(p: PhoneParts, s: string)
    requires ParseArea(p, s).Some?
    ensures WellFormedParts(ParseArea(p, s).value) && RenderArea(ParseArea(p, s).value) == s
    ensures ParseArea(p, s).value.plus == p.plus && ParseArea(p, s).value.open == p.open
  {
    var (close, rest) := TakeOptional(s[3..], ')');
    var p1 := p.(area := s[..3], close := close);
    ParseExchangeSome(p1, rest);
    assert s == s[..3] + s[3..];
  }

  /** Whatever is accepted is a well-formed writing of some number. */
  lemma RenderParse(s: string)
    requires IsValidPhone(s)
    ensures WellFormedParts(ParsePhone(s).value) && Render(ParsePhone(s).value) == s
  {
    var (plus, s1) := TakeOptional(s, '+');
    var (open, s2) := TakeOptional(s1, '(');
    ParseAreaSome(PhoneParts(plus, open, "", false, None, "", None, ""), s2);
  }

  /** The phone rule accepts exactly the strings spelled by well-formed pieces. */
  lemma PhoneLanguage(s: string)
    ensures IsValidPhone(s) <==> exists p :: WellFormedParts(p) && Render(p) == s
  {
    if IsValidPhone(s) {
      RenderParse(s);
    }
    if p :| WellFormedParts(p) && Render(p) == s {
      ParseRender(p);
    }
  }

  function CountDigits(s: string): nat {
    if s == [] then 0 else (if IsDigit(s[0]) then 1 else 0) + CountDigits(s[1..])
  }

  lemma {:induction false} CountDigitsAppend(a: string, b: string)
    ensures CountDigits(a + b) == CountDigits(a) + CountDigits(b)
  {
    if a != [] {
      assert (a + b)[0] == a[0];
      assert (a + b)[1..] == a[1..] + b;
      CountDigitsAppend(a[1..], b);
    } else {
      assert a + b == b;
    }
  }

  lemma {:induction false} CountDigitsAll(s: string)
    requires AllDigits(s)
    ensures CountDigits(s) == |s|
  {
    if s != [] {
      CountDigitsAll(s[1..]);
    }
  }

  lemma CountDigitsOptional(present: bool, c: char)
    requires !IsDigit(c)
    ensures CountDigits(Optional(present, c)) == 0
  {
  }

  lemma CountDigitsSeparator(sep: Option<char>)
    requires sep.Some? ==> IsPhoneSeparator(sep.value)
    ensures CountDigits(OptionalSeparator(sep)) == 0
  {
  }

  /** A well-formed writing holds between 10 and 12 digits. */
  lemma RenderDigitCount(p: PhoneParts)
    requires WellFormedParts(p)
    ensures CountDigits(Render(p)) == 6 + |p.line|
  {
    CountDigitsSeparator(p.sep2);
    CountDigitsAppend(OptionalSeparator(p.sep2), p.line);
    CountDigitsAll(p.line);
    CountDigitsAppend(p.exchange, RenderLine(p));
    CountDigitsAll(p.exchange);
    CountDigitsSeparator(p.sep1);
    CountDigitsAppend(OptionalSeparator(p.sep1), p.exchange + RenderLine(p));
    CountDigitsOptional(p.close, ')');
    CountDigitsAppend(Optional(p.close, ')'), RenderExchange(p));
    CountDigitsAll(p.area);
    CountDigitsAppend(p.area, Optional(p.close, ')') + RenderExchange(p));
    CountDigitsOptional(p.open, '(');
    CountDigitsAppend(Optional(p.open, '('), RenderArea(p));
    CountDigitsOptional(p.plus, '+');
    CountDigitsAppend(Optional(p.plus, '+'), Optional(p.open, '(') + RenderArea(p));
  }

  /** An accepted phone number holds between 10 and 12 digits. */
  lemma PhoneDigitCount(s: string)
    requires IsValidPhone(s)
    ensures 10 <= CountDigits(s) <= 12
  {
    RenderParse(s);
    RenderDigitCount(ParsePhone(s).value);
  }

  // ---------------------------------------------------------------------------
  // Password
  // ---------------------------------------------------------------------------

  predicate HasUpper(s: string) { exists i :: 0 <= i < |s| && IsAsciiUpper(s[i]) }
  predicate HasLower(s: string) { exists i :: 0 <= i < |s| && IsAsciiLower(s[i]) }
  predicate HasDigit(s: string) { exists i :: 0 <= i < |s| && IsDigit(s[i]) }

  // ---------------------------------------------------------------------------
  // registrationSchema
  // ---------------------------------------------------------------------------

  /** The object `registrationSchema` parses. */
  datatype RegistrationForm = RegistrationForm(
    name: string, age: real, address: string, phone: string,
    parentName: string, parentEmail: string, companyName: string,
    description: Option<string>, email: string, password: string)

  /** The schema's keys, in declaration order. */
  datatype Field = Name | Age | Address | Phone | ParentName | ParentEmail
                 | CompanyName | Description | Email | Password

  const Fields: seq<Field> := [Name, Age, Address, Phone, ParentName, ParentEmail,
                               CompanyName, Description, Email, Password]

  datatype Issue = Issue(field: Field, message: string)

  predicate LengthWithin(s: string, min: nat, max: nat) { min <= JsLength(s) <= max }

  /** The rule each field must satisfy. */
  predicate FieldOk(f: RegistrationForm, field: Field, isEmail: EmailCheck) {
    match field
    case Name => LengthWithin(f.name, 2, 100)
    case Age => 13.0 <= f.age <= 17.0
    case Address => LengthWithin(f.address, 10, 500)
    case Phone => IsValidPhone(f.phone)
    case ParentName => LengthWithin(f.parentName, 2, 100)
    case ParentEmail => isEmail(f.parentEmail)
    case CompanyName => LengthWithin(f.companyName, 2, 100)
    case Description => f.description.None? || JsLength(f.description.value) <= 1000
    case Email => isEmail(f.email)
    case Password =>
      JsLength(f.password) >= 8 && HasUpper(f.password) && HasLower(f.password) && HasDigit(f.password)
  }

  predicate RegistrationAccepted(f: RegistrationForm, isEmail: EmailCheck) {
    forall field :: FieldOk(f, field, isEmail)
  }

  function Check(failed: bool, field: Field, message: string): (r: seq<Issue>)
    ensures r == [] <==> !failed
    ensures forall i :: 0 <= i < |r| ==> r[i].field == field
  {
    if failed then [Issue(field, message)] else []
  }

  /** A string's `.min(min, ...)` and `.max(max, ...)` checks, in that order. */
  function LengthIssues(s: string, min: nat, max: nat, field: Field, short: string, long: string): (r: seq<Issue>)
    ensures r == [] <==> LengthWithin(s, min, max)
    ensures forall i :: 0 <= i < |r| ==> r[i].field == field
  {
    Check(JsLength(s) < min, field, short) + Check(JsLength(s) > max, field, long)
  }

  /** The password's four checks, in declaration order. */
  function PasswordIssues(p: string): (r: seq<Issue>)
    ensures r == [] <==> JsLength(p) >= 8 && HasUpper(p) && HasLower(p) && HasDigit(p)
    ensures forall i :: 0 <= i < |r| ==> r[i].field == Password
  {
    var a := Check(JsLength(p) < 8, Password, "Password must be at least 8 characters");
    var b := Check(!HasUpper(p), Password, "Password must contain an uppercase letter");
    var c := Check(!HasLower(p), Password, "Password must contain a lowercase letter");
    var d := Check(!HasDigit(p), Password, "Password must contain a number");
    assert a + b + c + d == [] <==> a == [] && b == [] && c == [] && d == [];
    a + b + c + d
  }

  /** The issues zod reports for one field, each check in declaration order. */
  function FieldIssues(f: RegistrationForm, field: Field, isEmail: EmailCheck): (r: seq<Issue>)
    ensures forall i :: 0 <= i < |r| ==> r[i].field == field
    ensures r == [] <==> FieldOk(f, field, isEmail)
  {
    match field
    case Name =>
      LengthIssues(f.name, 2, 100, Name, "Name must be at least 2 characters", "Name too long")
    case Age =>
      Check(f.age < 13.0, Age, "You must be at least 13 years old")
      + Check(f.age > 17.0, Age, "This service is for users under 18")
    case Address =>
      LengthIssues(f.address, 10, 500, Address, "Please enter your full address", "Address too long")
    case Phone =>
      Check(!IsValidPhone(f.phone), Phone, "Invalid phone number")
    case ParentName =>
      LengthIssues(f.parentName, 2, 100, ParentName, "Parent name is required", "Name too long")
    case ParentEmail =>
      Check(!isEmail(f.parentEmail), ParentEmail, "Please enter a valid email address")
    case CompanyName =>
      LengthIssues(f.companyName, 2, 100, CompanyName,
                   "Company name must be at least 2 characters", "Company name too long")
    case Description =>
      Check(f.description.Some? && JsLength(f.description.value) > 1000, Description, "Description too long")
    case Email =>
      Check(!isEmail(f.email), Email, "Please enter a valid email")
    case Password =>
      PasswordIssues(f.password)
  }

  /** The fields a list of issues names, in order. */
  function IssueFields(r: seq<Issue>): (fields: seq<Field>)
    ensures |fields| == |r|
    ensures forall i :: 0 <= i < |r| ==> fields[i] == r[i].field
  {
    if r == [] then [] else [r[0].field] + IssueFields(r[1..])
  }

  function IssuesOf(f: RegistrationForm, fields: seq<Field>, isEmail: EmailCheck): seq<Issue> {
    if fields == [] then [] else FieldIssues(f, fields[0], isEmail) + IssuesOf(f, fields[1..], isEmail)
  }

  lemma FieldIssuesName(f: RegistrationForm, field: Field, isEmail: EmailCheck)
    ensures forall g :: g in IssueFields(FieldIssues(f, field, isEmail)) <==> g == field && !FieldOk(f, field, isEmail)
  {
    var r := FieldIssues(f, field, isEmail);
    if r != [] {
      assert IssueFields(r)[0] == field;
    }
  }

  lemma {:induction false} IssueFieldsAppend(a: seq<Issue>, b: seq<Issue>)
    ensures IssueFields(a + b) == IssueFields(a) + IssueFields(b)
  {
    var l := IssueFields(a + b);
    var r := IssueFields(a) + IssueFields(b);
    forall i | 0 <= i < |l| ensures l[i] == r[i] {
      if i < |a| { assert (a + b)[i] == a[i]; } else { assert (a + b)[i] == b[i - |a|]; }
    }
  }

  /** Checking a list of fields reports an issue for exactly the listed fields
      that break their rule. */
  lemma {:induction false} IssuesOfFields(f: RegistrationForm, fields: seq<Field>, isEmail: EmailCheck)
    ensures forall g :: g in IssueFields(IssuesOf(f, fields, isEmail)) <==> g in fields && !FieldOk(f, g, isEmail)
  {
    if fields != [] {
      var head := FieldIssues(f, fields[0], isEmail);
      var tail := IssuesOf(f, fields[1..], isEmail);
      assert IssuesOf(f, fields, isEmail) == head + tail;
      IssuesOfFields(f, fields[1..], isEmail);
      FieldIssuesName(f, fields[0], isEmail);
      IssueFieldsAppend(head, tail);
      forall g ensures g in IssueFields(head + tail) <==> g in fields && !FieldOk(f, g, isEmail) {
        assert g in fields <==> g == fields[0] || g in fields[1..];
      }
    }
  }

  /** `Fields` lists every key of the schema. */
  lemma AllFieldsListed()
    ensures forall field :: field in Fields
  {
    forall field ensures field in Fields {
      match field
      case Name => assert Fields[0] == field;
      case Age => assert Fields[1] == field;
      case Address => assert Fields[2] == field;
      case Phone => assert Fields[3] == field;
      case ParentName => assert Fields[4] == field;
      case ParentEmail => assert Fields[5] == field;
      case CompanyName => assert Fields[6] == field;
      case Description => assert Fields[7] == field;
      case Email => assert Fields[8] == field;
      case Password => assert Fields[9] == field;
    }
  }

  /** `registrationSchema.safeParse`: the issues found, in schema order. An
      issue names a field exactly when that field breaks its rule, so the
      form passes exactly when every rule holds. */
  function RegistrationIssues(f: RegistrationForm, isEmail: EmailCheck): (r: seq<Issue>)
    ensures forall field :: field in IssueFields(r) <==> !FieldOk(f, field, isEmail)
    ensures r == [] <==> RegistrationAccepted(f, isEmail)
  {
    AllFieldsListed();
    IssuesOfFields(f, Fields, isEmail);
    var r := IssuesOf(f, Fields, isEmail);
    assert r != [] ==> IssueFields(r)[0] in IssueFields(r);
    r
  }

  // ---------------------------------------------------------------------------
  // loginSchema
  // ---------------------------------------------------------------------------

  /** `loginSchema.safeParse`: a valid e-mail and a non-empty password. */
  function LoginIssues(email: string, password: string, isEmail: EmailCheck): (r: seq<Issue>)
    ensures r == [] <==> isEmail(email) && password != ""
    ensures password == "" ==> Issue(Password, "Password required") in r
  {
    Check(!isEmail(email), Email, "Invalid email")
    + Check(JsLength(password) < 1, Password, "Password required")
  }
}
