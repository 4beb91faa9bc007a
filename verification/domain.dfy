/** The badge domain check `/^[a-z0-9]+([\-\.]{1}[a-z0-9]+)*\.[a-z]{2,}$/i`,
    as a finite automaton, shown equal to a declarative description of the
    strings it accepts. */
module Domain {
  import opened Text

  predicate IsDomainSeparator(c: char) { c == '-' || c == '.' }

  /** `[a-z0-9]+([\-\.]{1}[a-z0-9]+)*` under the `i` flag: alphanumeric runs
      joined by single hyphens or dots, with no separator at either end and
      no two separators side by side. */
  predicate WellSeparated(w: string) {
    && |w| > 0 && IsAsciiAlnum(w[0]) && IsAsciiAlnum(w[|w| - 1])
    && (forall i :: 0 <= i < |w| ==> IsAsciiAlnum(w[i]) || IsDomainSeparator(w[i]))
    && (forall i :: 0 < i < |w| ==> IsAsciiAlnum(w[i - 1]) || IsAsciiAlnum(w[i]))
  }

  predicate AllLetters(s: string) { forall i :: 0 <= i < |s| ==> IsAsciiLetter(s[i]) }

  /** Position `i` holds the dot of `\.[a-z]+$`, after a well-separated name. */
  predicate TopLevelDot(s: string, i: int) {
    0 <= i < |s| && s[i] == '.' && WellSeparated(s[..i]) && AllLetters(s[i + 1..])
  }

  /** What the pattern accepts: a well-separated name, a dot, then at least
      two letters to the end. */
  ghost predicate DomainShape(s: string) {
    exists i :: TopLevelDot(s, i) && |s| - i >= 3
  }

  /** States of the automaton. `Label` is inside a run that cannot yet end
      the name; `OneLetter` and `Letters` are inside a run of letters right
      after a dot. */
  datatype State = Start | Label | AfterHyphen | AfterDot | OneLetter | Letters | Dead

  function Step(q: State, c: char): State {
    match q
    case Start => if IsAsciiAlnum(c) then Label else Dead
    case AfterHyphen => if IsAsciiAlnum(c) then Label else Dead
    case AfterDot => if IsAsciiLetter(c) then OneLetter else if IsDigit(c) then Label else Dead
    case Dead => Dead
    case _ =>
      if IsAsciiLetter(c) then (if q == Label then Label else Letters)
      else if IsDigit(c) then Label
      else if c == '-' then AfterHyphen
      else if c == '.' then AfterDot
      else Dead
  }

  function Run(s: string): State {
    if s == [] then Start else Step(Run(s[..|s| - 1]), s[|s| - 1])
  }

  /** The domain check of the badge route. */
  predicate IsValidDomain(s: string) { Run(s) == Letters }

  lemma RunSnoc(y: string, c: char)
    ensures Run(y + [c]) == Step(Run(y), c)
  {
    assert (y + [c])[..|y|] == y;
  }

  // ---------------------------------------------------------------------------
  // Every state reached means what its name says
  // ---------------------------------------------------------------------------

  ghost predicate StateMeaning(q: State, w: string) {
    match q
    case Start => w == []
    case Label => WellSeparated(w)
    case AfterHyphen => |w| > 0 && w[|w| - 1] == '-' && WellSeparated(w[..|w| - 1])
    case AfterDot => |w| > 0 && w[|w| - 1] == '.' && WellSeparated(w[..|w| - 1])
    case OneLetter => WellSeparated(w) && TopLevelDot(w, |w| - 2)
    case Letters => WellSeparated(w) && DomainShape(w)
    case Dead => true
  }

  lemma ExtendName(y: string, c: char)
    requires WellSeparated(y) && IsAsciiAlnum(c)
    ensures WellSeparated(y + [c])
  {
    var w := y + [c];
    assert forall i :: 0 <= i < |y| ==> w[i] == y[i];
  }

  lemma ResumeName(y: string, c: char)
    requires |y| > 0 && IsDomainSeparator(y[|y| - 1]) && WellSeparated(y[..|y| - 1])
    requires IsAsciiAlnum(c)
    ensures WellSeparated(y + [c])
  {
    var w := y + [c];
    var z := y[..|y| - 1];
    assert forall i :: 0 <= i < |z| ==> w[i] == z[i];
  }

  lemma ExtendLetters(y: string, i: int, c: char)
    requires TopLevelDot(y, i) && IsAsciiLetter(c)
    ensures TopLevelDot(y + [c], i)
  {
    var w := y + [c];
    assert w[..i] == y[..i];
    assert w[i + 1..] == y[i + 1..] + [c];
  }

  lemma FirstLetter(y: string, c: char)
    requires |y| > 0 && y[|y| - 1] == '.' && WellSeparated(y[..|y| - 1])
    requires IsAsciiLetter(c)
    ensures TopLevelDot(y + [c], |y| - 1)
  {
    var w := y + [c];
    assert w[..|y| - 1] == y[..|y| - 1];
    assert w[|y|..] == [c];
  }

  /** One step of the automaton keeps the meaning of its state. */
  lemma StepMeaning(q: State, y: string, c: char)
    requires StateMeaning(q, y)
    ensures StateMeaning(Step(q, c), y + [c])
  {
    var w := y + [c];
    assert w[..|w| - 1] == y;
    match q
    case Start =>
      assert IsAsciiAlnum(c) ==> WellSeparated(w);
    case AfterHyphen =>
      if IsAsciiAlnum(c) { ResumeName(y, c); }
    case AfterDot =>
      if IsAsciiAlnum(c) { ResumeName(y, c); }
      if IsAsciiLetter(c) { FirstLetter(y, c); }
    case Dead =>
    case Label =>
      if IsAsciiAlnum(c) { ExtendName(y, c); }
    case OneLetter =>
      if IsAsciiAlnum(c) { ExtendName(y, c); }
      if IsAsciiLetter(c) { ExtendLetters(y, |y| - 2, c); }
    case Letters =>
      if IsAsciiAlnum(c) { ExtendName(y, c); }
      if IsAsciiLetter(c) {
        var i :| TopLevelDot(y, i) && |y| - i >= 3;
        ExtendLetters(y, i, c);
      }
  }

  lemma {:induction false} RunMeaning(w: string)
    ensures StateMeaning(Run(w), w)
  {
    if w != [] {
      var y := w[..|w| - 1];
      var c := w[|w| - 1];
      assert w == y + [c];
      RunMeaning(y);
      RunSnoc(y, c);
      StepMeaning(Run(y), y, c);
    }
  }

  // ---------------------------------------------------------------------------
  // Every string of the described shape drives the automaton to `Letters`
  // ---------------------------------------------------------------------------

  predicate InName(q: State) { q == Label || q == OneLetter || q == Letters }

  lemma {:induction false} WellSeparatedRuns(w: string)
    requires WellSeparated(w)
    ensures InName(Run(w))
    decreases |w|
  {
    var y := w[..|w| - 1];
    var c := w[|w| - 1];
    assert w == y + [c];
    RunSnoc(y, c);
    if y == [] {
    } else if IsAsciiAlnum(y[|y| - 1]) {
      assert WellSeparated(y);
      WellSeparatedRuns(y);
    } else {
      var z := y[..|y| - 1];
      assert IsAsciiAlnum(w[|w| - 3]);
      assert WellSeparated(z);
      WellSeparatedRuns(z);
      assert y == z + [y[|y| - 1]];
      RunSnoc(z, y[|y| - 1]);
    }
  }

  lemma {:induction false} LettersAfterDot(x: string, t: string)
    requires Run(x) == AfterDot && |t| > 0 && AllLetters(t)
    ensures Run(x + t) == if |t| == 1 then OneLetter else Letters
    decreases |t|
  {
    var u := t[..|t| - 1];
    assert x + t == (x + u) + [t[|t| - 1]];
    RunSnoc(x + u, t[|t| - 1]);
    if |u| == 0 {
      assert x + u == x;
    } else {
      LettersAfterDot(x, u);
    }
  }

  lemma ShapeAccepted(s: string, i: int)
    requires TopLevelDot(s, i) && |s| - i >= 3
    ensures IsValidDomain(s)
  {
    var p := s[..i];
    WellSeparatedRuns(p);
    RunSnoc(p, '.');
    var t := s[i + 1..];
    assert s == (p + ['.']) + t;
    LettersAfterDot(p + ['.'], t);
  }

  /** The automaton accepts exactly the described shape. */
  lemma DomainPattern(s: string)
    ensures IsValidDomain(s) <==> DomainShape(s)
  {
    RunMeaning(s);
    if DomainShape(s) {
      var i :| TopLevelDot(s, i) && |s| - i >= 3;
      ShapeAccepted(s, i);
    }
  }

  /** The pattern is case-insensitive: lower-casing a domain, as the badge
      route does before signing it, does not change the verdict. */
  lemma {:induction false} LowerKeepsVerdict(s: string)
    ensures Run(Lower(s)) == Run(s)
  {
    if s != [] {
      var n := |s| - 1;
      assert Lower(s)[..n] == Lower(s[..n]);
      LowerKeepsVerdict(s[..n]);
    }
  }
}
