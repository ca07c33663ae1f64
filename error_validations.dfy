/** The two client-side recognisers of frontend/src/utils/errorValidations.ts.
    Each is a JavaScript regular expression anchored with `^` and `$` and
    applied with `RegExp.prototype.test`; the model gives the regular
    expressions a small interpreter and proves what each pattern accepts. */
module ErrorValidations {

  /** One character class of a pattern. `\d` without the `u` flag is the
      ASCII digits only. */
  datatype Atom = Digit | Literal(c: char) | AnyOf(ranges: seq<CharRange>)

  /** `lo-hi` inside a bracket expression; a single character `c` is `c-c`. */
  datatype CharRange = CharRange(lo: char, hi: char)

  /** A quantified atom: `a{n}` (a bare atom is `a{1}`) or `a+`. */
  datatype Piece = Times(atom: Atom, n: nat) | Plus(atom: Atom)

  predicate IsDigit(c: char) {
    '0' <= c <= '9'
  }

  predicate Accepts(a: Atom, c: char) {
    match a
    case Digit => IsDigit(c)
    case Literal(l) => c == l
    case AnyOf(rs) => InRanges(c, rs)
  }

  predicate InRanges(c: char, rs: seq<CharRange>) {
    exists i :: 0 <= i < |rs| && rs[i].lo <= c <= rs[i].hi
  }

  predicate AllAccept(a: Atom, s: string) {
    forall i :: 0 <= i < |s| ==> Accepts(a, s[i])
  }

  /** Whether the whole of `s` matches the anchored pattern `p`: the
      meaning `test` gives to `^p$`, with backtracking for `+`. */
  predicate Matches(p: seq<Piece>, s: string)
    decreases |p|, |s|, 0
  {
    if p == [] then s == []
    else match p[0]
      case Times(a, n) => n <= |s| && AllAccept(a, s[..n]) && Matches(p[1..], s[n..])
      case Plus(a) => |s| > 0 && Accepts(a, s[0]) && MatchesStar(a, p[1..], s[1..])
  }

  /** Whether `s` matches `a*` followed by `rest`. */
  predicate MatchesStar(a: Atom, rest: seq<Piece>, s: string)
    decreases |rest|, |s|, 1
  {
    Matches(rest, s) || (|s| > 0 && Accepts(a, s[0]) && MatchesStar(a, rest, s[1..]))
  }

  /** `s` splits after `k` characters into a run of `a`s and a match of `rest`. */
  predicate SplitAt(a: Atom, rest: seq<Piece>, s: string, k: int) {
    0 <= k <= |s| && AllAccept(a, s[..k]) && Matches(rest, s[k..])
  }

  /** `a*` then `rest` matches exactly when some prefix of `a`s is
      followed by a match of `rest`. */
  lemma StarSplit(a: Atom, rest: seq<Piece>, s: string)
    ensures MatchesStar(a, rest, s) <==> exists k :: SplitAt(a, rest, s, k)
  {
    if MatchesStar(a, rest, s) {
      var k := StarWitness(a, rest, s);
    }
    if exists k :: SplitAt(a, rest, s, k) {
      var k :| SplitAt(a, rest, s, k);
      StarFromSplit(a, rest, s, k);
    }
  }

  lemma {:induction false} StarWitness(a: Atom, rest: seq<Piece>, s: string) returns (k: int)
    requires MatchesStar(a, rest, s)
    ensures SplitAt(a, rest, s, k)
    decreases |s|
  {
    if Matches(rest, s) {
      assert s[..0] == [] && s[0..] == s;
      k := 0;
    } else {
      var j := StarWitness(a, rest, s[1..]);
      k := j + 1;
      assert s[..k] == [s[0]] + s[1..][..j];
      assert s[k..] == s[1..][j..];
    }
  }

  lemma {:induction false} StarFromSplit(a: Atom, rest: seq<Piece>, s: string, k: int)
    requires SplitAt(a, rest, s, k)
    ensures MatchesStar(a, rest, s)
    decreases k
  {
    if k == 0 {
      assert s[k..] == s;
    } else {
      assert Accepts(a, s[..k][0]);
      assert s[1..][..k - 1] == s[1..k];
      assert s[1..][k - 1..] == s[k..];
      var u, v := s[1..][..k - 1], s[..k];
      assert AllAccept(a, u) by {
        forall i | 0 <= i < |u| ensures Accepts(a, u[i]) {
          assert u[i] == v[i + 1];
        }
      }
      StarFromSplit(a, rest, s[1..], k - 1);
    }
  }

  /** The pattern that matches exactly the literal string `w`. */
  function LiteralPattern(w: string): (p: seq<Piece>)
    ensures |p| == |w|
  {
    if w == [] then [] else [Times(Literal(w[0]), 1)] + LiteralPattern(w[1..])
  }

  lemma {:induction false} LiteralPatternMatches(w: string, s: string)
    ensures Matches(LiteralPattern(w), s) <==> s == w
  {
    if w != [] {
      var p := LiteralPattern(w);
      assert p[0] == Times(Literal(w[0]), 1) && p[1..] == LiteralPattern(w[1..]);
      if |s| >= 1 {
        LiteralPatternMatches(w[1..], s[1..]);
        assert AllAccept(Literal(w[0]), s[..1]) <==> s[0] == w[0];
        assert s == [s[0]] + s[1..] && w == [w[0]] + w[1..];
      }
    }
  }

  /** `a+` followed by the literal `w` matches exactly a non-empty run
      of `a`s followed by `w`. */
  lemma PlusThenLiteral(a: Atom, w: string, s: string)
    ensures Matches([Plus(a)] + LiteralPattern(w), s) <==>
      (|s| > |w| && s[|s| - |w|..] == w && AllAccept(a, s[..|s| - |w|]))
  {
    var p := [Plus(a)] + LiteralPattern(w);
    assert p[0] == Plus(a) && p[1..] == LiteralPattern(w);
    if |s| > 0 {
      StarSplit(a, LiteralPattern(w), s[1..]);
      if Matches(p, s) {
        var k :| SplitAt(a, LiteralPattern(w), s[1..], k);
        LiteralPatternMatches(w, s[1..][k..]);
        PlusThenLiteralSound(a, w, s, k);
      }
      if |s| > |w| && s[|s| - |w|..] == w && AllAccept(a, s[..|s| - |w|]) {
        PlusThenLiteralComplete(a, w, s);
      }
    }
  }

  lemma PlusThenLiteralSound(a: Atom, w: string, s: string, k: int)
    requires |s| > 0 && Accepts(a, s[0]) && 0 <= k < |s|
    requires AllAccept(a, s[1..][..k]) && s[1..][k..] == w
    ensures |s| > |w| && s[|s| - |w|..] == w && AllAccept(a, s[..|s| - |w|])
  {
    var t := s[1..];
    assert |s| - |w| == k + 1;
    assert s[|s| - |w|..] == t[k..];
    var u, v := s[..k + 1], t[..k];
    assert AllAccept(a, u) by {
      forall i | 0 <= i < |u| ensures Accepts(a, u[i]) {
        if i > 0 {
          assert u[i] == v[i - 1];
        }
      }
    }
  }

  /** Dropping the first character of a run of `a`s leaves a run of `a`s. */
  lemma AllAcceptTail(a: Atom, s: string, m: int)
    requires 1 <= m <= |s| && AllAccept(a, s[..m])
    ensures Accepts(a, s[0]) && AllAccept(a, s[1..][..m - 1])
  {
    assert s[..m][0] == s[0];
    var u := s[1..][..m - 1];
    forall n | 0 <= n < |u| ensures Accepts(a, u[n]) {
      assert u[n] == s[..m][n + 1];
    }
  }

  lemma PlusThenLiteralComplete(a: Atom, w: string, s: string)
    requires |s| > |w| && s[|s| - |w|..] == w && AllAccept(a, s[..|s| - |w|])
    ensures Accepts(a, s[0]) && SplitAt(a, LiteralPattern(w), s[1..], |s| - |w| - 1)
  {
    var k := |s| - |w| - 1;
    assert s[1..][k..] == s[|s| - |w|..];
    LiteralPatternMatches(w, s[1..][k..]);
    AllAcceptTail(a, s, k + 1);
  }

  /** `/^\d{4}-\d{5}$/` (errorValidations.ts line 2). */
  function StudentNumberPattern(): seq<Piece> {
    [Times(Digit, 4), Times(Literal('-'), 1), Times(Digit, 5)]
  }

  /** The bracket expression `[a-zA-Z0-9._%+-]` of the local part. */
  function LocalPartClass(): Atom {
    AnyOf([CharRange('a', 'z'), CharRange('A', 'Z'), CharRange('0', '9'),
           CharRange('.', '.'), CharRange('_', '_'), CharRange('%', '%'),
           CharRange('+', '+'), CharRange('-', '-')])
  }

  const UpDomain: string := "@up.edu.ph"

  /** `/^[a-zA-Z0-9._%+-]+@up\.edu\.ph$/` (errorValidations.ts line 7): the
      escaped dots are literal and there is no `i` flag. */
  function UpEmailPattern(): seq<Piece> {
    [Plus(LocalPartClass())] + LiteralPattern(UpDomain)
  }

  function IsValidStudentNumber(s: string): bool {
    Matches(StudentNumberPattern(), s)
  }

  function IsValidUpEmail(s: string): bool {
    Matches(UpEmailPattern(), s)
  }

  /** The shape a student number must have: four digits, a hyphen and
      five digits, ten characters in all. */
  predicate StudentNumberShape(s: string) {
    |s| == 10 && s[4] == '-' && forall i :: 0 <= i < 10 && i != 4 ==> IsDigit(s[i])
  }

  lemma StudentNumberMeaning(s: string)
    ensures IsValidStudentNumber(s) <==> StudentNumberShape(s)
  {
    var p := StudentNumberPattern();
    var p1 := [Times(Literal('-'), 1), Times(Digit, 5)];
    var p2 := [Times(Digit, 5)];
    assert p[1..] == p1 && p1[1..] == p2 && p2[1..] == [];
    assert Matches(p, s) == (4 <= |s| && AllAccept(Digit, s[..4]) && Matches(p1, s[4..]));
    if |s| >= 10 {
      var t := s[4..];
      var u := t[1..];
      assert Matches(p1, t) == (AllAccept(Literal('-'), t[..1]) && Matches(p2, u));
      assert Matches(p2, u) == (AllAccept(Digit, u[..5]) && u[5..] == []);
      assert AllAccept(Literal('-'), t[..1]) <==> s[4] == '-';
      assert AllAccept(Digit, s[..4]) <==> forall i :: 0 <= i < 4 ==> IsDigit(s[i]);
      assert AllAccept(Digit, u[..5]) <==> forall i :: 5 <= i < 10 ==> IsDigit(s[i]) by {
        assert forall i :: 0 <= i < 5 ==> u[..5][i] == s[i + 5];
      }
      assert u[5..] == [] <==> |s| == 10;
    } else if |s| >= 4 {
      var t := s[4..];
      if |t| >= 1 {
        assert Matches(p1, t) ==> Matches(p2, t[1..]);
        assert !Matches(p2, t[1..]);
      }
    }
  }

  /** Because the pattern is anchored, a character added before or after
      an accepted student number makes it unacceptable. */
  lemma StudentNumberAnchored(s: string, c: char)
    requires IsValidStudentNumber(s)
    ensures !IsValidStudentNumber([c] + s) && !IsValidStudentNumber(s + [c])
  {
    StudentNumberMeaning(s);
    StudentNumberMeaning([c] + s);
    StudentNumberMeaning(s + [c]);
  }

  /** A character of the local-part class. */
  predicate IsLocalPartChar(c: char) {
    ('a' <= c <= 'z') || ('A' <= c <= 'Z') || ('0' <= c <= '9')
    || c == '.' || c == '_' || c == '%' || c == '+' || c == '-'
  }

  lemma LocalPartClassAccepts(c: char)
    ensures Accepts(LocalPartClass(), c) <==> IsLocalPartChar(c)
  {
    var rs := LocalPartClass().ranges;
    if IsLocalPartChar(c) {
      if 'a' <= c <= 'z' { assert rs[0].lo <= c <= rs[0].hi; }
      else if 'A' <= c <= 'Z' { assert rs[1].lo <= c <= rs[1].hi; }
      else if '0' <= c <= '9' { assert rs[2].lo <= c <= rs[2].hi; }
      else if c == '.' { assert rs[3].lo <= c <= rs[3].hi; }
      else if c == '_' { assert rs[4].lo <= c <= rs[4].hi; }
      else if c == '%' { assert rs[5].lo <= c <= rs[5].hi; }
      else if c == '+' { assert rs[6].lo <= c <= rs[6].hi; }
      else { assert rs[7].lo <= c <= rs[7].hi; }
    }
  }

  /** Every character is a local-part character. */
  predicate LocalPartChars(local: string) {
    forall i :: 0 <= i < |local| ==> IsLocalPartChar(local[i])
  }

  /** What an accepted UP address looks like: a non-empty local part drawn
      from `[a-zA-Z0-9._%+-]`, then exactly the lower-case `@up.edu.ph`. */
  predicate UpEmailShape(s: string) {
    |s| > |UpDomain| && s[|s| - |UpDomain|..] == UpDomain && LocalPartChars(s[..|s| - |UpDomain|])
  }

  /** A local part is accepted by the class exactly when each of its
      characters is a local-part character. */
  lemma LocalPartMeaning(local: string)
    ensures AllAccept(LocalPartClass(), local) <==> LocalPartChars(local)
  {
    forall i | 0 <= i < |local| ensures Accepts(LocalPartClass(), local[i]) <==> IsLocalPartChar(local[i]) {
      LocalPartClassAccepts(local[i]);
    }
  }

  lemma UpEmailMeaning(s: string)
    ensures IsValidUpEmail(s) <==> UpEmailShape(s)
  {
    PlusThenLiteral(LocalPartClass(), UpDomain, s);
    if |s| > |UpDomain| {
      LocalPartMeaning(s[..|s| - |UpDomain|]);
    }
  }

  /** An address of the accepted shape has its only `@` where the domain
      starts. */
  lemma ShapeHasOneAt(s: string)
    requires UpEmailShape(s)
    ensures s[|s| - |UpDomain|] == '@'
    ensures forall i :: 0 <= i < |s| && s[i] == '@' ==> i == |s| - |UpDomain|
  {
    var d := |UpDomain|;
    var dom := s[|s| - d..];
    assert dom[0] == '@';
    forall i | |s| - d < i < |s| ensures s[i] != '@' {
      assert s[i] == dom[i - (|s| - d)];
    }
  }

  /** An accepted address contains exactly one `@`: the local-part class
      has none. */
  lemma UpEmailHasOneAt(s: string)
    requires IsValidUpEmail(s)
    ensures exists i :: 0 <= i < |s| && s[i] == '@'
    ensures forall i, j :: 0 <= i < |s| && 0 <= j < |s| && s[i] == '@' && s[j] == '@' ==> i == j
  {
    UpEmailMeaning(s);
    ShapeHasOneAt(s);
  }

  /** The domain is matched case-sensitively: an upper-case domain is
      refused whatever the local part is. */
  lemma UpEmailCaseSensitive(local: string)
    ensures !IsValidUpEmail(local + "@UP.EDU.PH")
  {
    var s := local + "@UP.EDU.PH";
    UpEmailMeaning(s);
  }
}
