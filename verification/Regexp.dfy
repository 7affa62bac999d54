/** The part of `regexp` that the validators use: a language for every expression, and a
    matcher by derivatives that decides membership. */
module Regexp {

  datatype Regex =
    | Nothing
    | Eps
    | Class(p: char -> bool)
    | Cat(a: Regex, b: Regex)
    | Alt(a: Regex, b: Regex)
    | Star(a: Regex)

  /** The language of an expression: `s` splits the way the expression says. */
  ghost predicate In(r: Regex, s: string)
    decreases r, |s|
  {
    match r
    case Nothing => false
    case Eps => s == ""
    case Class(p) => |s| == 1 && p(s[0])
    case Cat(a, b) => exists i | 0 <= i <= |s| :: In(a, s[..i]) && In(b, s[i..])
    case Alt(a, b) => In(a, s) || In(b, s)
    case Star(a) => s == "" || exists i | 0 < i <= |s| :: In(a, s[..i]) && In(r, s[i..])
  }

  predicate Nullable(r: Regex) {
    match r
    case Nothing => false
    case Eps => true
    case Class(_) => false
    case Cat(a, b) => Nullable(a) && Nullable(b)
    case Alt(a, b) => Nullable(a) || Nullable(b)
    case Star(_) => true
  }

  /** What is left to match after reading `c`. */
  function Deriv(r: Regex, c: char): Regex {
    match r
    case Nothing => Nothing
    case Eps => Nothing
    case Class(p) => if p(c) then Eps else Nothing
    case Cat(a, b) =>
      if Nullable(a) then Alt(Cat(Deriv(a, c), b), Deriv(b, c)) else Cat(Deriv(a, c), b)
    case Alt(a, b) => Alt(Deriv(a, c), Deriv(b, c))
    case Star(a) => Cat(Deriv(a, c), r)
  }

  /** Decides whether the whole of `s` is in the language of `r`. */
  predicate Matches(r: Regex, s: string)
    decreases |s|
  {
    if s == "" then Nullable(r) else Matches(Deriv(r, s[0]), s[1..])
  }

  lemma {:induction false} NullableIn(r: Regex)
    ensures Nullable(r) <==> In(r, "")
  {
    match r
    case Cat(a, b) =>
      NullableIn(a);
      NullableIn(b);
      assert ""[..0] == "" && ""[0..] == "";
    case Alt(a, b) =>
      NullableIn(a);
      NullableIn(b);
    case _ =>
  }

  lemma CatIntro(a: Regex, b: Regex, x: string, y: string)
    requires In(a, x) && In(b, y)
    ensures In(Cat(a, b), x + y)
  {
    assert (x + y)[..|x|] == x && (x + y)[|x|..] == y;
  }

  lemma CatElim(a: Regex, b: Regex, s: string) returns (x: string, y: string)
    requires In(Cat(a, b), s)
    ensures s == x + y && In(a, x) && In(b, y)
  {
    var i :| 0 <= i <= |s| && In(a, s[..i]) && In(b, s[i..]);
    x, y := s[..i], s[i..];
  }

  lemma {:induction false} DerivIn(r: Regex, c: char, s: string)
    ensures In(Deriv(r, c), s) <==> In(r, [c] + s)
    decreases r, |s|
  {
    var t := [c] + s;
    match r
    case Nothing =>
    case Eps =>
    case Class(p) =>
    case Alt(a, b) =>
      DerivIn(a, c, s);
      DerivIn(b, c, s);
    case Cat(a, b) =>
      NullableIn(a);
      DerivIn(b, c, s);
      assert t[..0] == "" && t[0..] == t;
      if i :| 0 <= i <= |s| && In(Deriv(a, c), s[..i]) && In(b, s[i..]) {
        DerivSplit(a, c, s, i);
      }
      if i :| 0 <= i <= |t| && In(a, t[..i]) && In(b, t[i..]) {
        if i > 0 {
          DerivSplit(a, c, s, i - 1);
        }
      }
    case Star(a) =>
      if i :| 0 <= i <= |s| && In(Deriv(a, c), s[..i]) && In(r, s[i..]) {
        DerivSplit(a, c, s, i);
      }
      if i :| 0 < i <= |t| && In(a, t[..i]) && In(r, t[i..]) {
        DerivSplit(a, c, s, i - 1);
      }
  }

  /** Reading `c` moves a split point by one. */
  lemma {:induction false} DerivSplit(a: Regex, c: char, s: string, i: nat)
    requires i <= |s|
    ensures In(Deriv(a, c), s[..i]) <==> In(a, ([c] + s)[..i + 1])
    ensures ([c] + s)[i + 1..] == s[i..]
    decreases a, |s| + 1
  {
    DerivIn(a, c, s[..i]);
    assert ([c] + s)[..i + 1] == [c] + s[..i];
  }

  /** The matcher decides the language: for every expression and every text. */
  lemma {:induction false} MatchesIn(r: Regex, s: string)
    ensures Matches(r, s) <==> In(r, s)
    decreases |s|
  {
    if s == "" {
      NullableIn(r);
    } else {
      assert s == [s[0]] + s[1..];
      DerivIn(r, s[0], s[1..]);
      MatchesIn(Deriv(r, s[0]), s[1..]);
    }
  }

  // ---------------------------------------------------------------- derived forms

  predicate Any(c: char) { true }

  predicate NotNewline(c: char) { c != '\n' }

  function AnyChar(): Regex { Class(Any) }

  /** `.` in Go: anything but a newline. */
  function Dot(): Regex { Class(NotNewline) }

  function Plus(r: Regex): Regex { Cat(r, Star(r)) }

  function Lit(w: string): Regex {
    if w == "" then Eps else Cat(Class(c => c == w[0]), Lit(w[1..]))
  }

  /** `MatchString` with an expression anchored at the front only. */
  function FromStart(r: Regex): Regex { Cat(r, Star(AnyChar())) }

  /** `MatchString` with an expression that is not anchored. */
  function Anywhere(r: Regex): Regex { Cat(Star(AnyChar()), FromStart(r)) }

  lemma {:induction false} LitIn(w: string, s: string)
    ensures In(Lit(w), s) <==> s == w
  {
    if w != "" {
      assert w == [w[0]] + w[1..];
      if s != "" {
        LitIn(w[1..], s[1..]);
        assert s == s[..1] + s[1..];
        assert In(Class(c => c == w[0]), s[..1]) <==> s[0] == w[0];
      }
      if i :| 0 <= i <= |s| && In(Class(c => c == w[0]), s[..i]) && In(Lit(w[1..]), s[i..]) {
        assert i == 1;
      }
    }
  }

  lemma {:induction false} StarClassIn(p: char -> bool, s: string)
    ensures In(Star(Class(p)), s) <==> forall c :: c in s ==> p(c)
  {
    if s != "" {
      StarClassIn(p, s[1..]);
      assert s == [s[0]] + s[1..];
      assert In(Class(p), s[..1]) <==> p(s[0]);
      if i :| 0 < i <= |s| && In(Class(p), s[..i]) && In(Star(Class(p)), s[i..]) {
        assert i == 1;
      }
    }
  }

  lemma PlusClassIn(p: char -> bool, s: string)
    ensures In(Plus(Class(p)), s) <==> s != "" && forall c :: c in s ==> p(c)
  {
    if s != "" {
      StarClassIn(p, s[1..]);
      assert s == [s[0]] + s[1..];
      assert In(Class(p), s[..1]) <==> p(s[0]);
      if i :| 0 <= i <= |s| && In(Class(p), s[..i]) && In(Star(Class(p)), s[i..]) {
        assert i == 1;
      }
    }
  }

  lemma FromStartIn(r: Regex, s: string)
    ensures In(FromStart(r), s) <==> exists i | 0 <= i <= |s| :: In(r, s[..i])
  {
    forall i | 0 <= i <= |s| ensures In(Star(AnyChar()), s[i..]) {
      StarClassIn(Any, s[i..]);
    }
  }

  lemma Shifted(r: Regex, s: string, i: nat)
    requires i <= |s|
    ensures (exists k | 0 <= k <= |s[i..]| :: In(r, s[i..][..k])) <==> exists j | i <= j <= |s| :: In(r, s[i..j])
  {
    forall k | 0 <= k <= |s[i..]| ensures s[i..][..k] == s[i..i + k] {}
    if j :| i <= j <= |s| && In(r, s[i..j]) {
      assert In(r, s[i..][..j - i]);
    }
  }

  lemma AnywhereIn(r: Regex, s: string)
    ensures In(Anywhere(r), s) <==> exists i, j | 0 <= i <= j <= |s| :: In(r, s[i..j])
  {
    forall i | 0 <= i <= |s|
      ensures In(Star(AnyChar()), s[..i])
      ensures In(FromStart(r), s[i..]) <==> exists j | i <= j <= |s| :: In(r, s[i..j])
    {
      StarClassIn(Any, s[..i]);
      FromStartIn(r, s[i..]);
      Shifted(r, s, i);
    }
    if i, j :| 0 <= i <= j <= |s| && In(r, s[i..j]) {
      assert In(FromStart(r), s[i..]);
    }
  }
}
