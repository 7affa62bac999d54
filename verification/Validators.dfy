/** The recognisers of `internal/annotations/parser/validators.go`: every pattern is
    transcribed as a regular expression, and its language is then described without one. */
module Validators {
  import opened Text
  import opened Regexp

  function Digits(): Regex { Plus(Class(IsDigit)) }

  // ---------------------------------------------------------------- addresses

  /** `^(\d+).((\d+).){2}(\d+)$`, where every `.` is a wildcard. */
  function IpPattern(): Regex {
    var group := Cat(Digits(), Dot());
    Cat(Cat(Digits(), Dot()), Cat(Cat(group, group), Digits()))
  }

  predicate PassIsIp(target: string) {
    Matches(IpPattern(), target)
  }

  predicate DigitRun(s: string) {
    s != "" && forall c :: c in s ==> IsDigit(c)
  }

  /** Four runs of digits, with a character other than a newline at `i`, `j` and `k` between them. */
  predicate QuadAt(s: string, i: nat, j: nat, k: nat) {
    && i < j < k < |s|
    && DigitRun(s[..i]) && DigitRun(s[i + 1..j]) && DigitRun(s[j + 1..k]) && DigitRun(s[k + 1..])
    && s[i] != '\n' && s[j] != '\n' && s[k] != '\n'
  }

  /** A run of digits and one more character. */
  lemma GroupIn(s: string)
    ensures In(Cat(Digits(), Dot()), s) <==>
            |s| >= 2 && DigitRun(s[..|s| - 1]) && s[|s| - 1] != '\n'
  {
    if |s| >= 2 {
      var n := |s| - 1;
      PlusClassIn(IsDigit, s[..n]);
      assert |s[n..]| == 1;
      if DigitRun(s[..n]) && s[n] != '\n' {
        assert In(Digits(), s[..n]) && In(Dot(), s[n..]);
      }
    }
    if i :| 0 <= i <= |s| && In(Digits(), s[..i]) && In(Dot(), s[i..]) {
      assert |s[i..]| == 1;
      PlusClassIn(IsDigit, s[..i]);
    }
  }

  lemma GroupsIn(s: string, j: nat, k: nat)
    requires j < k < |s|
    ensures In(Cat(Digits(), Dot()), s[j + 1..k + 1]) <==> DigitRun(s[j + 1..k]) && s[k] != '\n'
  {
    var g := s[j + 1..k + 1];
    GroupIn(g);
    if |g| >= 1 {
      assert g[..|g| - 1] == s[j + 1..k];
    }
  }

  /** The pattern accepts exactly the texts that split into four runs of digits. */
  lemma IpLanguage(s: string)
    ensures PassIsIp(s) <==> exists i, j, k :: QuadAt(s, i, j, k)
  {
    MatchesIn(IpPattern(), s);
    if PassIsIp(s) {
      var i, j, k := IpSplit(s);
    }
    if i: nat, j: nat, k: nat :| QuadAt(s, i, j, k) {
      QuadMatches(s, i, j, k);
    }
  }

  lemma QuadMatches(s: string, i: nat, j: nat, k: nat)
    requires QuadAt(s, i, j, k)
    ensures In(IpPattern(), s)
  {
    GroupIn(s[..i + 1]);
    assert s[..i + 1][..i] == s[..i];
    GroupsIn(s, i, j);
    GroupsIn(s, j, k);
    PlusClassIn(IsDigit, s[k + 1..]);
    FourIntro(Cat(Digits(), Dot()), Digits(), s[..i + 1], s[i + 1..j + 1], s[j + 1..k + 1], s[k + 1..]);
    FourSlices(s, i + 1, j + 1, k + 1);
  }

  lemma FourSlices(s: string, a: nat, b: nat, c: nat)
    requires a <= b <= c <= |s|
    ensures s[..a] + (s[a..b] + s[b..c] + s[c..]) == s
  {
    assert s[a..b] + s[b..c] == s[a..c];
    assert s[a..c] + s[c..] == s[a..];
  }

  lemma FourIntro(g: Regex, d: Regex, x: string, y: string, z: string, w: string)
    requires In(g, x) && In(g, y) && In(g, z) && In(d, w)
    ensures In(Cat(g, Cat(Cat(g, g), d)), x + (y + z + w))
  {
    CatIntro(g, g, y, z);
    CatIntro(Cat(g, g), d, y + z, w);
    CatIntro(g, Cat(Cat(g, g), d), x, y + z + w);
  }

  lemma ThreeElim(g: Regex, d: Regex, s: string) returns (y: string, z: string, w: string)
    requires In(Cat(Cat(g, g), d), s)
    ensures s == y + z + w && In(g, y) && In(g, z) && In(d, w)
  {
    var m;
    m, w := CatElim(Cat(g, g), d, s);
    y, z := CatElim(g, g, m);
  }

  lemma FourElim(g: Regex, d: Regex, s: string) returns (x: string, y: string, z: string, w: string)
    requires In(Cat(g, Cat(Cat(g, g), d)), s)
    ensures s == x + (y + z + w) && In(g, x) && In(g, y) && In(g, z) && In(d, w)
  {
    var r;
    x, r := CatElim(g, Cat(Cat(g, g), d), s);
    y, z, w := ThreeElim(g, d, r);
  }

  lemma IpSplit(s: string) returns (i: nat, j: nat, k: nat)
    requires In(IpPattern(), s)
    ensures QuadAt(s, i, j, k)
  {
    var x, y, z, w := FourElim(Cat(Digits(), Dot()), Digits(), s);
    assert s == x + y + z + w;
    GroupIn(x);
    GroupIn(y);
    GroupIn(z);
    PlusClassIn(IsDigit, w);
    i := |x| - 1;
    j := i + |y|;
    k := j + |z|;
    assert s[..i] == x[..|x| - 1] && s[i + 1..j] == y[..|y| - 1];
    assert s[j + 1..k] == z[..|z| - 1] && s[k + 1..] == w;
  }

  /** Every dotted quad of digit runs is an address. */
  lemma DottedQuadIsIp(a: string, b: string, c: string, d: string)
    requires DigitRun(a) && DigitRun(b) && DigitRun(c) && DigitRun(d)
    ensures PassIsIp(a + "." + b + "." + c + "." + d)
  {
    var s := a + "." + b + "." + c + "." + d;
    var i := |a|;
    var j := i + 1 + |b|;
    var k := j + 1 + |c|;
    assert s[..i] == a && s[i + 1..j] == b && s[j + 1..k] == c && s[k + 1..] == d;
    assert QuadAt(s, i, j, k);
    IpLanguage(s);
  }

  function NonDigits(s: string): set<int> {
    set i | 0 <= i < |s| && !IsDigit(s[i])
  }

  /** What every accepted address looks like. */
  lemma IpShape(s: string)
    requires PassIsIp(s)
    ensures |s| >= 7 && IsDigit(s[0]) && IsDigit(s[|s| - 1])
    ensures |NonDigits(s)| <= 3
  {
    IpLanguage(s);
    var i: nat, j: nat, k: nat :| QuadAt(s, i, j, k);
    assert s[0] == s[..i][0] && s[|s| - 1] == s[k + 1..][|s| - k - 2];
    forall x | 0 <= x < |s| && x != i && x != j && x != k ensures IsDigit(s[x]) {
      if x < i { assert s[..i][x] == s[x]; }
      else if x < j { assert s[i + 1..j][x - i - 1] == s[x]; }
      else if x < k { assert s[j + 1..k][x - j - 1] == s[x]; }
      else { assert s[k + 1..][x - k - 1] == s[x]; }
    }
    SubsetSize(NonDigits(s), {i as int, j as int, k as int});
  }

  lemma {:induction false} SubsetSize<T>(a: set<T>, b: set<T>)
    requires a <= b
    ensures |a| <= |b|
  {
    if |a| == 0 {
    } else {
      assert a != {};
      var x :| x in a;
      assert |a - {x}| == |a| - 1;
      SubsetSize(a - {x}, b - {x});
    }
  }

  /** The form that the comment on the allow list shows, an address with a mask, is refused. */
  lemma MaskIsRefused(a: string, b: string, c: string, d: string, m: string)
    ensures !PassIsIp(a + "." + b + "." + c + "." + d + "/" + m)
  {
    var s := a + "." + b + "." + c + "." + d + "/" + m;
    var i := |a|;
    var j := i + 1 + |b|;
    var k := j + 1 + |c|;
    var n := k + 1 + |d|;
    assert s[i] == '.' && s[j] == '.' && s[k] == '.' && s[n] == '/';
    SubsetSize({i as int, j as int, k as int, n as int}, NonDigits(s));
    if PassIsIp(s) {
      IpShape(s);
    }
  }

  // ---------------------------------------------------------------- weights

  predicate NonZeroDigit(c: char) { '1' <= c <= '9' }

  /** `^weight=(0|[1-9]\d*)$` */
  function WeightPattern(): Regex {
    Cat(Lit("weight="), Alt(Lit("0"), Cat(Class(NonZeroDigit), Star(Class(IsDigit)))))
  }

  predicate IsWeightPrefix(annotation: string) {
    Matches(WeightPattern(), annotation)
  }

  lemma NumberIn(s: string)
    ensures In(Alt(Lit("0"), Cat(Class(NonZeroDigit), Star(Class(IsDigit)))), s) <==> CanonicalDecimal(s)
  {
    LitIn("0", s);
    var first := Class(NonZeroDigit);
    if s != "" {
      assert In(first, s[..1]) <==> '1' <= s[0] <= '9';
      StarClassIn(IsDigit, s[1..]);
      assert s == [s[0]] + s[1..];
    }
    if i :| 0 <= i <= |s| && In(first, s[..i]) && In(Star(Class(IsDigit)), s[i..]) {
      assert |s[..i]| == 1;
      assert AllDigits(s);
    }
    if CanonicalDecimal(s) && s[0] != '0' {
      assert s[0] in s;
      assert In(first, s[..1]) && In(Star(Class(IsDigit)), s[1..]);
    }
  }

  /** The accepted weights are `weight=` and a decimal number without leading zeros. */
  lemma WeightLanguage(s: string)
    ensures IsWeightPrefix(s) <==> |s| >= 7 && s[..7] == "weight=" && CanonicalDecimal(s[7..])
  {
    var number := Alt(Lit("0"), Cat(Class(NonZeroDigit), Star(Class(IsDigit))));
    MatchesIn(WeightPattern(), s);
    if |s| >= 7 {
      LitIn("weight=", s[..7]);
      NumberIn(s[7..]);
    }
    if i :| 0 <= i <= |s| && In(Lit("weight="), s[..i]) && In(number, s[i..]) {
      LitIn("weight=", s[..i]);
      assert i == 7;
    }
  }

  // ---------------------------------------------------------------- paths

  /** `^\/(?:.*\(.+\).*|.*\[[^\[\]]+\].*)` */
  function PathPattern(): Regex {
    FromStart(Cat(Lit("/"), Alt(ParenPattern(), BracketPattern())))
  }

  predicate NotBracket(c: char) { c != '[' && c != ']' }

  function ParenPattern(): Regex { EnclosedPattern('(', ')', NotNewline) }

  function BracketPattern(): Regex { EnclosedPattern('[', ']', NotBracket) }

  predicate IsRegexPatternRegex(str: string) {
    Matches(PathPattern(), str)
  }

  /** Some text without newlines, `open`, some inner text, `close`. */
  predicate Enclosed(s: string, open: char, close: char, inner: char -> bool, i: nat, j: nat) {
    && i + 1 < j < |s| && s[i] == open && s[j] == close
    && (forall c :: c in s[..i] ==> c != '\n')
    && (forall c :: c in s[i + 1..j] ==> inner(c))
  }

  function Five(a: Regex, b: Regex, c: Regex, d: Regex, e: Regex): Regex {
    Cat(a, Cat(b, Cat(c, Cat(d, e))))
  }

  lemma FiveElim(a: Regex, b: Regex, c: Regex, d: Regex, e: Regex, s: string)
    returns (v: string, w: string, x: string, y: string, z: string)
    requires In(Five(a, b, c, d, e), s)
    ensures s == v + (w + (x + (y + z)))
    ensures In(a, v) && In(b, w) && In(c, x) && In(d, y) && In(e, z)
  {
    var r, q, p;
    v, r := CatElim(a, Cat(b, Cat(c, Cat(d, e))), s);
    w, q := CatElim(b, Cat(c, Cat(d, e)), r);
    x, p := CatElim(c, Cat(d, e), q);
    y, z := CatElim(d, e, p);
  }

  lemma FiveIntro(a: Regex, b: Regex, c: Regex, d: Regex, e: Regex,
                  v: string, w: string, x: string, y: string, z: string)
    requires In(a, v) && In(b, w) && In(c, x) && In(d, y) && In(e, z)
    ensures In(Five(a, b, c, d, e), v + (w + (x + (y + z))))
  {
    CatIntro(d, e, y, z);
    CatIntro(c, Cat(d, e), x, y + z);
    CatIntro(b, Cat(c, Cat(d, e)), w, x + (y + z));
    CatIntro(a, Cat(b, Cat(c, Cat(d, e))), v, w + (x + (y + z)));
  }

  function EnclosedPattern(open: char, close: char, inner: char -> bool): Regex {
    Five(Star(Dot()), Lit([open]), Plus(Class(inner)), Lit([close]), Star(Dot()))
  }

  lemma SliceFive(s: string, n: nat, v: string, w: string, x: string, y: string, z: string)
    requires n <= |s| && s[..n] == v + (w + (x + (y + z))) && |w| == |y| == 1
    ensures |v| + |x| + 2 <= n
    ensures s[..|v|] == v && s[|v|] == w[0]
    ensures s[|v| + 1..|v| + 1 + |x|] == x && s[|v| + 1 + |x|] == y[0]
  {
    var u := s[..n];
    var i := |v|;
    assert |u| == |v| + 1 + |x| + 1 + |z|;
    var u1 := w + (x + (y + z));
    assert u[i..] == u1 && u1[0] == w[0];
    var u2 := x + (y + z);
    assert u1[1..] == u2 && u2[..|x|] == x && u2[|x|] == y[0];
    assert forall k :: 0 <= k < |u2| ==> s[i + 1 + k] == u2[k];
    assert s[i + 1..i + 1 + |x|] == u2[..|x|];
  }

  lemma EnclosedPieces(u: string, open: char, close: char, inner: char -> bool)
    returns (v: string, w: string, x: string, y: string, z: string)
    requires In(EnclosedPattern(open, close, inner), u)
    ensures u == v + (w + (x + (y + z))) && w == [open] && y == [close]
    ensures (forall c :: c in v ==> NotNewline(c)) && x != "" && forall c :: c in x ==> inner(c)
  {
    v, w, x, y, z := FiveElim(Star(Dot()), Lit([open]), Plus(Class(inner)), Lit([close]), Star(Dot()), u);
    StarClassIn(NotNewline, v);
    LitIn([open], w);
    PlusClassIn(inner, x);
    LitIn([close], y);
  }

  lemma EnclosedSound(s: string, open: char, close: char, inner: char -> bool) returns (i: nat, j: nat)
    requires exists n | 0 <= n <= |s| :: In(EnclosedPattern(open, close, inner), s[..n])
    ensures Enclosed(s, open, close, inner, i, j)
  {
    var n :| 0 <= n <= |s| && In(EnclosedPattern(open, close, inner), s[..n]);
    var v, w, x, y, z := EnclosedPieces(s[..n], open, close, inner);
    i := |v|;
    j := i + 1 + |x|;
    SliceFive(s, n, v, w, x, y, z);
  }

  lemma EnclosedComplete(s: string, open: char, close: char, inner: char -> bool, i: nat, j: nat)
    requires Enclosed(s, open, close, inner, i, j)
    ensures In(EnclosedPattern(open, close, inner), s[..j + 1])
  {
    StarClassIn(NotNewline, s[..i]);
    StarClassIn(NotNewline, "");
    PlusClassIn(inner, s[i + 1..j]);
    LitIn([open], [open]);
    LitIn([close], [close]);
    FiveIntro(Star(Dot()), Lit([open]), Plus(Class(inner)), Lit([close]), Star(Dot()),
              s[..i], [open], s[i + 1..j], [close], "");
    assert s[..j + 1] == s[..i] + ([open] + (s[i + 1..j] + ([close] + "")));
  }

  predicate InParens(s: string, i: nat, j: nat) {
    Enclosed(s, '(', ')', NotNewline, i, j)
  }

  predicate InBrackets(s: string, i: nat, j: nat) {
    Enclosed(s, '[', ']', NotBracket, i, j)
  }

  lemma SlashIn(r: Regex, s: string)
    ensures In(FromStart(Cat(Lit("/"), r)), s) <==>
            s != "" && s[0] == '/' && exists n | 0 <= n <= |s[1..]| :: In(r, s[1..][..n])
  {
    FromStartIn(Cat(Lit("/"), r), s);
    if n :| 0 <= n <= |s| && In(Cat(Lit("/"), r), s[..n]) {
      var x, y := CatElim(Lit("/"), r, s[..n]);
      LitIn("/", x);
      assert s[..n][1..] == y == s[1..][..|y|];
    }
    if s != "" && s[0] == '/' {
      LitIn("/", "/");
      if n :| 0 <= n <= |s[1..]| && In(r, s[1..][..n]) {
        CatIntro(Lit("/"), r, "/", s[1..][..n]);
        assert s[..n + 1] == "/" + s[1..][..n];
      }
    }
  }

  /** A path looks like a regular expression exactly when it starts with `/` and then holds a
      non-empty pair of parentheses, or a non-empty pair of brackets without brackets inside. */
  lemma PathLanguage(s: string)
    ensures IsRegexPatternRegex(s) <==>
            && s != "" && s[0] == '/'
            && ((exists i, j :: InParens(s[1..], i, j)) || (exists i, j :: InBrackets(s[1..], i, j)))
  {
    MatchesIn(PathPattern(), s);
    SlashIn(Alt(ParenPattern(), BracketPattern()), s);
    if s != "" {
      var t := s[1..];
      if exists n | 0 <= n <= |t| :: In(ParenPattern(), t[..n]) {
        var i, j := EnclosedSound(t, '(', ')', NotNewline);
        assert InParens(t, i, j);
      }
      if exists n | 0 <= n <= |t| :: In(BracketPattern(), t[..n]) {
        var i, j := EnclosedSound(t, '[', ']', NotBracket);
        assert InBrackets(t, i, j);
      }
      if i: nat, j: nat :| InParens(t, i, j) {
        EnclosedComplete(t, '(', ')', NotNewline, i, j);
      }
      if i: nat, j: nat :| InBrackets(t, i, j) {
        EnclosedComplete(t, '[', ']', NotBracket, i, j);
      }
    }
  }

  predicate WordChar(c: char) {
    '0' <= c <= '9' || 'A' <= c <= 'Z' || c == '_' || 'a' <= c <= 'z'
  }

  /** `^\/(\w+)|^/\$([0-9])$|^\$([0-9])$` */
  function TargetPattern(): Regex {
    Alt(FromStart(Cat(Lit("/"), Plus(Class(WordChar)))),
        Alt(Cat(Lit("/$"), Class(IsDigit)), Cat(Lit("$"), Class(IsDigit))))
  }

  predicate IsTargetPathRegex(str: string) {
    Matches(TargetPattern(), str)
  }

  lemma DigitBehind(w: string, s: string)
    requires In(Cat(Lit(w), Class(IsDigit)), s)
    ensures |s| == |w| + 1 && s[..|w|] == w && IsDigit(s[|w|])
  {
    var x, y := CatElim(Lit(w), Class(IsDigit), s);
    LitIn(w, x);
  }

  lemma DigitAppended(w: string, d: char)
    requires IsDigit(d)
    ensures In(Cat(Lit(w), Class(IsDigit)), w + [d])
  {
    LitIn(w, w);
    CatIntro(Lit(w), Class(IsDigit), w, [d]);
  }

  lemma DigitAfter(w: string, s: string)
    ensures In(Cat(Lit(w), Class(IsDigit)), s) <==> |s| == |w| + 1 && s[..|w|] == w && IsDigit(s[|w|])
  {
    if In(Cat(Lit(w), Class(IsDigit)), s) {
      DigitBehind(w, s);
    }
    if |s| == |w| + 1 && s[..|w|] == w && IsDigit(s[|w|]) {
      DigitAppended(w, s[|w|]);
      assert s == w + [s[|w|]];
    }
  }

  lemma WordAfterSlash(s: string)
    ensures In(FromStart(Cat(Lit("/"), Plus(Class(WordChar)))), s) <==> |s| >= 2 && s[0] == '/' && WordChar(s[1])
  {
    SlashIn(Plus(Class(WordChar)), s);
    if s != "" && s[0] == '/' {
      if n :| 0 <= n <= |s[1..]| && In(Plus(Class(WordChar)), s[1..][..n]) {
        PlusClassIn(WordChar, s[1..][..n]);
        assert s[1] == s[1..][..n][0];
        assert s[1] in s[1..][..n];
      }
      if |s| >= 2 && WordChar(s[1]) {
        PlusClassIn(WordChar, s[1..][..1]);
        assert s[1..][..1] == [s[1]];
      }
    }
  }

  /** The accepted targets: a slash and a word character, with anything behind them, or the number of
      a group, with or without a slash. */
  lemma TargetLanguage(s: string)
    ensures IsTargetPathRegex(s) <==>
            || (|s| >= 2 && s[0] == '/' && WordChar(s[1]))
            || (|s| == 3 && s[..2] == "/$" && IsDigit(s[2]))
            || (|s| == 2 && s[..1] == "$" && IsDigit(s[1]))
  {
    MatchesIn(TargetPattern(), s);
    WordAfterSlash(s);
    DigitAfter("/$", s);
    DigitAfter("$", s);
  }

  // ---------------------------------------------------------------- hosts

  /** The class `[a0-z9]`: `a`, the range from `0` to `z`, and `9`. */
  predicate HostChar(c: char) {
    c == 'a' || '0' <= c <= 'z' || c == '9'
  }

  predicate Lower(c: char) {
    'a' <= c <= 'z'
  }

  function Label(): Regex { Cat(Plus(Class(HostChar)), Lit(".")) }

  /** `([a0-z9]+\.)+([a-z]+)`, anchored at neither end. */
  function HostPattern(): Regex {
    Anywhere(Cat(Plus(Label()), Plus(Class(Lower))))
  }

  predicate IsValidHost(host: string) {
    Matches(HostPattern(), host)
  }

  lemma LabelIn(s: string)
    requires In(Label(), s)
    ensures |s| >= 2 && s[|s| - 1] == '.' && HostChar(s[|s| - 2])
  {
    var i :| 0 <= i <= |s| && In(Plus(Class(HostChar)), s[..i]) && In(Lit("."), s[i..]);
    PlusClassIn(HostChar, s[..i]);
    LitIn(".", s[i..]);
    assert i == |s| - 1 && s[i..][0] == s[i] && s[..i][i - 1] == s[i - 1];
  }

  lemma {:induction false} LabelsIn(s: string)
    requires In(Star(Label()), s)
    ensures s != "" ==> |s| >= 2 && s[|s| - 1] == '.' && HostChar(s[|s| - 2])
    decreases |s|
  {
    if s != "" {
      var i :| 0 < i <= |s| && In(Label(), s[..i]) && In(Star(Label()), s[i..]);
      LabelIn(s[..i]);
      LabelsIn(s[i..]);
      if i < |s| {
        assert s[i..][|s| - i - 1] == s[|s| - 1] && s[i..][|s| - i - 2] == s[|s| - 2];
      }
    }
  }

  predicate DotAt(s: string, d: nat) {
    0 < d < |s| - 1 && s[d] == '.' && HostChar(s[d - 1]) && Lower(s[d + 1])
  }

  lemma HostSplit(part: Regex, s: string) returns (x: string, y: string, z: string, i: nat, j: nat)
    requires In(Anywhere(Cat(Plus(part), Plus(Class(Lower)))), s)
    ensures In(part, x) && In(Star(part), y) && In(Plus(Class(Lower)), z)
    ensures i <= j <= |s| && s[i..j] == x + y + z
  {
    AnywhereIn(Cat(Plus(part), Plus(Class(Lower))), s);
    i, j :| 0 <= i <= j <= |s| && In(Cat(Plus(part), Plus(Class(Lower))), s[i..j]);
    var u;
    u, z := CatElim(Plus(part), Plus(Class(Lower)), s[i..j]);
    x, y := CatElim(part, Star(part), u);
  }

  lemma HostSound(s: string) returns (d: nat)
    requires IsValidHost(s)
    ensures DotAt(s, d)
  {
    MatchesIn(HostPattern(), s);
    var x, y, z, i, j := HostSplit(Label(), s);
    PlusClassIn(Lower, z);
    LabelIn(x);
    LabelsIn(y);
    var u := x + y;
    var n := |u| - 1;
    assert u[n] == '.' && HostChar(u[n - 1]);
    d := i + n;
    assert s[d] == s[i..j][n] && s[d - 1] == s[i..j][n - 1] && s[d + 1] == s[i..j][n + 1];
  }

  lemma ShortLabel(a: string)
    requires |a| == 1 && HostChar(a[0])
    ensures In(Plus(Label()), a + ".")
  {
    PlusClassIn(HostChar, a);
    LitIn(".", ".");
    CatIntro(Plus(Class(HostChar)), Lit("."), a, ".");
    CatIntro(Label(), Star(Label()), a + ".", "");
    assert a + "." + "" == a + ".";
  }

  lemma ShortHost(a: string, z: string)
    requires |a| == |z| == 1 && HostChar(a[0]) && Lower(z[0])
    ensures In(Cat(Plus(Label()), Plus(Class(Lower))), a + "." + z)
  {
    ShortLabel(a);
    PlusClassIn(Lower, z);
    CatIntro(Plus(Label()), Plus(Class(Lower)), a + ".", z);
  }

  lemma HostComplete(s: string, d: nat)
    requires DotAt(s, d)
    ensures IsValidHost(s)
  {
    var a, z := [s[d - 1]], [s[d + 1]];
    ShortHost(a, z);
    assert s[d - 1..d + 2] == a + "." + z;
    MatchesIn(HostPattern(), s);
    AnywhereIn(Cat(Plus(Label()), Plus(Class(Lower))), s);
  }

  /** One dot between a character of the class and a lower-case letter is all it takes. */
  lemma HostLanguage(s: string)
    ensures IsValidHost(s) <==> exists d :: DotAt(s, d)
  {
    if IsValidHost(s) {
      var d := HostSound(s);
    }
    if d: nat :| DotAt(s, d) {
      HostComplete(s, d);
    }
  }
}
