/** The string operations of Go that the annotation parsers rest on: `strings.Split`,
    `strings.Join`, `strings.TrimSpace`, decimal printing and the order of `sort.Strings`. */
module Text {

  // ---------------------------------------------------------------- splitting and joining

  /** `strings.Split(s, sep)` for a separator of one character. */
  function Split(s: string, sep: char): (parts: seq<string>)
    ensures |parts| >= 1
  {
    if s == "" then [""]
    else
      var rest := Split(s[1..], sep);
      if s[0] == sep then [""] + rest else [[s[0]] + rest[0]] + rest[1..]
  }

  /** `strings.Join(parts, sep)`. */
  function Join(parts: seq<string>, sep: string): string
  {
    if |parts| == 0 then ""
    else if |parts| == 1 then parts[0]
    else parts[0] + sep + Join(parts[1..], sep)
  }

  lemma {:induction false} SplitFirst(p: string, rest: string, sep: char)
    requires sep !in p
    ensures Split(p, sep) == [p]
    ensures Split(p + [sep] + rest, sep) == [p] + Split(rest, sep)
  {
    if p == "" {
      assert p + [sep] + rest == [sep] + rest;
    } else {
      SplitFirst(p[1..], rest, sep);
      assert p == [p[0]] + p[1..];
      assert (p + [sep] + rest)[1..] == p[1..] + [sep] + rest;
    }
  }

  /** Splitting undoes joining when no part holds the separator. */
  lemma {:induction false} SplitJoin(parts: seq<string>, sep: char)
    requires |parts| >= 1
    requires forall p :: p in parts ==> sep !in p
    ensures Split(Join(parts, [sep]), sep) == parts
  {
    if |parts| == 1 {
      SplitFirst(parts[0], "", sep);
    } else {
      SplitJoin(parts[1..], sep);
      SplitFirst(parts[0], Join(parts[1..], [sep]), sep);
      assert parts == [parts[0]] + parts[1..];
    }
  }

  lemma {:induction false} SplitParts(s: string, sep: char)
    ensures forall p :: p in Split(s, sep) ==> sep !in p && forall c :: c in p ==> c in s
  {
    if s != "" {
      SplitParts(s[1..], sep);
      var rest := Split(s[1..], sep);
      assert rest[0] in rest;
      forall p | p in Split(s, sep) ensures sep !in p && forall c :: c in p ==> c in s {
        if p !in rest {
          assert s[0] in s;
        }
      }
    }
  }

  // ---------------------------------------------------------------- trimming

  /** `unicode.IsSpace`. */
  predicate IsSpace(c: char) {
    || '\t' <= c <= '\r' || c == ' ' || c == '\U{0085}' || c == '\U{00A0}' || c == '\U{1680}'
    || '\U{2000}' <= c <= '\U{200A}' || c == '\U{2028}' || c == '\U{2029}' || c == '\U{202F}'
    || c == '\U{205F}' || c == '\U{3000}'
  }

  predicate AllSpace(s: string) {
    forall c :: c in s ==> IsSpace(c)
  }

  /** Nothing to trim at either end. */
  predicate Trimmed(s: string) {
    s != "" ==> !IsSpace(s[0]) && !IsSpace(s[|s| - 1])
  }

  function TrimLeft(s: string): string {
    if s != "" && IsSpace(s[0]) then TrimLeft(s[1..]) else s
  }

  function TrimRight(s: string): string {
    if s != "" && IsSpace(s[|s| - 1]) then TrimRight(s[..|s| - 1]) else s
  }

  /** `strings.TrimSpace`. */
  function TrimSpace(s: string): string {
    TrimLeft(TrimRight(s))
  }

  lemma {:induction false} TrimLeftPadded(pre: string, core: string)
    requires AllSpace(pre)
    requires core == "" || !IsSpace(core[0])
    ensures TrimLeft(pre + core) == core
  {
    if pre == "" {
      assert pre + core == core;
    } else {
      assert (pre + core)[1..] == pre[1..] + core;
      TrimLeftPadded(pre[1..], core);
    }
  }

  lemma {:induction false} TrimRightPadded(core: string, post: string)
    requires AllSpace(post)
    requires core == "" || !IsSpace(core[|core| - 1])
    ensures TrimRight(core + post) == core
  {
    if post == "" {
      assert core + post == core;
    } else {
      var n := |post| - 1;
      assert (core + post)[..|core + post| - 1] == core + post[..n];
      assert (core + post)[|core + post| - 1] == post[n];
      TrimRightPadded(core, post[..n]);
    }
  }

  /** Trimming removes exactly the blanks around a text whose ends are not blank. */
  lemma TrimPadded(pre: string, core: string, post: string)
    requires AllSpace(pre) && AllSpace(post) && Trimmed(core) && core != ""
    ensures TrimSpace(pre + core + post) == core
  {
    var left := pre + core;
    assert left[|left| - 1] == core[|core| - 1];
    TrimRightPadded(left, post);
    TrimLeftPadded(pre, core);
  }

  lemma TrimBlank(s: string)
    requires AllSpace(s)
    ensures TrimSpace(s) == ""
  {
    assert "" + s == s;
    TrimRightPadded("", s);
  }

  lemma {:induction false} TrimLeftShape(s: string)
    ensures TrimLeft(s) != "" ==> !IsSpace(TrimLeft(s)[0])
    ensures |TrimLeft(s)| <= |s| && TrimLeft(s) == s[|s| - |TrimLeft(s)|..]
  {
    if s != "" && IsSpace(s[0]) {
      TrimLeftShape(s[1..]);
    }
  }

  lemma {:induction false} TrimRightShape(s: string)
    ensures TrimRight(s) != "" ==> !IsSpace(TrimRight(s)[|TrimRight(s)| - 1])
    ensures |TrimRight(s)| <= |s| && TrimRight(s) == s[..|TrimRight(s)|]
  {
    if s != "" && IsSpace(s[|s| - 1]) {
      TrimRightShape(s[..|s| - 1]);
    }
  }

  lemma TrimShape(s: string)
    ensures Trimmed(TrimSpace(s))
    ensures forall c :: c in TrimSpace(s) ==> c in s
    ensures TrimSpace(TrimSpace(s)) == TrimSpace(s)
  {
    var r := TrimRight(s);
    var t := TrimSpace(s);
    TrimRightShape(s);
    TrimLeftShape(r);
    if t != "" {
      assert t[|t| - 1] == r[|r| - 1];
      TrimPadded("", t, "");
      assert "" + t + "" == t;
    }
  }

  // ---------------------------------------------------------------- decimals

  predicate IsDigit(c: char) {
    '0' <= c <= '9'
  }

  predicate AllDigits(s: string) {
    forall c :: c in s ==> IsDigit(c)
  }

  /** `0`, or digits that do not start with `0`. */
  predicate CanonicalDecimal(s: string) {
    AllDigits(s) && s != "" && (s[0] == '0' ==> |s| == 1)
  }

  function DigitChar(d: nat): char
    requires d < 10
  {
    ('0' as int + d) as char
  }

  /** The decimal text of a natural number, as `%d` prints it. */
  function Decimal(n: nat): string
  {
    if n < 10 then [DigitChar(n)] else Decimal(n / 10) + [DigitChar(n % 10)]
  }

  /** The decimal text of an integer, as `%d` prints it. */
  function Itoa(n: int): string
  {
    if n < 0 then "-" + Decimal(-n) else Decimal(n)
  }

  // ---------------------------------------------------------------- reading decimals

  function DigitValue(c: char): nat
    requires IsDigit(c)
  {
    c as int - '0' as int
  }

  /** The number that a text of digits stands for. */
  function Value(s: string): nat
    requires AllDigits(s)
  {
    if s == "" then 0
    else
      var n := |s| - 1;
      assert s[n] in s;
      10 * Value(s[..n]) + DigitValue(s[n])
  }

  /** The text is a decimal, with a sign if it is negative, and stands for `n`. */
  predicate ReadsAs(s: string, n: int) {
    var minus := s != "" && s[0] == '-';
    var digits := if minus then s[1..] else s;
    digits != "" && AllDigits(digits) && (if minus then -n else n) == Value(digits)
  }

  lemma {:induction false} DecimalReads(n: nat)
    ensures Decimal(n) != "" && AllDigits(Decimal(n)) && Value(Decimal(n)) == n
  {
    var s := Decimal(n);
    var last := |s| - 1;
    if n >= 10 {
      DecimalReads(n / 10);
      assert s[..last] == Decimal(n / 10);
    } else {
      assert s[..last] == "";
    }
  }

  /** `%d` prints what reads as the number. */
  lemma ItoaReads(n: int)
    ensures ReadsAs(Itoa(n), n)
  {
    DecimalReads(if n < 0 then -n else n);
    if n < 0 {
      assert Itoa(n)[1..] == Decimal(-n);
    } else {
      assert Itoa(n)[0] in Itoa(n);
    }
  }

  // ---------------------------------------------------------------- order

  /** The order of `sort.Strings`. UTF-8 preserves the order of code points. */
  predicate LexLe(a: string, b: string) {
    a == "" || (b != "" && (a[0] < b[0] || (a[0] == b[0] && LexLe(a[1..], b[1..]))))
  }

  /** One text is before another when it is a part of it from the front, or when it has the smaller
      character at the first place where they differ. */
  lemma {:induction false} LexLeIff(a: string, b: string)
    ensures LexLe(a, b) <==> exists k :: LexLeAt(a, b, k)
  {
    if a == "" {
      assert LexLeAt(a, b, 0);
    } else if b != "" {
      LexLeIff(a[1..], b[1..]);
      if a[0] < b[0] {
        assert LexLeAt(a, b, 0);
      }
      if a[0] == b[0] {
        if k: nat :| LexLeAt(a[1..], b[1..], k) {
          assert a[..k + 1] == [a[0]] + a[1..][..k] && b[..k + 1] == [b[0]] + b[1..][..k];
          assert LexLeAt(a, b, k + 1);
        }
      }
      if k: nat :| LexLeAt(a, b, k) {
        if k > 0 {
          assert a[..k][0] == b[..k][0];
          assert a[1..][..k - 1] == a[..k][1..] && b[1..][..k - 1] == b[..k][1..];
          assert LexLeAt(a[1..], b[1..], k - 1);
        }
      }
    }
  }

  predicate LexLeAt(a: string, b: string, k: nat) {
    k <= |a| && k <= |b| && a[..k] == b[..k] && (k == |a| || (k < |b| && a[k] < b[k]))
  }

  lemma {:induction false} LexTotal(a: string, b: string)
    ensures LexLe(a, b) || LexLe(b, a)
    ensures LexLe(a, b) && LexLe(b, a) ==> a == b
  {
    if a != "" && b != "" && a[0] == b[0] {
      LexTotal(a[1..], b[1..]);
      assert a == [a[0]] + a[1..] && b == [b[0]] + b[1..];
    }
  }

  lemma {:induction false} LexTrans(a: string, b: string, c: string)
    requires LexLe(a, b) && LexLe(b, c)
    ensures LexLe(a, c)
  {
    if a != "" && a[0] == b[0] == c[0] {
      LexTrans(a[1..], b[1..], c[1..]);
    }
  }

  predicate Sorted(s: seq<string>) {
    forall i, j :: 0 <= i < j < |s| ==> LexLe(s[i], s[j])
  }

  predicate StrictlySorted(s: seq<string>) {
    forall i, j :: 0 <= i < j < |s| ==> LexLe(s[i], s[j]) && s[i] != s[j]
  }

  /** Puts `x` before the first element it does not exceed. */
  function Insert(x: string, s: seq<string>): (r: seq<string>)
    ensures multiset(r) == multiset(s) + multiset{x}
    ensures forall y :: y in r <==> y == x || y in s
  {
    if s == [] then [x]
    else if LexLe(x, s[0]) then [x] + s
    else
      assert s == [s[0]] + s[1..];
      [s[0]] + Insert(x, s[1..])
  }

  /** The effect of `sort.Strings` on the contents of a slice. */
  function Sort(s: seq<string>): (r: seq<string>)
    ensures multiset(r) == multiset(s)
  {
    if s == [] then []
    else
      assert s == [s[0]] + s[1..];
      Insert(s[0], Sort(s[1..]))
  }

  /** `x` may stand in front of the sorted list `s`. */
  lemma ConsSorted(x: string, s: seq<string>)
    requires Sorted(s)
    requires forall y :: y in s ==> LexLe(x, y)
    ensures Sorted([x] + s)
    ensures StrictlySorted(s) && x !in s ==> StrictlySorted([x] + s)
  {
  }

  lemma HeadIsLeast(s: seq<string>)
    requires Sorted(s) && s != []
    ensures Sorted(s[1..]) && forall y :: y in s[1..] ==> LexLe(s[0], y)
    ensures StrictlySorted(s) ==> StrictlySorted(s[1..]) && s[0] !in s[1..]
  {
    forall y | y in s[1..] ensures LexLe(s[0], y) {
      var i :| 0 <= i < |s| - 1 && y == s[1..][i];
      assert y == s[i + 1];
    }
  }

  lemma {:induction false} InsertSorted(x: string, s: seq<string>)
    requires Sorted(s)
    ensures Sorted(Insert(x, s))
    ensures StrictlySorted(s) && x !in s ==> StrictlySorted(Insert(x, s))
  {
    if s == [] {
    } else if LexLe(x, s[0]) {
      forall y | y in s ensures LexLe(x, y) {
        var i :| 0 <= i < |s| && y == s[i];
        if i > 0 { LexTrans(x, s[0], s[i]); }
      }
      ConsSorted(x, s);
    } else {
      LexTotal(x, s[0]);
      InsertSorted(x, s[1..]);
      HeadIsLeast(s);
      ConsSorted(s[0], Insert(x, s[1..]));
    }
  }

  lemma {:induction false} SortSorted(s: seq<string>)
    ensures Sorted(Sort(s))
  {
    if s != [] {
      SortSorted(s[1..]);
      InsertSorted(s[0], Sort(s[1..]));
    }
  }

  /** Equal bags of sorted strings start with the same string. */
  lemma SameHead(a: seq<string>, b: seq<string>)
    requires Sorted(a) && Sorted(b) && multiset(a) == multiset(b) && a != []
    ensures b != [] && a[0] == b[0]
  {
    assert a[0] in multiset(a);
    var i :| 0 <= i < |b| && b[i] == a[0];
    assert b[0] in multiset(b);
    var j :| 0 <= j < |a| && a[j] == b[0];
    LexTotal(a[0], b[0]);
  }

  /** A sorted arrangement of a bag of strings is unique. */
  lemma {:induction false} SortedUnique(a: seq<string>, b: seq<string>)
    requires Sorted(a) && Sorted(b) && multiset(a) == multiset(b)
    ensures a == b
  {
    if a == [] {
      assert |multiset(b)| == 0;
    } else {
      SameHead(a, b);
      assert a == [a[0]] + a[1..] && b == [b[0]] + b[1..];
      assert multiset(a[1..]) == multiset(a) - multiset{a[0]} == multiset(b[1..]);
      SortedUnique(a[1..], b[1..]);
    }
  }

  function Elements(s: seq<string>): set<string> {
    set x | x in s
  }

  /** Strictly sorted lists of the same set of strings are the same list. */
  lemma StrictlySortedUnique(a: seq<string>, b: seq<string>)
    requires StrictlySorted(a) && StrictlySorted(b) && Elements(a) == Elements(b)
    ensures a == b
  {
    forall x ensures multiset(a)[x] == multiset(b)[x] {
      OnceIn(a, x);
      OnceIn(b, x);
      assert x in a <==> x in Elements(a);
      assert x in b <==> x in Elements(b);
    }
    assert multiset(a) == multiset(b);
    SortedUnique(a, b);
  }

  lemma {:induction false} OnceIn(s: seq<string>, x: string)
    requires StrictlySorted(s)
    ensures multiset(s)[x] == if x in s then 1 else 0
  {
    if s != [] {
      OnceIn(s[1..], x);
      assert s == [s[0]] + s[1..];
    }
  }
}
