/** The allow list and the deny list, `internal/annotations/ipallowlist` and `ipdenylist`: the two
    parsers run the same algorithm on their own annotation. */
module IpList {
  import opened Results
  import opened Text
  import opened Validators

  /** The trimmed entries between commas that are not blank. */
  function Aliases(val: string): set<string> {
    set part | part in Split(val, ',') && TrimSpace(part) != "" :: TrimSpace(part)
  }

  predicate AllAddresses(val: string) {
    forall alias :: alias in Aliases(val) ==> PassIsIp(alias)
  }

  /** `l` is the list that a successful parse of `val` returns. */
  predicate ParsesTo(val: string, l: seq<string>) {
    AllAddresses(val) && StrictlySorted(l) && Elements(l) == Aliases(val)
  }

  /** `sets.String.List`: the elements in order. */
  method List(aliases: set<string>) returns (l: seq<string>)
    ensures StrictlySorted(l) && Elements(l) == aliases
  {
    l := [];
    var rest := aliases;
    while rest != {}
      invariant StrictlySorted(l) && Elements(l) == aliases - rest && rest <= aliases
      decreases rest
    {
      var x :| x in rest;
      assert x !in Elements(l);
      InsertSorted(x, l);
      assert Elements(Insert(x, l)) == Elements(l) + {x};
      l := Insert(x, l);
      rest := rest - {x};
    }
  }

  /** `Parse`: split, trim, skip blanks, refuse what is not an address, insert into a set. */
  method Parse(val: string) returns (r: Result<seq<string>, string>)
    ensures r.Ok? <==> AllAddresses(val)
    ensures r.Ok? ==> ParsesTo(val, r.value)
    ensures r.Err? ==> r.error in Aliases(val) && !PassIsIp(r.error)
  {
    var parts := Split(val, ',');
    var aliases: set<string> := {};
    for i := 0 to |parts|
      invariant forall a :: a in aliases ==> PassIsIp(a) && a in Aliases(val)
      invariant forall k :: 0 <= k < i && TrimSpace(parts[k]) != "" ==> TrimSpace(parts[k]) in aliases
    {
      var alias := TrimSpace(parts[i]);
      if alias == "" {
        continue;
      }
      assert parts[i] in parts;
      assert alias in Aliases(val);
      if !PassIsIp(alias) {
        return Err(alias);
      }
      if alias !in aliases {
        aliases := aliases + {alias};
      }
    }
    forall a | a in Aliases(val) ensures a in aliases {
      var part :| part in parts && TrimSpace(part) != "" && TrimSpace(part) == a;
      var k :| 0 <= k < |parts| && parts[k] == part;
    }
    assert aliases == Aliases(val);
    var l := List(aliases);
    return Ok(l);
  }

  /** Whether a value is accepted, and the list it gives, depend only on the set of its entries. */
  lemma DependsOnSet(val: string, other: string, l: seq<string>, m: seq<string>)
    requires Aliases(val) == Aliases(other)
    ensures AllAddresses(val) <==> AllAddresses(other)
    ensures ParsesTo(val, l) && ParsesTo(other, m) ==> l == m
  {
    if ParsesTo(val, l) && ParsesTo(other, m) {
      StrictlySortedUnique(l, m);
    }
  }

  /** The list is a normal form: joined with commas and parsed again it gives itself, and nothing else. */
  lemma Canonical(val: string, l: seq<string>, m: seq<string>)
    requires ParsesTo(val, l)
    ensures ParsesTo(Join(l, ","), m) <==> m == l
  {
    if l == [] {
      assert Split("", ',') == [""];
      TrimBlank("");
      assert Aliases(Join(l, ",")) == {};
    } else {
      forall x | x in l ensures ',' !in x && TrimSpace(x) == x && x != "" {
        assert x in Elements(l);
        var part :| part in Split(val, ',') && TrimSpace(part) != "" && TrimSpace(part) == x;
        SplitParts(val, ',');
        TrimShape(part);
      }
      SplitJoin(l, ',');
      assert Aliases(Join(l, ",")) == Elements(l);
    }
    if ParsesTo(Join(l, ","), m) {
      StrictlySortedUnique(l, m);
    }
  }

  /** A value that lists an address with a mask anywhere, the form the source's own comment shows
      for two, is refused. */
  lemma MaskedListIsRefused(val: string, part: string, a: string, b: string, c: string, d: string, mask: string)
    requires part in Split(val, ',') && TrimSpace(part) == a + "." + b + "." + c + "." + d + "/" + mask
    ensures !AllAddresses(val)
  {
    MaskIsRefused(a, b, c, d, mask);
    assert TrimSpace(part) in Aliases(val);
  }

  /** An entry of a list as it may be written: blanks around it, or nothing but blanks. */
  datatype Padded = Padded(before: string, entry: string, after: string)

  predicate Writable(p: Padded) {
    AllSpace(p.before) && AllSpace(p.after) && Trimmed(p.entry) && ',' !in p.entry
  }

  function Write(list: seq<Padded>): string {
    Join(Texts(list), ",")
  }

  function Texts(list: seq<Padded>): seq<string> {
    seq(|list|, i requires 0 <= i < |list| => list[i].before + list[i].entry + list[i].after)
  }

  /** What a written list means: exactly its entries, whatever blanks stand around them and between. */
  lemma WrittenList(list: seq<Padded>)
    requires list != [] && forall p :: p in list ==> Writable(p)
    ensures Aliases(Write(list)) == set p | p in list && p.entry != "" :: p.entry
  {
    var texts := Texts(list);
    forall i | 0 <= i < |list| ensures ',' !in texts[i] && TrimSpace(texts[i]) == list[i].entry {
      assert Writable(list[i]);
      PaddedText(list[i]);
    }
    SplitJoin(texts, ',');
    forall a ensures a in Aliases(Write(list)) <==> exists p :: p in list && p.entry != "" && p.entry == a {
      if a in Aliases(Write(list)) {
        var part :| part in texts && TrimSpace(part) != "" && TrimSpace(part) == a;
        var i :| 0 <= i < |texts| && texts[i] == part;
        assert list[i] in list;
      }
      if p :| p in list && p.entry != "" && p.entry == a {
        var i :| 0 <= i < |list| && list[i] == p;
        assert texts[i] in texts;
      }
    }
  }

  lemma PaddedText(p: Padded)
    requires Writable(p)
    ensures ',' !in p.before + p.entry + p.after
    ensures TrimSpace(p.before + p.entry + p.after) == p.entry
  {
    if p.entry == "" {
      assert p.before + p.entry + p.after == p.before + p.after;
      TrimBlank(p.before + p.after);
    } else {
      TrimPadded(p.before, p.entry, p.after);
    }
  }
}
