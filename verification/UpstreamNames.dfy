/** nginx reads the files of all ingresses together, and the names of upstreams are global: when two
    ingresses can define the same one. */
module UpstreamNames {
  import opened Results
  import opened Text
  import opened ConfNames
  import opened Ingresses
  import opened Translate
  import opened Template
  import opened Routing
  import opened WeightList

  // ---------------------------------------------------------------- names of services

  /** What Kubernetes accepts as the name of a Service: a DNS label as RFC 1035 defines it. */
  predicate IsService(s: string) {
    IsLabel(s) && 'a' <= s[0] <= 'z'
  }

  predicate ServiceList(list: seq<string>) {
    list != [] && forall i :: 0 <= i < |list| ==> IsService(list[i])
  }

  lemma JoinCons(first: string, rest: seq<string>)
    requires rest != []
    ensures Join([first] + rest, "-") == first + "-" + Join(rest, "-")
  {
    assert ([first] + rest)[1..] == rest;
  }

  /** How a join of services begins and ends. */
  lemma {:induction false} JoinEnds(list: seq<string>)
    requires ServiceList(list)
    ensures var s := Join(list, "-"); s != "" && 'a' <= s[0] <= 'z' && s[|s| - 1] != '-'
  {
    assert list == [list[0]] + list[1..];
    if |list| > 1 {
      JoinEnds(list[1..]);
      JoinCons(list[0], list[1..]);
    }
  }

  // ---------------------------------------------------------------- names of upstreams

  /** An upstream name that an ingress can define: from one service, or, with weights, from a list. */
  ghost predicate UpstreamOfKey(name: string, k: Key, weighted: bool) {
    if weighted then
      exists entries: seq<Entry> :: ServiceList(Services(entries)) &&
        name == WeightedOf(Ingress(k.name, k.namespace, []), entries).upstream
    else
      exists b: Backend :: IsService(b.name) && b.ingName == k.name && b.namespace == k.namespace && name == UpstreamName(b)
  }

  /** What stands before the base of the ingress in such a name. */
  ghost predicate NamePrefix(s: string, weighted: bool) {
    exists list :: ServiceList(list) && (weighted || |list| == 1) && s == Join(list, "-")
  }

  lemma PrefixOf(name: string, k: Key, weighted: bool)
    ensures UpstreamOfKey(name, k, weighted) <==> exists s :: NamePrefix(s, weighted) && name == s + "-" + k.Base()
  {
    var base := k.name + "-" + k.namespace;
    assert forall s: string :: s + "-" + base == s + "-" + k.name + "-" + k.namespace;
    if UpstreamOfKey(name, k, weighted) {
      if weighted {
        var entries: seq<Entry> :| ServiceList(Services(entries)) &&
          name == WeightedOf(Ingress(k.name, k.namespace, []), entries).upstream;
        assert NamePrefix(Join(Services(entries), "-"), weighted);
      } else {
        var b: Backend :| IsService(b.name) && b.ingName == k.name && b.namespace == k.namespace && name == UpstreamName(b);
        assert ServiceList([b.name]) && Join([b.name], "-") == b.name;
        assert NamePrefix(b.name, weighted);
      }
    }
    if s :| NamePrefix(s, weighted) && name == s + "-" + k.Base() {
      var list :| ServiceList(list) && (weighted || |list| == 1) && s == Join(list, "-");
      if weighted {
        var entries := seq(|list|, i requires 0 <= i < |list| => Entry(list[i], 0, "0"));
        assert Services(entries) == list;
      } else {
        var b := Backend(list[0], k.name, k.namespace, "", "", 0);
        assert UpstreamName(b) == name;
      }
    }
  }

  // ---------------------------------------------------------------- when names meet

  /** What can follow a service and a dash in such a prefix: the rest of that service, and, with
      weights, further services. */
  ghost predicate Continues(x: string, weighted: bool) {
    exists parts :: Parts(parts, weighted) && x == Join(parts, "-")
  }

  predicate Parts(parts: seq<string>, weighted: bool) {
    && parts != [] && (weighted || |parts| == 1)
    && (IsService("a-" + parts[0]) || (weighted && IsService(parts[0])))
    && forall i :: 0 < i < |parts| ==> IsService(parts[i])
  }

  ghost predicate IsBaseTail(u: string, s: string, weighted: bool) {
    EndsWith(s, "-" + u) && Continues(s[..|s| - |u| - 1], weighted)
  }

  ghost predicate BasesMeet(a: string, weightedA: bool, b: string, weightedB: bool) {
    a == b || IsBaseTail(b, a, weightedB) || IsBaseTail(a, b, weightedA)
  }

  /** What is left of a join of services behind a text that ends inside it or at one of its dashes. */
  lemma {:induction false} Remainder(s: string, x: string, list: seq<string>) returns (parts: seq<string>)
    requires ServiceList(list) && Join(list, "-") == s + "-" + x && s != "" && s[|s| - 1] != '-'
    ensures parts != [] && |parts| <= |list| && x == Join(parts, "-")
    ensures IsService("a-" + parts[0]) || (|parts| < |list| && IsService(parts[0]))
    ensures forall i :: 0 < i < |parts| ==> IsService(parts[i])
    decreases |list|
  {
    var head, rest := list[0], list[1..];
    assert list == [head] + rest;
    var w := s + "-" + x;
    if rest == [] {
      RestOfService(head, s, x);
      parts := [x];
    } else {
      var tail := Join(rest, "-");
      JoinCons(head, rest);
      assert w == head + "-" + tail;
      if |head| > |s| {
        var h := head[|s| + 1..];
        assert head[..|s|] == w[..|s|] == s && head[|s|] == w[|s|] == '-';
        assert head == s + "-" + h;
        RestOfService(head, s, h);
        assert x == w[|s| + 1..] == h + "-" + tail;
        JoinCons(h, rest);
        parts := [h] + rest;
      } else if |head| == |s| {
        assert x == w[|s| + 1..] == tail;
        parts := rest;
      } else {
        assert s[|head|] == w[|head|] == '-';
        var s1 := s[|head| + 1..];
        assert tail == w[|head| + 1..] == s1 + "-" + x;
        parts := Remainder(s1, x, rest);
      }
    }
  }

  lemma RestOfService(head: string, s: string, h: string)
    requires IsService(head) && head == s + "-" + h && s != ""
    ensures IsService("a-" + h)
  {
    assert head[|head| - 1] != '-';
    assert h != "" && h[|h| - 1] == head[|head| - 1];
    forall c | c in h ensures c in head {
      var j :| 0 <= j < |h| && h[j] == c;
      assert head[|s| + 1 + j] == c;
    }
    assert forall c :: c in "a-" + h ==> c == 'a' || c == '-' || c in h;
  }

  predicate PlainEnding(a: string) {
    a != "" && a[0] != '-'
  }

  lemma LongerBase(s: string, a: string, t: string, b: string, weighted: bool)
    requires s != "" && s[|s| - 1] != '-' && NamePrefix(t, weighted)
    requires s + "-" + a == t + "-" + b && |a| > |b| && PlainEnding(a)
    ensures IsBaseTail(b, a, weighted)
  {
    var w, i := s + "-" + a, |a| - |b| - 1;
    var x := a[..i];
    assert a == w[|s| + 1..] && "-" + b == w[|t|..];
    assert a[i..] == w[|t|..];
    assert a[i] == '-';
    assert t == w[..|t|] == s + "-" + x;
    var list :| ServiceList(list) && (weighted || |list| == 1) && t == Join(list, "-");
    var parts := Remainder(s, x, list);
    assert Parts(parts, weighted);
  }

  /** The shortest service, extended. */
  lemma Extended(x: string, weighted: bool)
    requires Continues(x, weighted)
    ensures NamePrefix("a-" + x, weighted)
  {
    var parts :| Parts(parts, weighted) && x == Join(parts, "-");
    if IsService("a-" + parts[0]) {
      ExtendedFirst(parts, weighted);
    } else {
      ExtendedList(parts);
    }
  }

  lemma ExtendedFirst(parts: seq<string>, weighted: bool)
    requires Parts(parts, weighted) && IsService("a-" + parts[0])
    ensures NamePrefix("a-" + Join(parts, "-"), weighted)
  {
    var list := ["a-" + parts[0]] + parts[1..];
    JoinFirst("a-", parts);
    assert ServiceList(list);
  }

  lemma JoinFirst(u: string, parts: seq<string>)
    requires parts != []
    ensures Join([u + parts[0]] + parts[1..], "-") == u + Join(parts, "-")
  {
    var rest := parts[1..];
    assert parts == [parts[0]] + rest;
    if rest != [] {
      JoinCons(parts[0], rest);
      JoinCons(u + parts[0], rest);
      Assoc(u, parts[0], "-", Join(rest, "-"));
    }
  }

  lemma Assoc(a: string, b: string, c: string, d: string)
    ensures a + b + c + d == a + (b + c + d)
  {
  }

  lemma ExtendedList(parts: seq<string>)
    requires Parts(parts, true) && IsService(parts[0])
    ensures NamePrefix("a-" + Join(parts, "-"), true)
  {
    var list := ["a"] + parts;
    JoinCons("a", parts);
    assert ServiceList(list) && Join(list, "-") == "a-" + Join(parts, "-");
  }

  lemma LongerPrefix(a: string, b: string, weighted: bool) returns (t: string)
    requires IsBaseTail(b, a, weighted)
    ensures NamePrefix(t, weighted) && "a" + "-" + a == t + "-" + b
  {
    var x := a[..|a| - |b| - 1];
    Extended(x, weighted);
    t := "a-" + x;
    assert a == x + ("-" + b);
  }

  lemma PlainBases(k: Key)
    requires ValidKey(k)
    ensures PlainEnding(k.Base())
  {
  }

  lemma ShortestPrefix(weighted: bool)
    ensures NamePrefix("a", weighted)
  {
    assert ServiceList(["a"]) && Join(["a"], "-") == "a";
  }

  lemma SamePrefixes(a: string, weightedA: bool, b: string, weightedB: bool) returns (s: string, t: string)
    requires BasesMeet(a, weightedA, b, weightedB)
    ensures NamePrefix(s, weightedA) && NamePrefix(t, weightedB) && s + "-" + a == t + "-" + b
  {
    ShortestPrefix(weightedA);
    ShortestPrefix(weightedB);
    s, t := "a", "a";
    if a != b {
      if IsBaseTail(b, a, weightedB) {
        t := LongerPrefix(a, b, weightedB);
      } else {
        s := LongerPrefix(b, a, weightedA);
      }
    }
  }

  lemma PrefixEnds(s: string, weighted: bool)
    requires NamePrefix(s, weighted)
    ensures s != "" && 'a' <= s[0] <= 'z' && s[|s| - 1] != '-'
  {
    var list :| ServiceList(list) && (weighted || |list| == 1) && s == Join(list, "-");
    JoinEnds(list);
  }

  lemma MeetingBases(s: string, a: string, weightedA: bool, t: string, b: string, weightedB: bool)
    requires NamePrefix(s, weightedA) && NamePrefix(t, weightedB) && s + "-" + a == t + "-" + b
    requires PlainEnding(a) && PlainEnding(b)
    ensures BasesMeet(a, weightedA, b, weightedB)
  {
    PrefixEnds(s, weightedA);
    PrefixEnds(t, weightedB);
    if |a| == |b| {
      var w := s + "-" + a;
      assert a == w[|s| + 1..] && b == w[|t| + 1..];
    } else if |a| > |b| {
      LongerBase(s, a, t, b, weightedB);
    } else {
      LongerBase(t, b, s, a, weightedA);
    }
  }

  /** Two ingresses, each with or without weights, can define the same upstream exactly when the base
      of one is the base of the other, or a tail of it behind what can follow a service in the names
      of the other. */
  lemma UpstreamNamesMeetIff(a: Key, weightedA: bool, b: Key, weightedB: bool)
    requires ValidKey(a) && ValidKey(b)
    ensures (exists name :: UpstreamOfKey(name, a, weightedA) && UpstreamOfKey(name, b, weightedB))
            <==> BasesMeet(a.Base(), weightedA, b.Base(), weightedB)
  {
    PlainBases(a);
    PlainBases(b);
    if name :| UpstreamOfKey(name, a, weightedA) && UpstreamOfKey(name, b, weightedB) {
      PrefixOf(name, a, weightedA);
      PrefixOf(name, b, weightedB);
      var s :| NamePrefix(s, weightedA) && name == s + "-" + a.Base();
      var t :| NamePrefix(t, weightedB) && name == t + "-" + b.Base();
      MeetingBases(s, a.Base(), weightedA, t, b.Base(), weightedB);
    }
    if BasesMeet(a.Base(), weightedA, b.Base(), weightedB) {
      var s, t := SamePrefixes(a.Base(), weightedA, b.Base(), weightedB);
      var name := s + "-" + a.Base();
      PrefixOf(name, a, weightedA);
      PrefixOf(name, b, weightedB);
    }
  }

  // ---------------------------------------------------------------- rendered files

  predicate ServicesValid(cluster: Cluster) {
    forall s :: s in cluster ==> IsService(s)
  }

  lemma EntriesInCluster(d: Spec)
    ensures forall i :: 0 <= i < |d.Entries()| ==> d.Entries()[i].service in d.cluster
  {
    if ParseList(d.ing, d.cluster, d.setWeight).Ok? {
      ParsedPrintable(d.ing, d.cluster, Split(d.setWeight, ','));
      var items := Canonical(d.Entries());
      forall i | 0 <= i < |d.Entries()| ensures d.Entries()[i].service in d.cluster {
        assert items[i] in items;
      }
    }
  }

  lemma {:induction false} PathServices(ing: Ingress, ann: Annotations, cluster: Cluster, rules: seq<Rule>, p: PathRule)
    requires !ann.useWeight && p in AllPaths(rules)
    requires forall i :: 0 <= i < |rules| ==> RulePasses(ing, ann, cluster, rules[i])
    ensures p.backend.service in cluster
  {
    if p in rules[0].paths {
      assert BackendFor(ing, ann, cluster, p).Ok?;
    } else {
      PathServices(ing, ann, cluster, rules[1..], p);
    }
  }

  /** The names that a rendered file defines; an empty weight list leaves nothing before the base. */
  lemma RenderedName(d: Spec, servers: seq<Server>, name: string)
    requires Compiles(d, servers) && ServicesValid(d.cluster)
    requires name in Names(Upstreams(Render(d.ann, servers)))
    ensures var k := Key(d.ing.name, d.ing.namespace);
            UpstreamOfKey(name, k, d.ann.useWeight) || (d.ann.useWeight && d.Entries() == [] && name == "-" + k.Base())
  {
    var us := Upstreams(Render(d.ann, servers));
    var n :| 0 <= n < |us| && us[n].name == name;
    if d.ann.useWeight {
      assert us[n] in us;
      WeightedUpstreams(d.ann, servers);
      WeightedName(d, servers);
    } else {
      FileUpstreams(d.ing, d.ann, d.cluster, d.tls, d.ing.rules, servers);
      PathName(d, servers, n);
    }
  }

  lemma WeightedName(d: Spec, servers: seq<Server>)
    requires Compiles(d, servers) && ServicesValid(d.cluster) && d.ann.useWeight
    ensures var (k, name) := (Key(d.ing.name, d.ing.namespace), d.ann.weighted.upstream);
            UpstreamOfKey(name, k, true) || (d.Entries() == [] && name == "-" + k.Base())
  {
    var k, entries := Key(d.ing.name, d.ing.namespace), d.Entries();
    EntriesInCluster(d);
    assert d.ann.weighted.upstream == WeightedOf(Ingress(k.name, k.namespace, []), entries).upstream;
    if entries == [] {
      assert Services(entries) == [];
      assert "" + "-" + k.name + "-" + k.namespace == "-" + k.Base();
    } else {
      assert ServiceList(Services(entries));
    }
  }

  lemma PathName(d: Spec, servers: seq<Server>, n: nat)
    requires Compiles(d, servers) && ServicesValid(d.cluster) && !d.ann.useWeight
    requires n < |AllPaths(d.ing.rules)|
    ensures UpstreamOfKey(UpstreamFor(d.ing, d.cluster, AllPaths(d.ing.rules)[n]).name,
                          Key(d.ing.name, d.ing.namespace), false)
  {
    var p := AllPaths(d.ing.rules)[n];
    PathServices(d.ing, d.ann, d.cluster, d.ing.rules, p);
    var b := Backend(p.backend.service, d.ing.name, d.ing.namespace, "", "", 0);
    assert UpstreamFor(d.ing, d.cluster, p).name == UpstreamName(b);
  }

  /** The rendered files of two ingresses whose bases do not meet define no upstream in common. */
  lemma FilesDoNotMeet(d: Spec, serversD: seq<Server>, e: Spec, serversE: seq<Server>, name: string)
    requires Compiles(d, serversD) && Compiles(e, serversE) && ServicesValid(d.cluster) && ServicesValid(e.cluster)
    requires ValidKey(Key(d.ing.name, d.ing.namespace)) && ValidKey(Key(e.ing.name, e.ing.namespace))
    requires !BasesMeet(Key(d.ing.name, d.ing.namespace).Base(), d.ann.useWeight,
                        Key(e.ing.name, e.ing.namespace).Base(), e.ann.useWeight)
    ensures !(name in Names(Upstreams(Render(d.ann, serversD))) && name in Names(Upstreams(Render(e.ann, serversE))))
  {
    var a, b := Key(d.ing.name, d.ing.namespace), Key(e.ing.name, e.ing.namespace);
    if name in Names(Upstreams(Render(d.ann, serversD))) && name in Names(Upstreams(Render(e.ann, serversE))) {
      RenderedName(d, serversD, name);
      RenderedName(e, serversE, name);
      UpstreamNamesMeetIff(a, d.ann.useWeight, b, e.ann.useWeight);
      NameStart(name, a, d.ann.useWeight);
      NameStart(name, b, e.ann.useWeight);
    }
  }

  lemma NameStart(name: string, k: Key, weighted: bool)
    ensures UpstreamOfKey(name, k, weighted) ==> name != "" && name[0] != '-'
    ensures name == "-" + k.Base() ==> name[1..] == k.Base()
  {
    PrefixOf(name, k, weighted);
    if UpstreamOfKey(name, k, weighted) {
      var s :| NamePrefix(s, weighted) && name == s + "-" + k.Base();
      PrefixEnds(s, weighted);
    }
  }
}
