/** `api/v1/ingress_webhook.go`: what the validating webhook admits, and what it does to the object
    it validates. */
module Admission {
  import opened Results
  import opened Text
  import opened Validators

  const PROXY_HOST_KEY := "ingress.nginx.kubebuilder.io/proxy-host"
  const USE_WEIGHT_KEY := "ingress.nginx.kubebuilder.io/use-weight"

  type Annotations = map<string, string>

  datatype Verdict = Admitted | NoBackend | BadHost | DuplicatePath | Panic

  /** The HTTP part of a rule; the rule holds a pointer to it. */
  class HttpRule {
    var paths: seq<string>

    constructor (paths: seq<string>)
      ensures this.paths == paths
    {
      this.paths := paths;
    }
  }

  datatype HostRule = HostRule(host: string, http: HttpRule?)

  /** A rule as it is at one moment; `None` for the null pointer. */
  datatype Snapshot = Snapshot(host: string, paths: Option<seq<string>>)

  ghost function Now(r: HostRule): Snapshot
    reads r.http
  {
    Snapshot(r.host, if r.http == null then None else Some(r.http.paths))
  }

  ghost function AllNow(rules: seq<HostRule>): seq<Snapshot>
    reads set r | r in rules && r.http != null :: r.http
  {
    seq(|rules|, i requires 0 <= i < |rules| reads set r | r in rules && r.http != null :: r.http => Now(rules[i]))
  }

  /** The HTTP parts of different rules are different objects. */
  ghost predicate Unshared(rules: seq<HostRule>) {
    forall i, j :: 0 <= i < |rules| && 0 <= j < |rules| && i != j && rules[i].http != null ==>
      rules[i].http != rules[j].http
  }

  // ---------------------------------------------------------------- the rules of admission

  /** `strconv.ParseBool` returns true. */
  predicate ParsesTrue(s: string) {
    s == "1" || s == "t" || s == "T" || s == "TRUE" || s == "true" || s == "True"
  }

  function Value(ann: Annotations, key: string): string {
    if key in ann then ann[key] else ""
  }

  /** Weights are on and there is no proxy path: the first path met ends the check. */
  predicate Shortcut(ann: Annotations) {
    ParsesTrue(Value(ann, USE_WEIGHT_KEY)) && Value(ann, PROXY_HOST_KEY) == ""
  }

  /** The path list of a rule once the value of the proxy annotation is appended. */
  function Extended(paths: seq<string>, ann: Annotations): seq<string> {
    if PROXY_HOST_KEY in ann then paths + [ann[PROXY_HOST_KEY]] else paths
  }

  predicate Adjacent(paths: seq<string>) {
    exists i :: 0 <= i < |paths| - 1 && paths[i] == paths[i + 1]
  }

  /** The first path is not empty and no path repeats the one before it. */
  predicate Accepts(paths: seq<string>) {
    (paths != [] ==> paths[0] != "") && !Adjacent(paths)
  }

  predicate HostFits(r: Snapshot, ann: Annotations) {
    PROXY_HOST_KEY in ann ==> IsValidHost(r.host)
  }

  /** The check goes on to the next rule. */
  predicate Passes(r: Snapshot, ann: Annotations) {
    HostFits(r, ann) && r.paths.Some? &&
    var list := Extended(r.paths.value, ann);
    list == [] || (!Shortcut(ann) && Accepts(list))
  }

  /** The verdict of the rule that ends the check. */
  function Ends(r: Snapshot, ann: Annotations): Verdict
    requires !Passes(r, ann)
  {
    if !HostFits(r, ann) then BadHost
    else if r.paths == None then Panic
    else if Shortcut(ann) then Admitted
    else DuplicatePath
  }

  /** The number of rules before the one that ends the check. */
  function Passed(rules: seq<Snapshot>, ann: Annotations): (n: nat)
    ensures n <= |rules|
    ensures forall i :: 0 <= i < n ==> Passes(rules[i], ann)
    ensures n < |rules| ==> !Passes(rules[n], ann)
  {
    if rules == [] || !Passes(rules[0], ann) then 0
    else
      var n := Passed(rules[1..], ann);
      assert forall i :: 0 < i < n + 1 ==> rules[i] == rules[1..][i - 1];
      n + 1
  }

  lemma PassedUnique(rules: seq<Snapshot>, ann: Annotations, n: nat)
    requires n <= |rules|
    requires forall i :: 0 <= i < n ==> Passes(rules[i], ann)
    requires n < |rules| ==> !Passes(rules[n], ann)
    ensures Passed(rules, ann) == n
  {
  }

  function PathVerdict(rules: seq<Snapshot>, ann: Annotations): Verdict {
    var n := Passed(rules, ann);
    if n == |rules| then Admitted else Ends(rules[n], ann)
  }

  /** A rule after the check reached its paths. */
  function Appended(r: Snapshot, ann: Annotations): Snapshot {
    if r.paths == None then r else r.(paths := Some(Extended(r.paths.value, ann)))
  }

  /** The rules after the check: extended up to the one that ends it, unless that one fails on its
      host. */
  function After(rules: seq<Snapshot>, ann: Annotations): (later: seq<Snapshot>)
    ensures |later| == |rules|
  {
    var n := Passed(rules, ann);
    seq(|rules|, i requires 0 <= i < |rules| =>
      if i < n || (i == n && HostFits(rules[i], ann)) then Appended(rules[i], ann) else rules[i])
  }

  // ---------------------------------------------------------------- the code

  /** The loop over one path list. */
  method CheckPaths(paths: seq<string>, ann: Annotations) returns (end: Option<Verdict>)
    ensures end == if paths == [] then None
                   else if Shortcut(ann) then Some(Admitted)
                   else if Accepts(paths) then None
                   else Some(DuplicatePath)
  {
    var path := "";
    for i := 0 to |paths|
      invariant i > 0 ==> !Shortcut(ann)
      invariant path == if i == 0 then "" else paths[i - 1]
      invariant i > 0 ==> paths[0] != ""
      invariant forall j :: 0 <= j < i - 1 ==> paths[j] != paths[j + 1]
    {
      if ParsesTrue(Value(ann, USE_WEIGHT_KEY)) && Value(ann, PROXY_HOST_KEY) == "" {
        return Some(Admitted);
      }
      if paths[i] == path {
        assert i > 0 ==> paths[i - 1] == paths[i - 1 + 1];
        return Some(DuplicatePath);
      }
      path := paths[i];
    }
    return None;
  }

  /** One turn of the loop of `ValidPathAndHost`: the proxy path is appended to the rule's own list,
      through the pointer. */
  method CheckRule(r: HostRule, ann: Annotations) returns (end: Option<Verdict>)
    modifies if r.http == null then {} else {r.http}
    ensures end == if Passes(old(Now(r)), ann) then None else Some(Ends(old(Now(r)), ann))
    ensures Now(r) == if HostFits(old(Now(r)), ann) then Appended(old(Now(r)), ann) else old(Now(r))
  {
    if PROXY_HOST_KEY in ann && !IsValidHost(r.host) {
      return Some(BadHost);
    }
    if r.http == null {
      return Some(Panic);
    }
    if PROXY_HOST_KEY in ann {
      r.http.paths := r.http.paths + [ann[PROXY_HOST_KEY]];
    }
    end := CheckPaths(r.http.paths, ann);
  }

  /** `ValidPathAndHost`. */
  method ValidPathAndHost(rules: seq<HostRule>, ann: Annotations) returns (verdict: Verdict)
    requires Unshared(rules)
    modifies set r | r in rules && r.http != null :: r.http
    ensures verdict == PathVerdict(old(AllNow(rules)), ann)
    ensures AllNow(rules) == After(old(AllNow(rules)), ann)
  {
    ghost var before := AllNow(rules);
    for i := 0 to |rules|
      invariant forall j :: 0 <= j < i ==> Passes(before[j], ann) && Now(rules[j]) == Appended(before[j], ann)
      invariant forall j :: i <= j < |rules| ==> Now(rules[j]) == before[j]
    {
      label turn:
      var end := CheckRule(rules[i], ann);
      forall j | 0 <= j < |rules| && j != i ensures Now(rules[j]) == old@turn(Now(rules[j])) {
        assert rules[j].http == null || rules[j].http != rules[i].http;
      }
      if end.Some? {
        PassedUnique(before, ann, i);
        return end.value;
      }
    }
    PassedUnique(before, ann, |rules|);
    return Admitted;
  }

  /** `ValidData`. */
  method ValidData(hasDefaultBackend: bool, rules: seq<HostRule>, ann: Annotations) returns (verdict: Verdict)
    requires Unshared(rules)
    modifies set r | r in rules && r.http != null :: r.http
    ensures verdict == if !hasDefaultBackend && rules == [] then NoBackend else PathVerdict(old(AllNow(rules)), ann)
    ensures AllNow(rules) == After(old(AllNow(rules)), ann)
  {
    if !hasDefaultBackend && |rules| == 0 {
      return NoBackend;
    }
    verdict := ValidPathAndHost(rules, ann);
  }

  // ---------------------------------------------------------------- what is admitted

  /** No path occurs twice. */
  predicate Distinct(paths: seq<string>) {
    forall i, j :: 0 <= i < j < |paths| ==> paths[i] != paths[j]
  }

  /** Equal paths stand together. */
  predicate Grouped(paths: seq<string>) {
    forall i, j, k :: 0 <= i < j < k < |paths| && paths[i] == paths[k] ==> paths[j] == paths[k]
  }

  /** Among the lists the loop accepts, those without duplicates are exactly the grouped ones. */
  lemma AcceptedIsDistinctIff(paths: seq<string>)
    requires Accepts(paths)
    ensures Distinct(paths) <==> Grouped(paths)
  {
    if Grouped(paths) {
      forall i, j | 0 <= i < j < |paths| ensures paths[i] != paths[j] {
        assert paths[j - 1] != paths[j - 1 + 1];
      }
    }
  }

  /** On grouped lists the loop decides exactly what its message promises. */
  lemma GroupedIsDecided(paths: seq<string>)
    requires Grouped(paths)
    ensures Accepts(paths) <==> Distinct(paths) && (paths != [] ==> paths[0] != "")
  {
    if Accepts(paths) {
      AcceptedIsDistinctIff(paths);
    }
  }

  /** On the sorted list the loop finds every duplicate and every empty path. */
  lemma SortedIsDecided(paths: seq<string>)
    ensures Accepts(Sort(paths)) <==> Distinct(paths) && "" !in paths
  {
    SortSorted(paths);
    var s := Sort(paths);
    forall i, j, k | 0 <= i < j < k < |s| && s[i] == s[k] ensures s[j] == s[k] {
      SortedBetween(s, i, j, k);
    }
    GroupedIsDecided(s);
    DistinctIsAboutTheBag(s, paths);
    if "" in paths {
      assert "" in multiset(s);
      var i :| 0 <= i < |s| && s[i] == "";
      if i > 0 {
        SortedBetween(s, 0, i, i);
        assert s[0] == "";
      }
      assert s[0] == "";
    } else if s != [] {
      assert s[0] in multiset(paths);
    }
  }

  lemma SortedBetween(s: seq<string>, i: nat, j: nat, k: nat)
    requires Sorted(s) && i < j <= k < |s|
    ensures s[i] == s[k] ==> s[j] == s[k]
    ensures s[j] == "" ==> s[i] == ""
  {
    LexTotal(s[i], s[j]);
    LexTotal(s[j], s[k]);
  }

  lemma DistinctIsAboutTheBag(a: seq<string>, b: seq<string>)
    requires multiset(a) == multiset(b)
    ensures Distinct(a) <==> Distinct(b)
  {
    DistinctIff(a);
    DistinctIff(b);
    assert forall x :: x in multiset(a) <==> x in multiset(b);
  }

  lemma {:induction false} DistinctIff(a: seq<string>)
    ensures Distinct(a) <==> forall x :: multiset(a)[x] <= 1
  {
    if a != [] {
      var rest := a[1..];
      DistinctIff(rest);
      assert a == [a[0]] + rest;
      assert multiset(a) == multiset{a[0]} + multiset(rest);
      if Distinct(a) {
        assert forall i :: 0 <= i < |rest| ==> rest[i] == a[i + 1];
        assert a[0] !in rest;
        assert multiset(rest)[a[0]] == 0;
      }
      if forall x :: multiset(a)[x] <= 1 {
        assert forall x :: multiset(rest)[x] <= multiset(a)[x];
        assert a[0] !in multiset(rest);
        assert a[0] !in rest;
        assert forall i :: 0 < i < |a| ==> a[i] == rest[i - 1];
        assert Distinct(rest);
      }
    }
  }

  /** A path that comes back after another one is admitted. */
  lemma SeparatedDuplicateIsAdmitted()
    ensures var paths := ["/a", "/b", "/a"];
            Accepts(paths) && !Distinct(paths) && PathVerdict([Snapshot("h", Some(paths))], map[]) == Admitted
  {
    var paths := ["/a", "/b", "/a"];
    assert !Distinct(paths) by { assert paths[0] == paths[2]; }
    assert Accepts(paths);
    PassedUnique([Snapshot("h", Some(paths))], map[], 1);
  }

  /** Without weights, a spec passes exactly when every host fits and every list, extended by the
      proxy path, is accepted. */
  lemma AdmittedIff(rules: seq<Snapshot>, ann: Annotations)
    requires !Shortcut(ann)
    ensures PathVerdict(rules, ann) == Admitted <==>
            forall i :: 0 <= i < |rules| ==>
              && HostFits(rules[i], ann)
              && rules[i].paths.Some?
              && Accepts(Extended(rules[i].paths.value, ann))
  {
    if PathVerdict(rules, ann) != Admitted {
      assert !Passes(rules[Passed(rules, ann)], ann);
    } else {
      forall i | 0 <= i < |rules|
        ensures HostFits(rules[i], ann) && rules[i].paths.Some? && Accepts(Extended(rules[i].paths.value, ann)) {
        assert Passes(rules[i], ann);
      }
    }
  }

  /** What each verdict says: rules before some rule pass, and that one has a host that does not fit, or
      no HTTP part, or is the first with a path while weights are on, or repeats a path or begins with
      an empty one. */
  lemma VerdictMeans(rules: seq<Snapshot>, ann: Annotations, n: nat)
    requires n < |rules| && !Passes(rules[n], ann) && forall i :: 0 <= i < n ==> Passes(rules[i], ann)
    ensures var (r, verdict) := (rules[n], PathVerdict(rules, ann));
            var misfit := PROXY_HOST_KEY in ann && !IsValidHost(r.host);
            && (verdict == BadHost <==> misfit)
            && (verdict == Panic <==> !misfit && r.paths == None)
            && (verdict == Admitted <==> !misfit && r.paths.Some? && Shortcut(ann))
            && (verdict == DuplicatePath <==>
                  !misfit && r.paths.Some? && !Shortcut(ann) && !Accepts(Extended(r.paths.value, ann)))
  {
    PassedUnique(rules, ann, n);
  }

  /** What the check does to the object: a rule has the value appended exactly when all rules before it
      pass and its own host fits; nothing else changes. */
  lemma AfterMeans(rules: seq<Snapshot>, ann: Annotations, i: nat)
    requires i < |rules|
    ensures var (before, later) := (rules[i], After(rules, ann)[i]);
            && later.host == before.host
            && (PROXY_HOST_KEY in ann && before.paths.Some? ==>
                  (later.paths == Some(before.paths.value + [ann[PROXY_HOST_KEY]]) <==>
                   IsValidHost(before.host) && forall k :: 0 <= k < i ==> Passes(rules[k], ann)))
            && (later != before ==>
                  PROXY_HOST_KEY in ann && before.paths.Some? &&
                  later.paths == Some(before.paths.value + [ann[PROXY_HOST_KEY]]))
  {
    var n := Passed(rules, ann);
    if rules[i].paths.Some? && PROXY_HOST_KEY in ann {
      assert |rules[i].paths.value + [ann[PROXY_HOST_KEY]]| != |rules[i].paths.value|;
    }
    if n < i {
      assert !Passes(rules[n], ann);
    } else if i < n {
      assert Passes(rules[i], ann);
    }
  }

  /** The proxy path is compared with the last path only. */
  lemma ProxyPathMeetsLastOnly(paths: seq<string>, ann: Annotations)
    requires PROXY_HOST_KEY in ann
    ensures Accepts(Extended(paths, ann)) <==>
            Accepts(paths) && ann[PROXY_HOST_KEY] != if paths == [] then "" else paths[|paths| - 1]
  {
    AdjacentSnoc(paths, ann[PROXY_HOST_KEY]);
    if paths != [] {
      assert Extended(paths, ann)[0] == paths[0];
    }
  }

  lemma AdjacentAt(paths: seq<string>, i: nat)
    requires i + 1 < |paths| && paths[i] == paths[i + 1]
    ensures Adjacent(paths)
  {
  }

  lemma AdjacentSnoc(paths: seq<string>, last: string)
    ensures Adjacent(paths + [last]) <==> Adjacent(paths) || (paths != [] && paths[|paths| - 1] == last)
  {
    var list, n := paths + [last], |paths|;
    if i :| 0 <= i < n - 1 && paths[i] == paths[i + 1] {
      AdjacentAt(list, i);
    }
    if n > 0 && paths[n - 1] == last {
      AdjacentAt(list, n - 1);
    }
    if i :| 0 <= i < |list| - 1 && list[i] == list[i + 1] {
      if i < n - 1 {
        AdjacentAt(paths, i);
      }
    }
  }

  /** With weights on and no proxy annotation every spec whose rules have an HTTP part is admitted,
      whatever its paths. */
  lemma WeightsAdmitEverything(rules: seq<Snapshot>, ann: Annotations)
    requires ParsesTrue(Value(ann, USE_WEIGHT_KEY)) && PROXY_HOST_KEY !in ann
    requires forall i :: 0 <= i < |rules| ==> rules[i].paths.Some?
    ensures PathVerdict(rules, ann) == Admitted
    ensures After(rules, ann) == rules
  {
  }

  /** Calling the check twice on one object: the appended path is never taken out again, so an
      admitted object is admitted again exactly when nothing was appended or nothing is looked at. */
  lemma SecondCallIff(rules: seq<Snapshot>, ann: Annotations)
    requires PathVerdict(rules, ann) == Admitted
    ensures PathVerdict(After(rules, ann), ann) ==
            if PROXY_HOST_KEY !in ann || Shortcut(ann) || rules == [] then Admitted else DuplicatePath
  {
    var later := After(rules, ann);
    if rules == [] || PROXY_HOST_KEY !in ann {
      assert later == rules;
    } else if Shortcut(ann) {
      assert !Passes(rules[0], ann);
      assert later[0] == Appended(rules[0], ann);
      PassedUnique(later, ann, 0);
    } else {
      SecondCallRepeats(rules, ann);
    }
  }

  lemma SecondCallRepeats(rules: seq<Snapshot>, ann: Annotations)
    requires PathVerdict(rules, ann) == Admitted
    requires PROXY_HOST_KEY in ann && !Shortcut(ann) && rules != []
    ensures PathVerdict(After(rules, ann), ann) == DuplicatePath
  {
    AdmittedIff(rules, ann);
    var paths := rules[0].paths.value;
    assert Passes(rules[0], ann);
    var later := After(rules, ann);
    assert Passed(rules, ann) > 0;
    assert later[0] == Appended(rules[0], ann);
    var twice := Extended(Extended(paths, ann), ann);
    ProxyPathMeetsLastOnly(Extended(paths, ann), ann);
    assert !Accepts(twice);
    PassedUnique(later, ann, 0);
  }
}
