/** `internal/controller/store/ingressInfo.go`: finding the backend and the port of a service. */
module Lookup {
  import opened Results
  import opened Ingresses

  /** The ports of the service satisfy the reference, by number or by name. */
  predicate Offers(ports: seq<ServicePort>, port: PortRef) {
    exists i :: 0 <= i < |ports| && (ports[i].port == port.number || ports[i].name == port.name)
  }

  /** The port that a backend resolves to, 0 if it does not. */
  function PortOf(cluster: Cluster, b: BackendRef): int {
    if b.service in cluster && Offers(cluster[b.service], b.port) then b.port.number else 0
  }

  /** The paths from `j` on do not mention the service. */
  predicate NoMention(paths: seq<PathRule>, svc: string) {
    forall p :: p in paths ==> p.backend.service != svc
  }

  /** `b` is the first backend for `svc` in the last rule that mentions it. */
  predicate IsBackendOf(rules: seq<Rule>, svc: string, b: BackendRef, i: nat, j: nat) {
    && i < |rules| && j < |rules[i].paths|
    && rules[i].paths[j].backend == b && b.service == svc
    && NoMention(rules[i].paths[..j], svc)
    && forall k :: i < k < |rules| ==> NoMention(rules[k].paths, svc)
  }

  /** The index of the first path for `svc`, or the number of paths. */
  function FirstIndex(paths: seq<PathRule>, svc: string): (j: nat)
    ensures j <= |paths| && NoMention(paths[..j], svc)
    ensures j < |paths| ==> paths[j].backend.service == svc
  {
    if paths == [] || paths[0].backend.service == svc then 0
    else
      var j := FirstIndex(paths[1..], svc);
      assert paths[..j + 1] == [paths[0]] + paths[1..][..j];
      j + 1
  }

  function FirstMatch(paths: seq<PathRule>, svc: string): Option<BackendRef> {
    var j := FirstIndex(paths, svc);
    if j < |paths| then Some(paths[j].backend) else None
  }

  lemma FirstIndexUnique(paths: seq<PathRule>, svc: string, j: nat)
    requires j < |paths| && NoMention(paths[..j], svc) && paths[j].backend.service == svc
    ensures j == FirstIndex(paths, svc)
  {
    var k := FirstIndex(paths, svc);
  }

  /** What `GetBackend` finds; `None` stands for a backend whose service is nil. */
  function BackendOf(rules: seq<Rule>, svc: string): Option<BackendRef> {
    if rules == [] then None
    else
      var n := |rules| - 1;
      match FirstMatch(rules[n].paths, svc)
      case Some(b) => Some(b)
      case None => BackendOf(rules[..n], svc)
  }

  lemma NoMatch(paths: seq<PathRule>, svc: string)
    ensures FirstMatch(paths, svc) == None <==> NoMention(paths, svc)
  {
    var j := FirstIndex(paths, svc);
    if j < |paths| {
      assert paths[j] in paths;
    } else {
      assert paths[..j] == paths;
    }
  }

  /** The lookup finds the first match inside the last rule that mentions the service. */
  lemma {:induction false} BackendOfIff(rules: seq<Rule>, svc: string, b: BackendRef)
    ensures BackendOf(rules, svc) == Some(b) <==> exists i, j :: IsBackendOf(rules, svc, b, i, j)
    ensures BackendOf(rules, svc) == None <==> forall r :: r in rules ==> NoMention(r.paths, svc)
  {
    if rules != [] {
      var n := |rules| - 1;
      var front, paths := rules[..n], rules[n].paths;
      assert rules == front + [rules[n]];
      BackendOfIff(front, svc, b);
      NoMatch(paths, svc);
      if NoMention(paths, svc) {
        if i: nat, j: nat :| IsBackendOf(front, svc, b, i, j) {
          assert IsBackendOf(rules, svc, b, i, j);
        }
        if i: nat, j: nat :| IsBackendOf(rules, svc, b, i, j) {
          assert rules[i].paths[j] in rules[i].paths;
          assert IsBackendOf(front, svc, b, i, j);
        }
      } else {
        var j := FirstIndex(paths, svc);
        if BackendOf(rules, svc) == Some(b) {
          assert IsBackendOf(rules, svc, b, n, j);
        }
        if i: nat, k: nat :| IsBackendOf(rules, svc, b, i, k) {
          assert i == n;
          FirstIndexUnique(paths, svc, k);
        }
      }
    }
  }

  /** The nested loops, with the inner `break`. */
  method GetBackend(rules: seq<Rule>, svc: string) returns (backend: Option<BackendRef>)
    ensures backend == BackendOf(rules, svc)
  {
    backend := None;
    for i := 0 to |rules|
      invariant backend == BackendOf(rules[..i], svc)
    {
      var paths := rules[i].paths;
      var j := 0;
      ghost var before := backend;
      while j < |paths|
        invariant 0 <= j <= |paths| && backend == before
        invariant NoMention(paths[..j], svc)
      {
        if paths[j].backend.service == svc {
          FirstIndexUnique(paths, svc, j);
          backend := Some(paths[j].backend);
          break;
        }
        j := j + 1;
      }
      if j == |paths| {
        assert paths[..j] == paths;
        NoMatch(paths, svc);
      }
      assert rules[..i + 1][..i] == rules[..i];
    }
    assert rules[..|rules|] == rules;
  }

  /** The port of a backend given by value. */
  method GetSvcPort(cluster: Cluster, backend: BackendRef) returns (port: int)
    ensures port == PortOf(cluster, backend)
  {
    port := 0;
    if backend.service !in cluster {
      return;
    }
    var ports := cluster[backend.service];
    for i := 0 to |ports|
      invariant port == 0
      invariant !Offers(ports[..i], backend.port)
    {
      if ports[i].port == backend.port.number || ports[i].name == backend.port.name {
        port := backend.port.number;
        break;
      }
    }
  }

  /** The port of a service given by name: `None` when no rule mentions it, where the original
      follows a nil pointer. */
  function PortByName(cluster: Cluster, rules: seq<Rule>, svc: string): Option<int> {
    match BackendOf(rules, svc)
    case None => None
    case Some(b) => Some(PortOf(cluster, b))
  }

  method GetSvcPortByName(cluster: Cluster, rules: seq<Rule>, svc: string) returns (port: Option<int>)
    ensures port == PortByName(cluster, rules, svc)
  {
    var backend := GetBackend(rules, svc);
    if backend == None {
      return None;
    }
    var p := GetSvcPort(cluster, backend.value);
    return Some(p);
  }

  /** A backend resolves exactly when its service exists, its number is not 0, and some port of
      the service has that number or has the name of the reference. */
  lemma PortResolves(cluster: Cluster, b: BackendRef)
    ensures PortOf(cluster, b) != 0 <==>
            b.service in cluster && b.port.number != 0 &&
            exists p :: p in cluster[b.service] && (p.port == b.port.number || p.name == b.port.name)
  {
    if b.service in cluster {
      var ports := cluster[b.service];
      if p :| p in ports && (p.port == b.port.number || p.name == b.port.name) {
        var i :| 0 <= i < |ports| && ports[i] == p;
        assert ports[i].port == b.port.number || ports[i].name == b.port.name;
      }
    }
  }

  /** So a reference by name alone never resolves. */
  lemma NamedPortNeverResolves(cluster: Cluster, svc: string, name: string)
    ensures PortOf(cluster, BackendRef(svc, PortRef(name, 0))) == 0
  {
    PortResolves(cluster, BackendRef(svc, PortRef(name, 0)));
  }

  /** A service given by name has no backend, which makes the original panic, exactly when no rule
      mentions it. */
  lemma UnmentionedHasNone(cluster: Cluster, rules: seq<Rule>, svc: string)
    ensures PortByName(cluster, rules, svc) == None <==>
            forall r, p :: r in rules && p in r.paths ==> p.backend.service != svc
  {
    BackendOfIff(rules, svc, BackendRef(svc, PortRef("", 0)));
  }
}
