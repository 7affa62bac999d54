/** `pkg/resources/resources.go`: the issuer and the certificate of an Ingress without TLS settings. */
module Certificates {
  import opened Results
  import opened Text
  import opened Ingresses

  /** A certificate; `None` when its `dnsNames` is absent. */
  datatype Certificate = Certificate(dnsNames: Option<seq<string>>)

  datatype Error = WriteRefused | SecretMissing

  /** Which writes the API server refuses. */
  datatype Api = Api(createIssuer: bool, createCert: bool, updateCert: bool)

  /** `GetHostName`: the hosts of the rules, in order. */
  function Hosts(rules: seq<Rule>): (hosts: seq<string>)
    ensures |hosts| == |rules| && forall i :: 0 <= i < |rules| ==> hosts[i] == rules[i].host
  {
    seq(|rules|, i requires 0 <= i < |rules| => rules[i].host)
  }

  /** `sort.Strings`, in place. */
  method SortStrings(a: array<string>)
    modifies a
    ensures a[..] == Sort(old(a[..]))
  {
    var s := Sort(a[..]);
    assert |multiset(s)| == |multiset(a[..])|;
    for i := 0 to a.Length
      invariant forall k :: 0 <= k < i ==> a[k] == s[k]
    {
      a[i] := s[i];
    }
    assert a[..] == s;
  }

  /** `domainComparison`: both slices are sorted, then compared element by element. */
  method DomainComparison(d1: array<string>, d2: array<string>) returns (same: bool)
    requires d1 != d2
    modifies d1, d2
    ensures same <==> multiset(old(d1[..])) == multiset(old(d2[..]))
    ensures d1[..] == Sort(old(d1[..])) && d2[..] == Sort(old(d2[..]))
  {
    SortedEqualIff(d1[..], d2[..]);
    SortStrings(d1);
    SortStrings(d2);
    same := d1[..] == d2[..];
  }

  /** The comparison on fresh slices; the slice of hosts comes back sorted. */
  method CompareHosts(hosts: seq<string>, names: seq<string>) returns (same: bool, sorted: seq<string>)
    ensures same <==> multiset(hosts) == multiset(names)
    ensures sorted == Sort(hosts)
  {
    var d1 := new string[|hosts|](i requires 0 <= i < |hosts| => hosts[i]);
    var d2 := new string[|names|](i requires 0 <= i < |names| => names[i]);
    assert d1[..] == hosts && d2[..] == names;
    same := DomainComparison(d1, d2);
    sorted := d1[..];
  }

  /** Sorting and comparing decides whether two lists hold the same names equally often. */
  lemma SortedEqualIff(a: seq<string>, b: seq<string>)
    ensures Sort(a) == Sort(b) <==> multiset(a) == multiset(b)
  {
    SortSorted(a);
    SortSorted(b);
    if multiset(a) == multiset(b) {
      SortedUnique(Sort(a), Sort(b));
    }
  }

  /** The resources of one Ingress in the cluster. */
  class Resources {
    var issuer: bool
    var cert: Option<Certificate>
    var secret: bool
    var writes: nat

    /** The names of the certificate, if it has any. */
    function Names(): Option<seq<string>>
      reads this
    {
      match cert case None => None case Some(c) => c.dnsNames
    }

    method ReconcileIssuer(api: Api) returns (err: Option<Error>)
      modifies this`issuer, this`writes
      ensures err == if old(issuer) || api.createIssuer then None else Some(WriteRefused)
      ensures issuer == (old(issuer) || api.createIssuer)
      ensures writes == old(writes) + if !old(issuer) && api.createIssuer then 1 else 0
    {
      if !issuer {
        if !api.createIssuer {
          return Some(WriteRefused);
        }
        issuer := true;
        writes := writes + 1;
      }
      return None;
    }

    /** A new certificate gets the hosts in rule order; one without names is left alone; one with
        names is rewritten, with the hosts sorted, unless it holds the same hosts already. */
    method ReconcileCert(rules: seq<Rule>, api: Api) returns (err: Option<Error>)
      modifies this`cert, this`writes
      ensures (cert, writes, err) == CertPass(old(cert), old(writes), secret, rules, api)
    {
      if cert == None {
        if !api.createCert {
          return Some(WriteRefused);
        }
        cert := Some(Certificate(Some(Hosts(rules))));
        writes := writes + 1;
        return if secret then None else Some(SecretMissing);
      }
      if cert.value.dnsNames == None {
        return None;
      }
      var same, sorted := CompareHosts(Hosts(rules), cert.value.dnsNames.value);
      if !same {
        if !api.updateCert {
          return Some(WriteRefused);
        }
        cert := Some(Certificate(Some(sorted)));
        writes := writes + 1;
        return if secret then None else Some(SecretMissing);
      }
      return None;
    }

    /** `ReconcileResource`, for an Ingress with or without TLS settings of its own. */
    method Reconcile(rules: seq<Rule>, ownTls: bool, api: Api) returns (err: Option<Error>)
      modifies this`issuer, this`cert, this`writes
      ensures rules == [] || ownTls ==> err == None && issuer == old(issuer) && cert == old(cert) && writes == old(writes)
      ensures rules != [] && !ownTls && !old(issuer) && !api.createIssuer ==>
                err == Some(WriteRefused) && cert == old(cert) && writes == old(writes)
      ensures rules != [] && !ownTls && (old(issuer) || api.createIssuer) ==>
                issuer && (cert, writes, err) ==
                CertPass(old(cert), old(writes) + (if old(issuer) then 0 else 1), secret, rules, api)
    {
      err := None;
      if rules == [] || ownTls {
        return;
      }
      err := ReconcileIssuer(api);
      if err.Some? {
        return;
      }
      err := ReconcileCert(rules, api);
    }
  }

  /** The effect of one pass over the certificate. */
  function CertPass(cert: Option<Certificate>, writes: nat, secret: bool, rules: seq<Rule>, api: Api)
    : (Option<Certificate>, nat, Option<Error>)
  {
    var done := if secret then None else Some(SecretMissing);
    match cert
    case None =>
      if !api.createCert then (cert, writes, Some(WriteRefused))
      else (Some(Certificate(Some(Hosts(rules)))), writes + 1, done)
    case Some(c) =>
      match c.dnsNames
      case None => (cert, writes, None)
      case Some(names) =>
        if multiset(names) == multiset(Hosts(rules)) then (cert, writes, None)
        else if !api.updateCert then (cert, writes, Some(WriteRefused))
        else (Some(Certificate(Some(Sort(Hosts(rules))))), writes + 1, done)
  }

  /** The certificate holds the hosts of the rules, each as often as the rules do. */
  predicate Settled(cert: Option<Certificate>, rules: seq<Rule>) {
    cert.Some? && cert.value.dnsNames.Some? && multiset(cert.value.dnsNames.value) == multiset(Hosts(rules))
  }

  /** A pass that is refused no write settles the certificate unless it has no names, even when it
      ends with the error of a missing secret. */
  lemma PassSettles(cert: Option<Certificate>, writes: nat, secret: bool, rules: seq<Rule>, api: Api)
    ensures var (cert1, writes1, err) := CertPass(cert, writes, secret, rules, api);
            err != Some(WriteRefused) ==> Settled(cert1, rules) || (cert.Some? && cert == cert1 && cert.value.dnsNames == None)
  {
  }

  /** A further pass makes a write exactly when the certificate is absent, or has names that are not
      those of the rules, and writes are accepted. */
  lemma WritesIff(cert: Option<Certificate>, writes: nat, secret: bool, rules: seq<Rule>, api: Api)
    ensures CertPass(cert, writes, secret, rules, api).1 == writes <==>
            || Settled(cert, rules)
            || (cert == None && !api.createCert)
            || (cert.Some? && (cert.value.dnsNames == None || !api.updateCert))
  {
  }

  /** What a pass leaves and returns, in terms of what it found. A new certificate holds the hosts in
      rule order, a rewritten one holds them sorted; after a write, and only then, a missing secret is
      reported. */
  lemma PassReturns(cert: Option<Certificate>, writes: nat, secret: bool, rules: seq<Rule>, api: Api)
    ensures var (cert1, writes1, err) := CertPass(cert, writes, secret, rules, api);
            && writes1 in {writes, writes + 1}
            && (err == Some(SecretMissing) <==> writes1 > writes && !secret)
            && (err == Some(WriteRefused) <==>
                  || (cert == None && !api.createCert)
                  || (cert.Some? && cert.value.dnsNames.Some? && !Settled(cert, rules) && !api.updateCert))
            && (writes1 == writes ==> cert1 == cert)
            && (writes1 > writes && cert == None ==> cert1 == Some(Certificate(Some(Hosts(rules)))))
            && (writes1 > writes && cert.Some? ==>
                  && Settled(cert1, rules) && Sorted(cert1.value.dnsNames.value))
  {
    SortSorted(Hosts(rules));
  }

  /** The rules of `b` are those of `a` in another order. */
  ghost predicate Reordered(a: seq<Rule>, b: seq<Rule>) {
    multiset(a) == multiset(b)
  }

  function Without<T>(s: seq<T>, j: nat): seq<T>
    requires j < |s|
  {
    s[..j] + s[j + 1..]
  }

  lemma BagSplit<T>(s: seq<T>, j: nat)
    requires j < |s|
    ensures multiset(s) == multiset(Without(s, j)) + multiset{s[j]}
  {
    assert s == s[..j] + [s[j]] + s[j + 1..];
  }

  /** Two equal bags lose the same element. */
  lemma Pair<T>(a: seq<T>, b: seq<T>) returns (j: nat)
    requires multiset(a) == multiset(b) && a != []
    ensures j < |b| && b[j] == a[0]
    ensures multiset(Without(a, 0)) == multiset(Without(b, j))
  {
    assert a[0] in multiset(b);
    j :| 0 <= j < |b| && b[j] == a[0];
    BagSplit(a, 0);
    BagSplit(b, j);
    assert multiset(Without(a, 0)) == multiset(a) - multiset{a[0]};
    assert multiset(Without(b, j)) == multiset(b) - multiset{a[0]};
  }

  lemma {:induction false} ReorderedHosts(a: seq<Rule>, b: seq<Rule>)
    requires Reordered(a, b)
    ensures multiset(Hosts(a)) == multiset(Hosts(b))
    decreases |a|
  {
    assert |multiset(a)| == |multiset(b)|;
    if a == [] {
      assert b == [];
    } else {
      var j := Pair(a, b);
      ReorderedHosts(Without(a, 0), Without(b, j));
      HostsSplit(a, 0);
      HostsSplit(b, j);
    }
  }

  lemma HostsSplit(b: seq<Rule>, j: nat)
    requires j < |b|
    ensures multiset(Hosts(b)) == multiset(Hosts(Without(b, j))) + multiset{b[j].host}
  {
    var left, right := Hosts(b[..j]), Hosts(b[j + 1..]);
    assert Hosts(b) == left + [b[j].host] + right;
    assert Hosts(Without(b, j)) == left + right;
  }

  /** The fixed point: after a pass that is refused no write, a second pass writes nothing and
      reports nothing, also when the rules have been reordered in between. */
  lemma SecondPassIsSilent(cert: Option<Certificate>, writes: nat, secret: bool, rules: seq<Rule>, api: Api,
                           later: seq<Rule>, laterSecret: bool, laterApi: Api)
    requires CertPass(cert, writes, secret, rules, api).2 != Some(WriteRefused)
    requires Reordered(rules, later)
    ensures var (cert1, writes1, err1) := CertPass(cert, writes, secret, rules, api);
            CertPass(cert1, writes1, laterSecret, later, laterApi) == (cert1, writes1, None)
  {
    PassSettles(cert, writes, secret, rules, api);
    ReorderedHosts(rules, later);
  }
}
