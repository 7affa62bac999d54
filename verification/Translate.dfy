/** `getBackendConfigure` of `internal/controller/nginx.go`: from an Ingress to servers and backends. */
module Translate {
  import opened Results
  import opened Ingresses
  import opened Lookup
  import opened ProxyRules
  import opened Validators
  import WeightList

  /** The parsed annotations that the translation and the template read. */
  datatype Annotations = Annotations(
    rewrite: Rewrite,
    useWeight: bool,
    weighted: WeightList.Weighted,
    allow: seq<string>,
    deny: seq<string>,
    redirectPath: string,
    redirectHost: string,
    proxy: ProxyConfig)

  /** All that the controller reads for one Ingress; `setWeight` is the text of its weight list. */
  datatype Spec = Spec(
    ing: Ingress, ann: Annotations, setWeight: string, cluster: Cluster, tls: map<string, SslCert>)
  {
    /** The entries of the weight list, if it is one. */
    function Entries(): seq<WeightList.Entry> {
      match WeightList.ParseList(ing, cluster, setWeight)
      case Ok(entries) => entries
      case Err(_) => []
    }
  }

  datatype Backend = Backend(
    name: string, ingName: string, namespace: string, path: string, targetPath: string, port: int)

  datatype Server = Server(name: string, namespace: string, host: string, paths: seq<Backend>, tls: SslCert)

  datatype Error =
    | BadPath(path: string, error: ContentError)
    | ServiceMissing(service: string)
    | PortMissing(service: string)
    | Panic                                   // the first path of a rule without paths

  /** The paths of a rule that become backends: only the first when weights are used. */
  function Selected(ann: Annotations, rule: Rule): seq<PathRule> {
    if ann.useWeight && rule.paths != [] then rule.paths[..1] else rule.paths
  }

  /** The backend of one path, or why there is none. */
  function BackendFor(ing: Ingress, ann: Annotations, cluster: Cluster, p: PathRule): Result<Backend, Error> {
    match CheckContent(p.path, ann.rewrite)
    case Refused(e) => Err(BadPath(p.path, e))
    case Passed =>
      if p.backend.service !in cluster then Err(ServiceMissing(p.backend.service))
      else if PortOf(cluster, p.backend) == 0 then Err(PortMissing(p.backend.service))
      else
        Ok(Backend(p.backend.service, ing.name, ing.namespace, FormatPath(p.path, ann.rewrite), p.path,
                   PortOf(cluster, p.backend)))
  }

  /** Every selected path of the rule has a backend, and with weights there is one to select. */
  predicate RulePasses(ing: Ingress, ann: Annotations, cluster: Cluster, rule: Rule) {
    && (ann.useWeight ==> rule.paths != [])
    && forall p :: p in Selected(ann, rule) ==> BackendFor(ing, ann, cluster, p).Ok?
  }

  predicate RuleFailsWith(ing: Ingress, ann: Annotations, cluster: Cluster, rule: Rule, e: Error) {
    if ann.useWeight && rule.paths == [] then e == Panic
    else
      var paths := Selected(ann, rule);
      exists j :: 0 <= j < |paths| && BackendFor(ing, ann, cluster, paths[j]) == Err(e)
                  && forall k :: 0 <= k < j ==> BackendFor(ing, ann, cluster, paths[k]).Ok?
  }

  predicate BackendsOf(ing: Ingress, ann: Annotations, cluster: Cluster, rule: Rule, backends: seq<Backend>) {
    var paths := Selected(ann, rule);
    && |backends| == |paths|
    && forall j :: 0 <= j < |paths| ==> BackendFor(ing, ann, cluster, paths[j]) == Ok(backends[j])
  }

  function CertOf(tls: map<string, SslCert>, host: string): SslCert {
    if host in tls then tls[host] else NO_CERT
  }

  predicate ServerOf(ing: Ingress, ann: Annotations, cluster: Cluster, tls: map<string, SslCert>, rule: Rule, s: Server) {
    && s.name == ing.name && s.namespace == ing.namespace && s.host == rule.host
    && s.tls == CertOf(tls, rule.host)
    && BackendsOf(ing, ann, cluster, rule, s.paths)
  }

  /** `servers` is the translation of the Ingress: one server for each rule in order, and in it one
      backend for each selected path in order. */
  predicate IsTranslation(ing: Ingress, ann: Annotations, cluster: Cluster, tls: map<string, SslCert>,
                          servers: seq<Server>)
  {
    && |servers| == |ing.rules|
    && (forall i :: 0 <= i < |ing.rules| ==> RulePasses(ing, ann, cluster, ing.rules[i]))
    && (forall i :: 0 <= i < |ing.rules| ==> ServerOf(ing, ann, cluster, tls, ing.rules[i], servers[i]))
  }

  /** The rules before `i` pass, and rule `i` fails with `e`. */
  predicate FailsAt(ing: Ingress, ann: Annotations, cluster: Cluster, i: nat, e: Error) {
    && i < |ing.rules|
    && RuleFailsWith(ing, ann, cluster, ing.rules[i], e)
    && forall k :: 0 <= k < i ==> RulePasses(ing, ann, cluster, ing.rules[k])
  }

  function Values<T>(slots: seq<Option<T>>): seq<T>
    requires forall i :: 0 <= i < |slots| ==> slots[i].Some?
  {
    seq(|slots|, i requires 0 <= i < |slots| => slots[i].value)
  }

  /** The inner loop: a slice with one empty slot for each selected path, cut and appended to. */
  method BuildBackends(ing: Ingress, ann: Annotations, cluster: Cluster, rule: Rule)
    returns (r: Result<seq<Backend>, Error>)
    requires ann.useWeight ==> rule.paths != []
    ensures r.Ok? <==> RulePasses(ing, ann, cluster, rule)
    ensures r.Ok? ==> BackendsOf(ing, ann, cluster, rule, r.value)
    ensures r.Err? ==> RuleFailsWith(ing, ann, cluster, rule, r.error)
  {
    var paths := Selected(ann, rule);
    var slots := new Option<Backend>[|paths|](i => None);
    var len := slots.Length;
    for bk := 0 to |paths|
      invariant len == if bk == 0 then |paths| else bk
      invariant forall j :: 0 <= j < bk ==>
        slots[j].Some? && BackendFor(ing, ann, cluster, paths[j]) == Ok(slots[j].value)
    {
      var p := paths[bk];
      assert p in paths;
      var checked := CheckContent(p.path, ann.rewrite);
      if checked.Refused? {
        return Err(BadPath(p.path, checked.error));
      }
      if p.backend.service !in cluster {
        return Err(ServiceMissing(p.backend.service));
      }
      var port := GetSvcPort(cluster, p.backend);
      if port == 0 {
        return Err(PortMissing(p.backend.service));
      }
      slots[bk] := Some(Backend(p.backend.service, ing.name, ing.namespace,
                                FormatPath(p.path, ann.rewrite), p.path, port));
      len := bk + 1;
    }
    assert len == |paths|;
    var backends := Values(slots[..len]);
    return Ok(backends);
  }

  /** `getBackendConfigure`: no slot is left over, and the first rule that fails decides the error. */
  method GetBackendConfigure(ing: Ingress, ann: Annotations, cluster: Cluster, tls: map<string, SslCert>)
    returns (r: Result<seq<Server>, Error>)
    ensures r.Ok? <==> forall i :: 0 <= i < |ing.rules| ==> RulePasses(ing, ann, cluster, ing.rules[i])
    ensures r.Ok? ==> IsTranslation(ing, ann, cluster, tls, r.value)
    ensures r.Err? ==> exists i :: FailsAt(ing, ann, cluster, i, r.error)
  {
    var rules := ing.rules;
    var slots := new Option<Server>[|rules|](i => None);
    var len := slots.Length;
    for k := 0 to |rules|
      invariant len == if k == 0 then |rules| else k
      invariant forall i :: 0 <= i < k ==> RulePasses(ing, ann, cluster, rules[i])
      invariant forall i :: 0 <= i < k ==>
        slots[i].Some? && ServerOf(ing, ann, cluster, tls, rules[i], slots[i].value)
    {
      if ann.useWeight && rules[k].paths == [] {
        assert FailsAt(ing, ann, cluster, k, Panic);
        return Err(Panic);
      }
      var backends := BuildBackends(ing, ann, cluster, rules[k]);
      if backends.Err? {
        assert FailsAt(ing, ann, cluster, k, backends.error);
        return Err(backends.error);
      }
      slots[k] := Some(Server(ing.name, ing.namespace, rules[k].host, backends.value, CertOf(tls, rules[k].host)));
      len := k + 1;
    }
    assert len == |rules|;
    var servers := Values(slots[..len]);
    return Ok(servers);
  }

  /** An Ingress has at most one translation. */
  lemma TranslationUnique(ing: Ingress, ann: Annotations, cluster: Cluster, tls: map<string, SslCert>,
                          a: seq<Server>, b: seq<Server>)
    requires IsTranslation(ing, ann, cluster, tls, a) && IsTranslation(ing, ann, cluster, tls, b)
    ensures a == b
  {
    forall i | 0 <= i < |a| ensures a[i] == b[i] {
      var paths := Selected(ann, ing.rules[i]);
      assert ServerOf(ing, ann, cluster, tls, ing.rules[i], a[i]);
      assert ServerOf(ing, ann, cluster, tls, ing.rules[i], b[i]);
      forall j | 0 <= j < |paths| ensures a[i].paths[j] == b[i].paths[j] {
        assert BackendFor(ing, ann, cluster, paths[j]) == Ok(a[i].paths[j]);
      }
      assert a[i].paths == b[i].paths;
    }
  }

  /** In every translation a backend stands for its path: the location follows from the path alone,
      and the path looks like a regular expression exactly when a rewrite annotation is used. */
  lemma BackendMeans(ing: Ingress, ann: Annotations, cluster: Cluster, p: PathRule)
    ensures BackendFor(ing, ann, cluster, p).Ok? <==>
            && (IsRegexPatternRegex(p.path) <==> ann.rewrite.Used())
            && PortOf(cluster, p.backend) != 0
    ensures BackendFor(ing, ann, cluster, p).Ok? ==>
            BackendFor(ing, ann, cluster, p).value ==
            Backend(p.backend.service, ing.name, ing.namespace, LocationFor(p.path), p.path, p.backend.port.number)
  {
    ContentLaw(p.path, ann.rewrite);
  }

  /** `servers` is what the controller makes of an Ingress whose weight list, if it uses weights, was
      parsed. */
  predicate Compiles(d: Spec, servers: seq<Server>) {
    && IsTranslation(d.ing, d.ann, d.cluster, d.tls, servers)
    && (d.ann.useWeight ==>
          && WeightList.ParseList(d.ing, d.cluster, d.setWeight).Ok?
          && d.ann.weighted == WeightList.WeightedOf(d.ing, d.Entries()))
  }

  /** Why a path has no backend, in the order of the tests. */
  lemma BackendErrors(ing: Ingress, ann: Annotations, cluster: Cluster, p: PathRule)
    ensures var fits := IsRegexPatternRegex(p.path) <==> ann.rewrite.Used();
            var r := BackendFor(ing, ann, cluster, p);
            && ((exists e :: r == Err(BadPath(p.path, e))) <==> !fits)
            && (r == Err(ServiceMissing(p.backend.service)) <==> fits && p.backend.service !in cluster)
            && (r == Err(PortMissing(p.backend.service)) <==>
                  fits && p.backend.service in cluster && PortOf(cluster, p.backend) == 0)
  {
    ContentLaw(p.path, ann.rewrite);
    if CheckContent(p.path, ann.rewrite).Refused? {
      assert BackendFor(ing, ann, cluster, p) == Err(BadPath(p.path, CheckContent(p.path, ann.rewrite).error));
    }
  }
}
