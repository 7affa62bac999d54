/** The rendered file means what the Ingress says: its references are closed, its upstream names are
    unique exactly when they can be, and every request reaches the service of its path. */
module Routing {
  import opened Results
  import opened Addresses
  import opened Ingresses
  import opened Lookup
  import opened ProxyRules
  import opened Translate
  import opened Template
  import WeightList
  import IpList
  import opened Text

  // ---------------------------------------------------------------- all paths of an Ingress

  /** The paths of all rules, in order. */
  function AllPaths(rules: seq<Rule>): seq<PathRule> {
    if rules == [] then [] else rules[0].paths + AllPaths(rules[1..])
  }

  /** The upstream that stands for a path. */
  function UpstreamFor(ing: Ingress, cluster: Cluster, p: PathRule): Upstream {
    Upstream(p.backend.service + "-" + ing.name + "-" + ing.namespace,
             [Address(p.backend.service, ing.namespace, PortOf(cluster, p.backend))])
  }

  function UpstreamsFor(ing: Ingress, cluster: Cluster, paths: seq<PathRule>): seq<Upstream> {
    seq(|paths|, i requires 0 <= i < |paths| => UpstreamFor(ing, cluster, paths[i]))
  }

  /** A translation of some of the rules of the Ingress. */
  ghost predicate Translates(ing: Ingress, ann: Annotations, cluster: Cluster, tls: map<string, SslCert>,
                             rules: seq<Rule>, servers: seq<Server>)
  {
    && |servers| == |rules|
    && forall i :: 0 <= i < |rules| ==>
         RulePasses(ing, ann, cluster, rules[i]) && ServerOf(ing, ann, cluster, tls, rules[i], servers[i])
  }

  lemma ServerUpstreams(ing: Ingress, ann: Annotations, cluster: Cluster, tls: map<string, SslCert>,
                        rule: Rule, s: Server)
    requires !ann.useWeight && RulePasses(ing, ann, cluster, rule) && ServerOf(ing, ann, cluster, tls, rule, s)
    ensures RenderUpstreams(ann, s) == UpstreamsFor(ing, cluster, rule.paths)
  {
    forall j | 0 <= j < |rule.paths| ensures UpstreamOf(s.paths[j]) == UpstreamFor(ing, cluster, rule.paths[j]) {
      BackendMeans(ing, ann, cluster, rule.paths[j]);
      assert BackendFor(ing, ann, cluster, rule.paths[j]) == Ok(s.paths[j]);
    }
  }

  lemma FirstBlock(ann: Annotations, servers: seq<Server>)
    requires servers != []
    ensures Upstreams(Render(ann, servers)) == RenderUpstreams(ann, servers[0]) + Upstreams(Render(ann, servers[1..]))
  {
    assert Render(ann, servers)[1..] == Render(ann, servers[1..]);
  }

  lemma UpstreamsAppend(ing: Ingress, cluster: Cluster, a: seq<PathRule>, b: seq<PathRule>)
    ensures UpstreamsFor(ing, cluster, a + b) == UpstreamsFor(ing, cluster, a) + UpstreamsFor(ing, cluster, b)
  {
  }

  /** Without weights, the upstreams of the file are those of all paths of all rules, in order. */
  lemma {:induction false} FileUpstreams(ing: Ingress, ann: Annotations, cluster: Cluster,
                                         tls: map<string, SslCert>, rules: seq<Rule>, servers: seq<Server>)
    requires !ann.useWeight && Translates(ing, ann, cluster, tls, rules, servers)
    ensures Upstreams(Render(ann, servers)) == UpstreamsFor(ing, cluster, AllPaths(rules))
  {
    if rules != [] {
      ServerUpstreams(ing, ann, cluster, tls, rules[0], servers[0]);
      FileUpstreams(ing, ann, cluster, tls, rules[1..], servers[1..]);
      FirstBlock(ann, servers);
      UpstreamsAppend(ing, cluster, rules[0].paths, AllPaths(rules[1..]));
    }
  }

  /** With weights, every rule contributes the same upstream. */
  lemma {:induction false} WeightedUpstreams(ann: Annotations, servers: seq<Server>)
    requires ann.useWeight
    ensures |Upstreams(Render(ann, servers))| == |servers|
    ensures forall u :: u in Upstreams(Render(ann, servers)) ==>
              u == Upstream(ann.weighted.upstream, ann.weighted.servers)
  {
    if servers != [] {
      WeightedUpstreams(ann, servers[1..]);
      FirstBlock(ann, servers);
    }
  }

  // ---------------------------------------------------------------- unique names

  function ServicesOf(paths: seq<PathRule>): seq<string> {
    seq(|paths|, i requires 0 <= i < |paths| => paths[i].backend.service)
  }

  lemma SameName(ing: Ingress, s: string, t: string)
    ensures s + "-" + ing.name + "-" + ing.namespace == t + "-" + ing.name + "-" + ing.namespace <==> s == t
  {
    var tail := "-" + ing.name + "-" + ing.namespace;
    var a, b := s + "-" + ing.name + "-" + ing.namespace, t + "-" + ing.name + "-" + ing.namespace;
    assert a == s + tail && b == t + tail;
    if a == b {
      assert |s| == |t| && a[..|s|] == s && b[..|t|] == t;
    }
  }

  /** Upstream names are unique exactly when all services of all paths of all rules are distinct, or,
      with weights, when there is at most one rule. */
  lemma NamesUniqueIff(ing: Ingress, ann: Annotations, cluster: Cluster, tls: map<string, SslCert>,
                       servers: seq<Server>)
    requires IsTranslation(ing, ann, cluster, tls, servers)
    ensures UniqueUpstreams(Render(ann, servers)) <==>
            if ann.useWeight then |ing.rules| <= 1 else Distinct(ServicesOf(AllPaths(ing.rules)))
  {
    var upstreams := Upstreams(Render(ann, servers));
    if ann.useWeight {
      WeightedUpstreams(ann, servers);
      assert |servers| == |ing.rules|;
      SameNamesMeet(upstreams, ann.weighted.upstream);
    } else {
      FileUpstreams(ing, ann, cluster, tls, ing.rules, servers);
      ServiceNames(ing, cluster, AllPaths(ing.rules));
    }
  }

  lemma SameNamesMeet(upstreams: seq<Upstream>, name: string)
    requires forall u :: u in upstreams ==> u.name == name
    ensures Distinct(Names(upstreams)) <==> |upstreams| <= 1
  {
    if |upstreams| >= 2 {
      assert upstreams[0] in upstreams && upstreams[1] in upstreams;
      assert Names(upstreams)[0] == Names(upstreams)[1];
    }
  }

  lemma ServiceNames(ing: Ingress, cluster: Cluster, paths: seq<PathRule>)
    ensures Distinct(Names(UpstreamsFor(ing, cluster, paths))) <==> Distinct(ServicesOf(paths))
  {
    var names, services := Names(UpstreamsFor(ing, cluster, paths)), ServicesOf(paths);
    assert |names| == |services|;
    forall i, j | 0 <= i < j < |services| ensures names[i] == names[j] <==> services[i] == services[j] {
      SameName(ing, services[i], services[j]);
    }
  }

  // ---------------------------------------------------------------- closed references

  lemma {:induction false} FoundIff(upstreams: seq<Upstream>, name: string)
    ensures FindUpstream(upstreams, name).Some? <==> name in Names(upstreams)
    ensures FindUpstream(upstreams, name).Some? ==>
              FindUpstream(upstreams, name).value in upstreams && FindUpstream(upstreams, name).value.name == name
  {
    if upstreams != [] {
      FoundIff(upstreams[1..], name);
      assert Names(upstreams) == [upstreams[0].name] + Names(upstreams[1..]);
      assert upstreams == [upstreams[0]] + upstreams[1..];
    }
  }

  lemma {:induction false} OwnUpstreams(file: seq<Block>, i: nat, u: Upstream)
    requires i < |file| && u in file[i].upstreams
    ensures u in Upstreams(file)
  {
    if i > 0 {
      OwnUpstreams(file[1..], i - 1, u);
    }
  }

  /** Every backend location of every rendered file names an upstream of that file, in both modes. */
  lemma ReferencesClosed(ann: Annotations, servers: seq<Server>, i: nat, j: nat)
    requires i < |servers| && j < |servers[i].paths|
    ensures var file := Render(ann, servers);
            var location := file[i].server.locations[|ExtraLocations(ann)| + j];
            && location == BackendLocation(ann, servers[i].paths[j])
            && location.handler.name in Names(Upstreams(file))
  {
    var file := Render(ann, servers);
    var u := if ann.useWeight then Upstream(ann.weighted.upstream, ann.weighted.servers)
             else UpstreamOf(servers[i].paths[j]);
    var own := RenderUpstreams(ann, servers[i]);
    assert own[if ann.useWeight then 0 else j] == u;
    OwnUpstreams(file, i, u);
    var all := Upstreams(file);
    var k :| 0 <= k < |all| && all[k] == u;
    assert Names(all)[k] == u.name;
  }

  // ---------------------------------------------------------------- routing

  /** The first rule for a host. */
  function RuleFor(rules: seq<Rule>, host: string): Option<nat> {
    if rules == [] then None
    else if rules[0].host == host then Some(0)
    else match RuleFor(rules[1..], host) case None => None case Some(i) => Some(i + 1)
  }

  lemma {:induction false} ServerFound(ing: Ingress, ann: Annotations, cluster: Cluster, tls: map<string, SslCert>,
                                       rules: seq<Rule>, servers: seq<Server>, host: string)
    requires Translates(ing, ann, cluster, tls, rules, servers)
    ensures match RuleFor(rules, host)
            case None => FindServer(Render(ann, servers), host) == None
            case Some(i) => i < |rules| && rules[i].host == host
                            && FindServer(Render(ann, servers), host) == Some(RenderServer(ann, servers[i]).server)
  {
    if rules != [] {
      assert ServerOf(ing, ann, cluster, tls, rules[0], servers[0]);
      ServerFound(ing, ann, cluster, tls, rules[1..], servers[1..], host);
      assert Render(ann, servers)[1..] == Render(ann, servers[1..]);
    }
  }

  /** The patterns that nginx chooses from: those of the other annotations, then one for each path. */
  function PathPatterns(ann: Annotations, paths: seq<PathRule>): seq<string> {
    Patterns(ExtraLocations(ann)) + seq(|paths|, j requires 0 <= j < |paths| => LocationFor(paths[j].path))
  }

  lemma RulePatterns(ing: Ingress, ann: Annotations, cluster: Cluster, tls: map<string, SslCert>,
                     rule: Rule, s: Server)
    requires RulePasses(ing, ann, cluster, rule) && ServerOf(ing, ann, cluster, tls, rule, s)
    ensures Patterns(RenderServer(ann, s).server.locations) == PathPatterns(ann, Selected(ann, rule))
  {
    var paths := Selected(ann, rule);
    forall k | 0 <= k < |paths| ensures s.paths[k].path == LocationFor(paths[k].path) {
      BackendMeans(ing, ann, cluster, paths[k]);
      assert BackendFor(ing, ann, cluster, paths[k]) == Ok(s.paths[k]);
    }
    PatternsAppend(ExtraLocations(ann), BackendLocations(ann, s));
    assert Patterns(BackendLocations(ann, s)) == seq(|paths|, j requires 0 <= j < |paths| => LocationFor(paths[j].path));
  }

  lemma PatternsAppend(a: seq<Location>, b: seq<Location>)
    ensures Patterns(a + b) == Patterns(a) + Patterns(b)
  {
  }

  /** The first path of a list that has the service of `p`. */
  function FirstWithService(paths: seq<PathRule>, service: string): PathRule
    requires exists p :: p in paths && p.backend.service == service
  {
    if paths[0].backend.service == service then paths[0] else FirstWithService(paths[1..], service)
  }

  lemma {:induction false} UpstreamFound(ing: Ingress, cluster: Cluster, paths: seq<PathRule>, p: PathRule)
    requires p in paths
    ensures FindUpstream(UpstreamsFor(ing, cluster, paths), UpstreamFor(ing, cluster, p).name) ==
            Some(UpstreamFor(ing, cluster, FirstWithService(paths, p.backend.service)))
  {
    SameName(ing, paths[0].backend.service, p.backend.service);
    if paths[0].backend.service != p.backend.service {
      UpstreamFound(ing, cluster, paths[1..], p);
      assert UpstreamsFor(ing, cluster, paths)[1..] == UpstreamsFor(ing, cluster, paths[1..]);
    }
  }

  lemma {:induction false} InAllPaths(rules: seq<Rule>, i: nat, p: PathRule)
    requires i < |rules| && p in rules[i].paths
    ensures p in AllPaths(rules)
  {
    if i > 0 {
      InAllPaths(rules[1..], i - 1, p);
    }
  }

  /** The location of path `j` of the rule is chosen. */
  predicate Picks(ann: Annotations, rule: Rule, choose: Chooser, j: nat) {
    var paths := Selected(ann, rule);
    j < |paths| && choose(PathPatterns(ann, paths)) == |ExtraLocations(ann)| + j
  }

  /** A request for the host of rule `i`, the first with that host, that ends at the location of its
      path `j`. */
  predicate Chooses(ing: Ingress, ann: Annotations, host: string, choose: Chooser, i: nat, j: nat) {
    i < |ing.rules| && RuleFor(ing.rules, host) == Some(i) && Picks(ann, ing.rules[i], choose, j)
  }

  /** Where the Ingress sends the requests of path `j` of rule `i`. */
  function Destination(ing: Ingress, ann: Annotations, i: nat, j: nat): seq<string>
    requires i < |ing.rules| && j < |ing.rules[i].paths|
  {
    var b := ing.rules[i].paths[j].backend;
    if ann.useWeight then ann.weighted.servers else [Address(b.service, ing.namespace, b.port.number)]
  }

  /** The server block of a rule hands such a request to the location of the backend. */
  lemma LocationReached(ing: Ingress, ann: Annotations, cluster: Cluster, tls: map<string, SslCert>,
                        servers: seq<Server>, choose: Chooser, i: nat, j: nat)
    requires IsTranslation(ing, ann, cluster, tls, servers) && i < |ing.rules| && Picks(ann, ing.rules[i], choose, j)
    ensures j < |servers[i].paths|
    ensures var file := Render(ann, servers);
            var name := BackendLocation(ann, servers[i].paths[j]).handler.name;
            match FindUpstream(Upstreams(file), name)
            case None => false
            case Some(u) => FollowServer(Upstreams(file), file[i].server, choose) == Balanced(u.servers)
  {
    assert ServerOf(ing, ann, cluster, tls, ing.rules[i], servers[i]);
    RulePatterns(ing, ann, cluster, tls, ing.rules[i], servers[i]);
    ReferencesClosed(ann, servers, i, j);
    FoundIff(Upstreams(Render(ann, servers)), BackendLocation(ann, servers[i].paths[j]).handler.name);
  }

  lemma {:induction false} FirstIsOnly(paths: seq<PathRule>, p: PathRule)
    requires p in paths && Distinct(ServicesOf(paths))
    ensures FirstWithService(paths, p.backend.service) == p
  {
    if paths[0] != p {
      var i :| 0 <= i < |paths| && paths[i] == p;
      assert ServicesOf(paths)[0] != ServicesOf(paths)[i];
      assert ServicesOf(paths)[1..] == ServicesOf(paths[1..]);
      assert forall a :: 0 <= a < |paths| - 1 ==> ServicesOf(paths[1..])[a] == ServicesOf(paths)[a + 1];
      FirstIsOnly(paths[1..], p);
    }
  }

  /** In a file that nginx can load, the server block of a rule sends such a request to exactly the
      service and the port of its path, or to the weighted services. */
  lemma BlockRoutes(ing: Ingress, ann: Annotations, cluster: Cluster, tls: map<string, SslCert>,
                    servers: seq<Server>, choose: Chooser, i: nat, j: nat)
    requires IsTranslation(ing, ann, cluster, tls, servers) && UniqueUpstreams(Render(ann, servers))
    requires i < |ing.rules| && Picks(ann, ing.rules[i], choose, j)
    ensures FollowServer(Upstreams(Render(ann, servers)), Render(ann, servers)[i].server, choose) ==
            Balanced(Destination(ing, ann, i, j))
  {
    LocationReached(ing, ann, cluster, tls, servers, choose, i, j);
    if ann.useWeight {
      WeightedUpstreams(ann, servers);
      FoundIff(Upstreams(Render(ann, servers)), ann.weighted.upstream);
    } else {
      PathUpstream(ing, ann, cluster, tls, servers, i, j);
    }
  }

  /** Without weights, the upstream that the location of a path names has its service and port. */
  lemma PathUpstream(ing: Ingress, ann: Annotations, cluster: Cluster, tls: map<string, SslCert>,
                     servers: seq<Server>, i: nat, j: nat)
    requires !ann.useWeight && IsTranslation(ing, ann, cluster, tls, servers) && UniqueUpstreams(Render(ann, servers))
    requires i < |ing.rules| && j < |ing.rules[i].paths| && j < |servers[i].paths|
    ensures FindUpstream(Upstreams(Render(ann, servers)), UpstreamName(servers[i].paths[j])) ==
            Some(Upstream(UpstreamName(servers[i].paths[j]), Destination(ing, ann, i, j)))
  {
    var p := ing.rules[i].paths[j];
    assert ServerOf(ing, ann, cluster, tls, ing.rules[i], servers[i]);
    BackendMeans(ing, ann, cluster, p);
    assert BackendFor(ing, ann, cluster, p) == Ok(servers[i].paths[j]);
    InAllPaths(ing.rules, i, p);
    NamesUniqueIff(ing, ann, cluster, tls, servers);
    FirstIsOnly(AllPaths(ing.rules), p);
    FileUpstreams(ing, ann, cluster, tls, ing.rules, servers);
    UpstreamFound(ing, cluster, AllPaths(ing.rules), p);
  }

  /** Routing is preserved: in a file that nginx can load, whatever location is chosen, a request for
      the first rule of its host reaches exactly the service and the port of its path. */
  lemma RoutingPreserved(ing: Ingress, ann: Annotations, cluster: Cluster, tls: map<string, SslCert>,
                         servers: seq<Server>, host: string, choose: Chooser, i: nat, j: nat)
    requires !ann.useWeight && IsTranslation(ing, ann, cluster, tls, servers)
    requires UniqueUpstreams(Render(ann, servers))
    requires Chooses(ing, ann, host, choose, i, j)
    ensures var b := ing.rules[i].paths[j].backend;
            exists address :: Follow(Render(ann, servers), host, choose) == Balanced([address])
                              && IsAddressOf(address, b.service, ing.namespace, b.port.number)
  {
    var b := ing.rules[i].paths[j].backend;
    ServerFound(ing, ann, cluster, tls, ing.rules, servers, host);
    BlockRoutes(ing, ann, cluster, tls, servers, choose, i, j);
    AddressReads(b.service, ing.namespace, b.port.number);
  }

  /** A request that ends elsewhere: no rule for the host, or another location. */
  lemma RequestElsewhere(ing: Ingress, ann: Annotations, cluster: Cluster, tls: map<string, SslCert>,
                         servers: seq<Server>, host: string, choose: Chooser)
    requires IsTranslation(ing, ann, cluster, tls, servers)
    ensures Follow(Render(ann, servers), host, choose) == NoServer <==> RuleFor(ing.rules, host) == None
    ensures forall i :: RuleFor(ing.rules, host) == Some(i) && i < |ing.rules| ==>
              (Follow(Render(ann, servers), host, choose) == NoLocation <==>
               var patterns := PathPatterns(ann, Selected(ann, ing.rules[i]));
               choose(patterns) >= |patterns|)
  {
    ServerFound(ing, ann, cluster, tls, ing.rules, servers, host);
    if RuleFor(ing.rules, host).Some? {
      BlockElsewhere(ing, ann, cluster, tls, servers, choose, RuleFor(ing.rules, host).value);
    }
  }

  lemma BlockElsewhere(ing: Ingress, ann: Annotations, cluster: Cluster, tls: map<string, SslCert>,
                       servers: seq<Server>, choose: Chooser, i: nat)
    requires IsTranslation(ing, ann, cluster, tls, servers) && i < |ing.rules|
    ensures var route := FollowServer(Upstreams(Render(ann, servers)), RenderServer(ann, servers[i]).server, choose);
            var patterns := PathPatterns(ann, Selected(ann, ing.rules[i]));
            route != NoServer && (route == NoLocation <==> choose(patterns) >= |patterns|)
  {
    assert ServerOf(ing, ann, cluster, tls, ing.rules[i], servers[i]);
    RulePatterns(ing, ann, cluster, tls, ing.rules[i], servers[i]);
  }

  /** With weights, in a file that nginx can load, every path of the Ingress is balanced over the
      weighted services. */
  lemma WeightedRouting(ing: Ingress, ann: Annotations, cluster: Cluster, tls: map<string, SslCert>,
                        servers: seq<Server>, host: string, choose: Chooser, i: nat, j: nat)
    requires ann.useWeight && IsTranslation(ing, ann, cluster, tls, servers)
    requires UniqueUpstreams(Render(ann, servers))
    requires Chooses(ing, ann, host, choose, i, j)
    ensures Follow(Render(ann, servers), host, choose) == Balanced(ann.weighted.servers)
  {
    ServerFound(ing, ann, cluster, tls, ing.rules, servers, host);
    BlockRoutes(ing, ann, cluster, tls, servers, choose, i, j);
  }

  /** With weights the one location of a rule that was accepted stands for all its paths. */
  lemma CollapsesLosslessly(ann: Annotations, rule: Rule, n: nat, path: string, p: PathRule)
    requires ann.useWeight && WeightList.CollapsesTo(rule.paths, n, path)
    requires (forall q :: q in rule.paths ==> q.path != "") && p in rule.paths
    ensures PathPatterns(ann, Selected(ann, rule)) == Patterns(ExtraLocations(ann)) + [LocationFor(p.path)]
  {
    WeightList.FirstPathStandsForAll(rule.paths, n, path);
    assert seq(1, j requires 0 <= j < 1 => LocationFor(rule.paths[..1][j].path)) == [LocationFor(p.path)];
  }

  // ---------------------------------------------------------------- the rest of a server block

  /** The first rule for the address decides; without one it passes. */
  predicate Admits(access: seq<Access>, address: string) {
    access == [] ||
    match access[0]
    case Allow(a) => a == address || Admits(access[1..], address)
    case Deny(a) => a != address && Admits(access[1..], address)
    case AllowAll => true
    case DenyAll => false
  }

  lemma {:induction false} AllowedFirst(list: seq<string>, rest: seq<Access>, address: string)
    ensures Admits(Allowances(list) + rest, address) <==> address in list || Admits(rest, address)
  {
    var access := Allowances(list) + rest;
    if list == [] {
      assert access == rest;
    } else {
      AllowedFirst(list[1..], rest, address);
      assert access[1..] == Allowances(list[1..]) + rest;
    }
  }

  lemma {:induction false} DeniedFirst(list: seq<string>, rest: seq<Access>, address: string)
    ensures Admits(Denials(list) + rest, address) <==> address !in list && Admits(rest, address)
  {
    var access := Denials(list) + rest;
    if list == [] {
      assert access == rest;
    } else {
      DeniedFirst(list[1..], rest, address);
      assert access[1..] == Denials(list[1..]) + rest;
    }
  }

  lemma AccessIff(ann: Annotations, address: string)
    ensures Admits(RenderAccess(ann), address) <==>
            if ann.allow != [] then address in ann.allow else address !in ann.deny
  {
    var tail := if ann.deny != [] then Denials(ann.deny) + [AllowAll] else [];
    AllowedFirst(ann.allow, [DenyAll] + tail, address);
    DeniedFirst(ann.deny, [AllowAll], address);
    assert Allowances(ann.allow) + [DenyAll] + tail == Allowances(ann.allow) + ([DenyAll] + tail);
    assert [] + tail == tail;
  }

  /** Whom a rendered server block lets in, in terms of the two annotations: with an allow list exactly
      its addresses, and the deny list is not looked at; otherwise all but those of the deny list. */
  lemma AccessAsWritten(ann: Annotations, servers: seq<Server>, i: nat, allowText: string, denyText: string, address: string)
    requires i < |servers| && IpList.ParsesTo(allowText, ann.allow) && IpList.ParsesTo(denyText, ann.deny)
    ensures Admits(Render(ann, servers)[i].server.access, address) <==>
            if IpList.Aliases(allowText) != {} then address in IpList.Aliases(allowText)
            else address !in IpList.Aliases(denyText)
  {
    AccessIff(ann, address);
    assert address in ann.allow <==> address in Elements(ann.allow);
    assert address in ann.deny <==> address in Elements(ann.deny);
    assert ann.allow != [] ==> ann.allow[0] in Elements(ann.allow);
  }

  /** The location has this rewrite, or none. */
  predicate Rewrites(l: Location, path: string, target: string) {
    if target == "" then l.rewriteFrom == "" && l.rewriteTo == "" else l.rewriteFrom == "^" + path && l.rewriteTo == target
  }

  /** The locations of a rendered server block: the redirect, the external proxy, and one for each path
      that nginx tells apart as the path asks for, each with the rewrite of its annotation and nothing
      else. `raw` is the proxy annotation as it was written. */
  lemma LocationsAsWritten(ing: Ingress, ann: Annotations, cluster: Cluster, tls: map<string, SslCert>,
                           servers: seq<Server>, i: nat, raw: ProxyConfig)
    requires IsTranslation(ing, ann, cluster, tls, servers) && i < |ing.rules|
    requires ann.proxy.path != "" ==> ParseProxy(raw) == Config(ann.proxy)
    ensures var locations := Render(ann, servers)[i].server.locations;
            var n := (if ann.redirectPath != "" then 1 else 0) + if ann.proxy.path != "" then 1 else 0;
            && |locations| >= n
            && LeadingAsWritten(ann, locations[..n], raw)
            && PathsAsWritten(ann, locations[n..], Selected(ann, ing.rules[i]))
  {
    assert ServerOf(ing, ann, cluster, tls, ing.rules[i], servers[i]);
    ExtraAsWritten(ann, raw);
    PathLocations(ing, ann, cluster, ing.rules[i], servers[i].paths, servers[i]);
    var extra, backends := ExtraLocations(ann), BackendLocations(ann, servers[i]);
    assert (extra + backends)[..|extra|] == extra && (extra + backends)[|extra|..] == backends;
  }

  /** One location for each path in order. */
  predicate PathsAsWritten(ann: Annotations, locations: seq<Location>, paths: seq<PathRule>) {
    |locations| == |paths| && forall j :: 0 <= j < |paths| ==> BackendAsWritten(ann, locations[j], paths[j])
  }

  lemma PathLocations(ing: Ingress, ann: Annotations, cluster: Cluster, rule: Rule, backends: seq<Backend>, s: Server)
    requires BackendsOf(ing, ann, cluster, rule, backends) && s.paths == backends
    ensures PathsAsWritten(ann, BackendLocations(ann, s), Selected(ann, rule))
  {
    var paths := Selected(ann, rule);
    forall j | 0 <= j < |paths| ensures BackendAsWritten(ann, BackendLocations(ann, s)[j], paths[j]) {
      PathLocation(ing, ann, cluster, paths[j], backends[j]);
    }
  }

  lemma PathLocation(ing: Ingress, ann: Annotations, cluster: Cluster, p: PathRule, b: Backend)
    requires BackendFor(ing, ann, cluster, p) == Ok(b)
    ensures BackendAsWritten(ann, BackendLocation(ann, b), p)
  {
    BackendMeans(ing, ann, cluster, p);
  }

  predicate BackendAsWritten(ann: Annotations, l: Location, p: PathRule) {
    && l.pattern == LocationFor(p.path) && Rewrites(l, p.path, ann.rewrite.target)
    && l.handler.ProxyPass? && l.handler.scheme == "http"
  }

  /** The redirect and the external proxy, as their annotations say. */
  predicate LeadingAsWritten(ann: Annotations, locations: seq<Location>, raw: ProxyConfig) {
    var r := if ann.redirectPath != "" then 1 else 0;
    var n := r + if ann.proxy.path != "" then 1 else 0;
    && |locations| == n
    && (r == 1 ==>
          && locations[0].pattern == ann.redirectPath && locations[0].handler == Return301(ann.redirectHost)
          && Rewrites(locations[0], "", ""))
    && (n > r ==>
          && locations[r].pattern == LocationFor(raw.path) && Rewrites(locations[r], raw.path, raw.target)
          && locations[r].handler == ProxyPass(if raw.ssl then "https" else "http", raw.host))
  }

  lemma ExtraAsWritten(ann: Annotations, raw: ProxyConfig)
    requires ann.proxy.path != "" ==> ParseProxy(raw) == Config(ann.proxy)
    ensures LeadingAsWritten(ann, ExtraLocations(ann), raw)
    ensures |ExtraLocations(ann)| == (if ann.redirectPath != "" then 1 else 0) + if ann.proxy.path != "" then 1 else 0
  {
    ProxyLaw(raw);
  }
}
