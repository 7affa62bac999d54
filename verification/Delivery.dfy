/** From an Ingress to its requests: which of its paths nginx serves, and that it serves them as they
    are written; what is committed does so, and what is refused changes nothing. */
module Delivery {
  import opened Results
  import opened ConfNames
  import opened Nginx
  import opened Rollout
  import opened Ingresses
  import opened Translate
  import opened Template
  import opened Loading
  import opened Routing
  import opened Requests
  import opened ReloadLaws
  import opened Addresses
  import WeightList
  import Interleaving
  import Convergence
  import Admission

  function Id(d: Spec): Key { Key(d.ing.name, d.ing.namespace) }

  /** The file that an Ingress is rendered to. */
  function Text(x: Syntax, d: Spec, servers: seq<Server>): Content { x.text(Render(d.ann, servers)) }

  // ---------------------------------------------------------------- one path of an Ingress

  /** These are the addresses that path `j` of rule `i` asks for: the service and the port of the
      path, read off the text, or one line for each entry of the weight list. */
  predicate AsWritten(d: Spec, i: nat, j: nat, addresses: seq<string>)
    requires i < |d.ing.rules| && j < |d.ing.rules[i].paths|
  {
    var b, entries := d.ing.rules[i].paths[j].backend, d.Entries();
    if d.ann.useWeight then
      && |addresses| == |entries|
      && forall k :: 0 <= k < |entries| ==>
           WeightList.IsServerLine(addresses[k], entries[k].service, d.ing.namespace, entries[k].port, entries[k].number)
    else |addresses| == 1 && IsAddressOf(addresses[0], b.service, d.ing.namespace, b.port.number)
  }

  lemma DestinationIsAsWritten(d: Spec, servers: seq<Server>, i: nat, j: nat)
    requires Compiles(d, servers) && i < |d.ing.rules| && j < |d.ing.rules[i].paths|
    ensures AsWritten(d, i, j, Destination(d.ing, d.ann, i, j))
  {
    var b, entries := d.ing.rules[i].paths[j].backend, d.Entries();
    AddressReads(b.service, d.ing.namespace, b.port.number);
    forall k | 0 <= k < |entries|
      ensures WeightList.IsServerLine(WeightList.Line(entries[k], d.ing.namespace), entries[k].service, d.ing.namespace,
                                      entries[k].port, entries[k].number)
    {
      WeightList.LineReads(entries[k], d.ing.namespace);
    }
  }

  /** A request for the host of the rule goes to addresses that the path asks for. */
  ghost predicate Arrives(x: Syntax, view: Files, host: string, choose: Chooser, d: Spec, i: nat, j: nat)
    requires i < |d.ing.rules| && j < |d.ing.rules[i].paths|
  {
    exists addresses :: AsWritten(d, i, j, addresses) && Goes(x, view, host, choose, Balanced(addresses))
  }

  /** No earlier rule of the Ingress and no earlier file has the host of rule `i`. */
  ghost predicate Foremost(x: Syntax, view: Files, p: Path, d: Spec, i: nat)
    requires i < |d.ing.rules|
  {
    && (forall l :: 0 <= l < i ==> d.ing.rules[l].host != d.ing.rules[i].host)
    && (forall q :: q in view && Earlier(q, p) ==> !HasHost(x, view[q], d.ing.rules[i].host))
  }

  /** A request for the host is taken by the location at this position of block `k` of file `p`. */
  ghost predicate Takes(x: Syntax, view: Files, p: Path, k: nat, at: nat, host: string, choose: Chooser) {
    Serves(x, view, p, k, host) && choose(Patterns(x.blocks(view[p])[k].server.locations)) == at
  }

  /** Some choice of locations lets requests end there. */
  ghost predicate IsTaken(x: Syntax, view: Files, p: Path, k: nat, at: nat, host: string) {
    exists choose :: Takes(x, view, p, k, at, host, choose)
  }

  /** Every request that ends at the location of the path goes where the path says. */
  ghost predicate GoesAsWritten(x: Syntax, view: Files, d: Spec, i: nat, j: nat)
    requires i < |d.ing.rules| && j < |d.ing.rules[i].paths|
  {
    forall choose :: Picks(d.ann, d.ing.rules[i], choose, j) ==>
      Arrives(x, view, d.ing.rules[i].host, choose, d, i, j)
  }

  /** A server block before block `k` of file `p` serves the host. */
  ghost predicate ServedEarlier(x: Syntax, view: Files, p: Path, k: nat, host: string) {
    exists q: Path, l: nat :: (Earlier(q, p) || (q == p && l < k)) && Serves(x, view, q, l, host)
  }

  /** Path `j` of rule `i` is served if and only if its rule is foremost. Then every request that ends
      at its location goes where the path says; otherwise an earlier block takes all requests. */
  ghost predicate PathServed(x: Syntax, view: Files, p: Path, d: Spec, i: nat, j: nat)
    requires i < |d.ing.rules| && j < |Selected(d.ann, d.ing.rules[i])|
  {
    var rule := d.ing.rules[i];
    && (IsTaken(x, view, p, i, |ExtraLocations(d.ann)| + j, rule.host) <==> Foremost(x, view, p, d, i))
    && (Foremost(x, view, p, d, i) ==> GoesAsWritten(x, view, d, i, j))
    && (!Foremost(x, view, p, d, i) ==> ServedEarlier(x, view, p, i, rule.host))
  }

  ghost predicate RoutesAsWritten(x: Syntax, view: Files, p: Path, d: Spec) {
    forall i: nat, j: nat :: i < |d.ing.rules| && j < |Selected(d.ann, d.ing.rules[i])| ==> PathServed(x, view, p, d, i, j)
  }

  /** The file `p` of the view is the rendered Ingress. */
  predicate Holds(x: Syntax, view: Files, p: Path, d: Spec, servers: seq<Server>) {
    p in view && Compiles(d, servers) && x.blocks(view[p]) == Render(d.ann, servers)
  }

  lemma BlockOf(x: Syntax, view: Files, p: Path, d: Spec, servers: seq<Server>, i: nat)
    requires Holds(x, view, p, d, servers) && i < |d.ing.rules|
    ensures |x.blocks(view[p])| == |d.ing.rules|
    ensures x.blocks(view[p])[i].server.host == d.ing.rules[i].host
    ensures Patterns(x.blocks(view[p])[i].server.locations) == PathPatterns(d.ann, Selected(d.ann, d.ing.rules[i]))
  {
    assert ServerOf(d.ing, d.ann, d.cluster, d.tls, d.ing.rules[i], servers[i]);
    RulePatterns(d.ing, d.ann, d.cluster, d.tls, d.ing.rules[i], servers[i]);
  }

  lemma ServesIff(x: Syntax, view: Files, p: Path, d: Spec, servers: seq<Server>, i: nat)
    requires Holds(x, view, p, d, servers) && i < |d.ing.rules|
    ensures Serves(x, view, p, i, d.ing.rules[i].host) <==> Foremost(x, view, p, d, i)
  {
    forall l: nat | l < |d.ing.rules| ensures x.blocks(view[p])[l].server.host == d.ing.rules[l].host {
      BlockOf(x, view, p, d, servers, l);
    }
  }

  lemma TakesIff(x: Syntax, view: Files, p: Path, d: Spec, servers: seq<Server>, i: nat, at: nat)
    requires Holds(x, view, p, d, servers) && i < |d.ing.rules|
    ensures IsTaken(x, view, p, i, at, d.ing.rules[i].host) <==> Foremost(x, view, p, d, i)
  {
    ServesIff(x, view, p, d, servers, i);
    if Foremost(x, view, p, d, i) {
      var choose: Chooser := patterns => at;
      assert Takes(x, view, p, i, at, d.ing.rules[i].host, choose);
    }
  }

  lemma PickedGoes(x: Syntax, view: Files, p: Path, d: Spec, servers: seq<Server>, i: nat, j: nat, choose: Chooser)
    requires OneDefinition(x, view) && Holds(x, view, p, d, servers)
    requires i < |d.ing.rules| && Picks(d.ann, d.ing.rules[i], choose, j)
    requires Foremost(x, view, p, d, i)
    ensures Goes(x, view, d.ing.rules[i].host, choose, Balanced(Destination(d.ing, d.ann, i, j)))
    ensures Arrives(x, view, d.ing.rules[i].host, choose, d, i, j)
  {
    FileIsUnique(x, view, p);
    BlockRoutes(d.ing, d.ann, d.cluster, d.tls, servers, choose, i, j);
    EndsInFile(x, view, p, x.blocks(view[p])[i].server, choose, Destination(d.ing, d.ann, i, j));
    ServesIff(x, view, p, d, servers, i);
    DestinationIsAsWritten(d, servers, i, j);
  }

  lemma ForemostGoes(x: Syntax, view: Files, p: Path, d: Spec, servers: seq<Server>, i: nat, j: nat)
    requires OneDefinition(x, view) && Holds(x, view, p, d, servers)
    requires i < |d.ing.rules| && j < |d.ing.rules[i].paths| && Foremost(x, view, p, d, i)
    ensures GoesAsWritten(x, view, d, i, j)
  {
    forall choose | Picks(d.ann, d.ing.rules[i], choose, j)
      ensures Arrives(x, view, d.ing.rules[i].host, choose, d, i, j)
    {
      PickedGoes(x, view, p, d, servers, i, j, choose);
    }
  }

  lemma OtherIsServed(x: Syntax, view: Files, p: Path, d: Spec, servers: seq<Server>, i: nat)
    requires Holds(x, view, p, d, servers) && i < |d.ing.rules| && !Foremost(x, view, p, d, i)
    ensures ServedEarlier(x, view, p, i, d.ing.rules[i].host)
  {
    BlockOf(x, view, p, d, servers, i);
    ServesIff(x, view, p, d, servers, i);
    var q, l := SomeServes(x, view, p, i, d.ing.rules[i].host);
  }

  lemma PathIsServed(x: Syntax, view: Files, p: Path, d: Spec, servers: seq<Server>, i: nat, j: nat)
    requires OneDefinition(x, view) && Holds(x, view, p, d, servers)
    requires i < |d.ing.rules| && j < |Selected(d.ann, d.ing.rules[i])|
    ensures PathServed(x, view, p, d, i, j)
  {
    TakesIff(x, view, p, d, servers, i, |ExtraLocations(d.ann)| + j);
    if Foremost(x, view, p, d, i) {
      ForemostGoes(x, view, p, d, servers, i, j);
    } else {
      OtherIsServed(x, view, p, d, servers, i);
    }
  }

  /** Every rendered file in a view that nginx has accepted routes as written. */
  lemma AcceptedRoutes(valid: Files -> bool, x: Syntax, view: Files, p: Path, d: Spec, servers: seq<Server>)
    requires RefusesDuplicates(valid, x) && valid(view) && Holds(x, view, p, d, servers)
    ensures RoutesAsWritten(x, view, p, d)
  {
    forall i: nat, j: nat | i < |d.ing.rules| && j < |Selected(d.ann, d.ing.rules[i])|
      ensures PathServed(x, view, p, d, i, j)
    {
      PathIsServed(x, view, p, d, servers, i, j);
    }
  }

  /** The losing side: when rule `l` of an Ingress `e` is foremost for the host of rule `i` of `d`, the
      requests that end at its path `m` go to its own backend, which is the backend that path `j`
      of `d` asks for only if service, namespace and port are the same. */
  lemma LoserGoesElsewhere(x: Syntax, view: Files, q: Path, e: Spec, serversE: seq<Server>, l: nat, m: nat,
                           d: Spec, i: nat, j: nat, choose: Chooser)
    requires OneDefinition(x, view) && Holds(x, view, q, e, serversE)
    requires l < |e.ing.rules| && Picks(e.ann, e.ing.rules[l], choose, m) && Foremost(x, view, q, e, l)
    requires i < |d.ing.rules| && j < |d.ing.rules[i].paths| && d.ing.rules[i].host == e.ing.rules[l].host
    requires !d.ann.useWeight && !e.ann.useWeight
    requires '.' !in d.ing.namespace && '.' !in e.ing.namespace
    requires '.' !in d.ing.rules[i].paths[j].backend.service && '.' !in e.ing.rules[l].paths[m].backend.service
    ensures var (b, c) := (d.ing.rules[i].paths[j].backend, e.ing.rules[l].paths[m].backend);
            Arrives(x, view, d.ing.rules[i].host, choose, d, i, j) <==>
            b.service == c.service && d.ing.namespace == e.ing.namespace && b.port.number == c.port.number
  {
    var b, c := d.ing.rules[i].paths[j].backend, e.ing.rules[l].paths[m].backend;
    var host := d.ing.rules[i].host;
    PickedGoes(x, view, q, e, serversE, l, m, choose);
    DestinationIsAsWritten(e, serversE, l, m);
    var own := Destination(e.ing, e.ann, l, m);
    assert own[0] == Address(c.service, e.ing.namespace, c.port.number);
    if Arrives(x, view, host, choose, d, i, j) {
      var addresses :| AsWritten(d, i, j, addresses) && Goes(x, view, host, choose, Balanced(addresses));
      GoesOnce(x, view, host, choose, Balanced(addresses), Balanced(own));
      ReadsOnce(own[0], b.service, d.ing.namespace, b.port.number, c.service, e.ing.namespace, c.port.number);
    } else {
      assert AsWritten(e, l, m, own) && Goes(x, view, host, choose, Balanced(own));
    }
  }

  /** Where the other requests for a foremost rule go: the redirect leaves nginx; the external proxy
      does, too, unless its host is the name of an upstream anywhere in the view, which then takes the
      request; and a request that ends at no location goes nowhere. */
  lemma RequestLeaves(x: Syntax, view: Files, p: Path, d: Spec, servers: seq<Server>, i: nat, choose: Chooser)
    requires OneDefinition(x, view) && Holds(x, view, p, d, servers)
    requires i < |d.ing.rules| && Foremost(x, view, p, d, i)
    ensures var (host, ann) := (d.ing.rules[i].host, d.ann);
            var patterns := PathPatterns(ann, Selected(ann, d.ing.rules[i]));
            var at := choose(patterns);
            && (at >= |patterns| ==> Goes(x, view, host, choose, NoLocation))
            && (ann.redirectPath != "" && at == 0 ==> Goes(x, view, host, choose, Redirected(ann.redirectHost)))
            && (ann.proxy.path != "" && at == (if ann.redirectPath != "" then 1 else 0) ==>
                  && (forall q: Path, l: nat :: Place(x, view, q, l, ann.proxy.host) ==>
                        Goes(x, view, host, choose, Balanced(x.Defines(view[q])[l].servers)))
                  && ((forall q: Path, l: nat :: !Place(x, view, q, l, ann.proxy.host)) ==>
                        Goes(x, view, host, choose,
                             External(if ann.proxy.ssl then "https" else "http", ann.proxy.host))))
  {
    BlockOf(x, view, p, d, servers, i);
    ServesIff(x, view, p, d, servers, i);
    var server := x.blocks(view[p])[i].server;
    assert server.locations == ExtraLocations(d.ann) + BackendLocations(d.ann, servers[i]);
    forall route | Ends(x, view, server, choose, route) ensures Goes(x, view, d.ing.rules[i].host, choose, route) {}
  }

  // ---------------------------------------------------------------- one deployment, and a run of them

  /** Deploying an Ingress: its file takes effect exactly when nginx accepts the configuration with
      it, and then routes as written; otherwise nothing nginx reads has changed. */
  lemma CommittedOrUnchanged(env: Env, x: Syntax, namespaces: set<string>, w: World, s: Site, d: Spec, servers: seq<Server>)
    requires IoWorks(env) && NamesDoNotMatter(env) && env.runnable && RefusesDuplicates(env.valid, x)
    requires KnownSite(namespaces, s) && Refines(w.files, s) && env.valid(View(w.files))
    requires Known(namespaces, Id(d)) && Current(s, Id(d)) != Some("")
    requires Compiles(d, servers) && ReadsBack(x, Render(d.ann, servers))
    ensures var (t, c) := (Id(d).Target(), Text(x, d, servers));
            var (before, after) := (View(w.files), View(Deploy(env, w, t, c).0.files));
            && after == (if env.valid(before[t.Prod() := c]) then before[t.Prod() := c] else before)
            && (Look(after, t.Prod()) == Some(c) ==> RoutesAsWritten(x, after, t.Prod(), d))
  {
    var k, c := Id(d), Text(x, d, servers);
    var p, after := k.Target().Prod(), View(Deploy(env, w, k.Target(), c).0.files);
    DeployEffect(env, namespaces, w, s, k, c);
    if Look(after, p) == Some(c) {
      AcceptedRoutes(env.valid, x, after, p, d, servers);
    }
  }

  lemma DeployEffect(env: Env, namespaces: set<string>, w: World, s: Site, k: Key, c: Content)
    requires IoWorks(env) && NamesDoNotMatter(env) && env.runnable && c != ""
    requires KnownSite(namespaces, s) && Known(namespaces, k) && Refines(w.files, s)
    requires env.valid(View(w.files)) && Current(s, k) != Some("")
    ensures var (p, before) := (k.Target().Prod(), View(w.files));
            View(Deploy(env, w, k.Target(), c).0.files) == if env.valid(before[p := c]) then before[p := c] else before
  {
    PutRefines(env, namespaces, w, s, k, c);
    PublishedPut(namespaces, s, k, c);
    PutPublished(env, namespaces, s, k, c);
    if k in s.confs {
      PublishedKey(namespaces, s, k);
      Restated(Published(s), k.Target().Prod());
    }
  }

  lemma Restated(view: Files, p: Path)
    requires p in view
    ensures view[p := view[p]] == view
  {
  }

  /** After every run of deployments and deletions with contents that are not empty, every Ingress
      whose file is in place is routed as written. */
  lemma RunsRoute(env: Env, x: Syntax, namespaces: set<string>, w: World, s: Site, ops: seq<Op>, d: Spec, servers: seq<Server>)
    requires IoWorks(env) && NamesDoNotMatter(env) && env.runnable && RefusesDuplicates(env.valid, x)
    requires KnownSite(namespaces, s) && KnownOps(namespaces, ops) && Refines(w.files, s) && env.valid(View(w.files))
    requires DeletionsHarmless(env) && NothingEmpty(s, ops)
    requires Compiles(d, servers) && ReadsBack(x, Render(d.ann, servers))
    requires Current(SiteRun(env, s, ops), Id(d)) == Some(Text(x, d, servers))
    ensures RoutesAsWritten(x, View(Run(env, w, ops).files), Id(d).Target().Prod(), d)
  {
    var k := Id(d);
    RunRefines(env, namespaces, w, s, ops);
    RunsStayValid(env, namespaces, w, s, ops);
    RunStaysKnown(env, namespaces, s, ops);
    PublishedKey(namespaces, SiteRun(env, s, ops), k);
    AcceptedRoutes(env.valid, x, View(Run(env, w, ops).files), k.Target().Prod(), d, servers);
  }

  /** An Ingress that would define an upstream of another one that is deployed is refused. */
  lemma MeetingIsRefused(env: Env, x: Syntax, namespaces: set<string>, s: Site, k: Key, other: Key, file: seq<Block>,
                         name: string)
    requires env.runnable && RefusesDuplicates(env.valid, x) && ReadsBack(x, file)
    requires KnownSite(namespaces, s) && Known(namespaces, k) && other in s.confs && other != k
    requires Current(s, k) != Some("")
    requires name in Names(Upstreams(file)) && name in Names(x.Defines(s.confs[other]))
    ensures SiteStep(env, s, Put(k, x.text(file))) == s
  {
    MeetingIsInvalid(env.valid, x, namespaces, s.(confs := s.confs[k := x.text(file)]), k, other, name);
    RefusedIsNoStep(env, s, k, x.text(file));
  }

  lemma RefusedIsNoStep(env: Env, s: Site, k: Key, c: Content)
    requires env.runnable && !env.valid(Published(s.(confs := s.confs[k := c])))
    requires c != "" && Current(s, k) != Some("")
    ensures SiteStep(env, s, Put(k, c)) == s
  {
    assert k in s.confs ==> s.confs[k := s.confs[k]] == s.confs;
  }

  lemma MeetingIsInvalid(valid: Files -> bool, x: Syntax, namespaces: set<string>, s: Site, k: Key, other: Key, name: string)
    requires RefusesDuplicates(valid, x) && KnownSite(namespaces, s) && k in s.confs && other in s.confs && k != other
    requires name in Names(x.Defines(s.confs[k])) && name in Names(x.Defines(s.confs[other]))
    ensures !valid(Published(s))
  {
    var p, q := k.Target().Prod(), other.Target().Prod();
    PublishedKey(namespaces, s, k);
    PublishedKey(namespaces, s, other);
    SeparateByNamespaces(namespaces, k, other);
    assert p in k.Target().Touched() && q in other.Target().Touched();
    var i: nat :| 0 <= i < |x.Defines(s.confs[k])| && Names(x.Defines(s.confs[k]))[i] == name;
    var j: nat :| 0 <= j < |x.Defines(s.confs[other])| && Names(x.Defines(s.confs[other]))[j] == name;
    if valid(Published(s)) {
      SamePlace(x, Published(s), p, q, i, j);
    }
  }

  // ---------------------------------------------------------------- admitted, but never deployed

  /** What the webhook sees of an Ingress. */
  function Seen(ing: Ingress): seq<Admission.Snapshot> {
    seq(|ing.rules|, i requires 0 <= i < |ing.rules| =>
      Admission.Snapshot(ing.rules[i].host, Some(PathTexts(ing.rules[i]))))
  }

  function PathTexts(rule: Rule): seq<string> {
    seq(|rule.paths|, j requires 0 <= j < |rule.paths| => rule.paths[j].path)
  }

  /** An Ingress whose paths are all different and not empty, or one with weights, is admitted; if a
      service repeats over its paths, or if it has weights and two or more rules, it is never deployed,
      and every file nginx reads stays as it is. */
  lemma AdmittedButRefused(env: Env, x: Syntax, w: World, d: Spec, servers: seq<Server>, anns: Admission.Annotations)
    requires RefusesDuplicates(env.valid, x) && IoWorks(env) && env.runnable && ValidKey(Id(d))
    requires Compiles(d, servers) && ReadsBack(x, Render(d.ann, servers))
    requires Admission.PROXY_HOST_KEY !in anns
    requires d.ann.useWeight <==> Admission.ParsesTrue(Admission.Value(anns, Admission.USE_WEIGHT_KEY))
    requires if d.ann.useWeight then |d.ing.rules| >= 2
             else !Distinct(ServicesOf(AllPaths(d.ing.rules)))
                  && forall i :: 0 <= i < |d.ing.rules| ==>
                       Admission.Distinct(PathTexts(d.ing.rules[i])) && "" !in PathTexts(d.ing.rules[i])
    ensures Admission.PathVerdict(Seen(d.ing), anns) == Admission.Admitted
    ensures View(Deploy(env, w, Id(d).Target(), Text(x, d, servers)).0.files) == View(w.files) - {Id(d).Target().Test()}
  {
    RepeatedServicesAreRefused(env, x, w, d.ing, d.ann, d.cluster, d.tls, servers);
    IsAdmitted(d, anns);
  }

  lemma IsAdmitted(d: Spec, anns: Admission.Annotations)
    requires Admission.PROXY_HOST_KEY !in anns
    requires d.ann.useWeight <==> Admission.ParsesTrue(Admission.Value(anns, Admission.USE_WEIGHT_KEY))
    requires !d.ann.useWeight ==>
               forall i :: 0 <= i < |d.ing.rules| ==>
                 Admission.Distinct(PathTexts(d.ing.rules[i])) && "" !in PathTexts(d.ing.rules[i])
    ensures Admission.PathVerdict(Seen(d.ing), anns) == Admission.Admitted
  {
    if d.ann.useWeight {
      Admission.WeightsAdmitEverything(Seen(d.ing), anns);
    } else {
      Admission.AdmittedIff(Seen(d.ing), anns);
      forall i | 0 <= i < |d.ing.rules| ensures Admission.Accepts(PathTexts(d.ing.rules[i])) {
        Admission.GroupedIsDecided(PathTexts(d.ing.rules[i]));
      }
    }
  }

  // ---------------------------------------------------------------- what nginx runs

  /** At every moment of every interleaving, whatever goes wrong, every rendered file that nginx runs
      routes as written. */
  lemma RunningRoutes(valid: Files -> bool, x: Syntax, m: Interleaving.Machine, actions: seq<Interleaving.Action>, p: Path,
                      d: Spec, servers: seq<Server>)
    requires RefusesDuplicates(valid, x) && valid(m.running) && Interleaving.CanRun(valid, m, actions)
    requires Compiles(d, servers) && ReadsBack(x, Render(d.ann, servers))
    requires Look(Interleaving.After(valid, m, actions).running, p) == Some(Text(x, d, servers))
    ensures RoutesAsWritten(x, Interleaving.After(valid, m, actions).running, p, d)
  {
    Interleaving.RunningIsAccepted(valid, m, actions);
    AcceptedRoutes(valid, x, Interleaving.After(valid, m, actions).running, p, d, servers);
  }

  /** When everything has come to rest after any interleaving of benign steps, and nginx could load
      what is on disk, it runs the file of every Ingress that is on disk, and routes as written. */
  lemma ServedAtRest(valid: Files -> bool, x: Syntax, m: Interleaving.Machine, actions: seq<Interleaving.Action>,
                     d: Spec, servers: seq<Server>)
    requires RefusesDuplicates(valid, x) && ValidKey(Id(d))
    requires m.Quiescent() && m.running == m.Disk()
    requires Interleaving.CanRun(valid, m, actions) && Convergence.AllBenign(valid, m, actions)
    requires Compiles(d, servers) && ReadsBack(x, Render(d.ann, servers))
    requires var end := Interleaving.After(valid, m, actions);
             end.Quiescent() && valid(end.Disk()) && Look(end.files, Id(d).Target().Prod()) == Some(Text(x, d, servers))
    ensures var (running, p) := (Interleaving.After(valid, m, actions).running, Id(d).Target().Prod());
            Look(running, p) == Some(Text(x, d, servers)) && RoutesAsWritten(x, running, p, d)
  {
    var end, p := Interleaving.After(valid, m, actions), Id(d).Target().Prod();
    Convergence.Converged(valid, m, actions);
    OwnViews(Id(d));
    assert Look(end.running, p) == Look(end.files, p);
    AcceptedRoutes(valid, x, end.running, p, d, servers);
  }
}
