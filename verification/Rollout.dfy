/** Whole runs of deployments and deletions. The files nginx reads refine a map from ingresses to
    contents on which a deployment is one conditional update. */
module Rollout {
  import opened Results
  import opened ConfNames
  import opened Nginx
  import opened ReloadLaws
  import opened Bags

  datatype Op =
    | Put(key: Key, content: Content)          // an ingress with rules is reconciled
    | PutMain(content: Content)                // an ingress with a default backend is reconciled
    | Delete(key: Key, default: Content)       // an ingress is gone

  // ---------------------------------------------------------------- the files

  function Step(env: Env, w: World, op: Op): World {
    match op
    case Put(k, c) => Deploy(env, w, k.Target(), c).0
    case PutMain(c) => Deploy(env, w, MainTarget(), c).0
    case Delete(k, default) => Clear(env, w, k.Target(), default)
  }

  function Run(env: Env, w: World, ops: seq<Op>): World
    decreases |ops|
  {
    if ops == [] then w else Run(env, Step(env, w, ops[0]), ops[1..])
  }

  // ---------------------------------------------------------------- the map

  /** The main file and the file of every ingress. */
  datatype Site = Site(main: Content, confs: map<Key, Content>)

  ghost predicate Known(namespaces: set<string>, k: Key) {
    ValidKey(k) && k.namespace in namespaces
  }

  ghost predicate KnownSite(namespaces: set<string>, s: Site) {
    SafeNamespaces(namespaces) && forall k :: k in s.confs ==> Known(namespaces, k)
  }

  predicate IsConf(confs: map<Key, Content>, p: Path) {
    exists k :: k in confs && k.Target().Prod() == p
  }

  /** The files of a site. */
  ghost function Published(s: Site): Files {
    (map p | p in (set k | k in s.confs :: k.Target().Prod()) :: s.confs[OwnerOf(s.confs, p)])[MAIN_CONF := s.main]
  }

  ghost function OwnerOf(confs: map<Key, Content>, p: Path): (k: Key)
    requires IsConf(confs, p)
    ensures k in confs && k.Target().Prod() == p
  {
    var k :| k in confs && k.Target().Prod() == p;
    k
  }

  /** A conditional update of one file: an equal content changes nothing, nothing replaces an
      empty file, and an empty content is let through if there is a file. */
  function Update(current: Option<Content>, c: Content, admitted: bool): Option<Content> {
    if current == Some(c) || current == Some("") then current
    else if current.Some? && c == "" then Some("")
    else if admitted then Some(c)
    else current
  }

  ghost predicate Admits(env: Env, s: Site) {
    env.runnable ==> env.valid(Published(s))
  }

  function Current(s: Site, k: Key): Option<Content> {
    if k in s.confs then Some(s.confs[k]) else None
  }

  ghost function SiteStep(env: Env, s: Site, op: Op): Site {
    match op
    case Put(k, c) =>
      (match Update(Current(s, k), c, Admits(env, s.(confs := s.confs[k := c])))
       case Some(d) => s.(confs := s.confs[k := d])
       case None => s)
    case PutMain(c) => s.(main := Update(Some(s.main), c, Admits(env, s.(main := c))).value)
    case Delete(k, default) =>
      if k in s.confs then s.(confs := s.confs - {k})
      else s.(main := Update(Some(s.main), default, Admits(env, s.(main := default))).value)
  }

  ghost function SiteRun(env: Env, s: Site, ops: seq<Op>): Site
    decreases |ops|
  {
    if ops == [] then s else SiteRun(env, SiteStep(env, s, ops[0]), ops[1..])
  }

  // ---------------------------------------------------------------- refinement

  /** nginx looks at the main file and at the bag of included contents, not at their names. */
  ghost predicate NamesDoNotMatter(env: Env) {
    forall u: Files, v: Files ::
      Look(u, MAIN_CONF) == Look(v, MAIN_CONF) && SameBag(u - {MAIN_CONF}, v - {MAIN_CONF})
      ==> env.valid(u) == env.valid(v)
  }

  ghost predicate Refines(files: Files, s: Site) {
    View(files) == Published(s)
  }

  lemma IncludedConf(base: string)
    requires base != "" && base[0] != '.' && '/' !in base
    ensures Included(CONF_DIR + "/" + base + ".conf")
    ensures CONF_DIR + "/" + base + ".conf" != MAIN_CONF
  {
    var d := CONF_DIR + "/";
    var p := d + base + ".conf";
    assert p[..|d|] == d && p[|d|..] == base + ".conf";
    EndsIn(d + base, ".conf");
    assert MAIN_CONF[11] == 'n' && p[11] == d[11] == 'c';
  }

  lemma BackupNotIncluded(base: string)
    ensures !Included(CONF_DIR + "/" + base + ".tmp") && CONF_DIR + "/" + base + ".tmp" != MAIN_CONF
  {
    var p := CONF_DIR + "/" + base + ".tmp";
    assert p[|p| - 1] == 'p' && MAIN_CONF[|MAIN_CONF| - 1] == 'f';
    assert p[|p| - 5..][4] == 'p' && ".conf"[4] == 'f';
  }

  lemma BesideNotIncluded(base: string)
    requires |base| >= 2 && '/' !in base
    ensures !Included(At(NGINX_DIR, base).Test()) && At(NGINX_DIR, base).Test() != MAIN_CONF
  {
    var d := CONF_DIR + "/";
    var q := At(NGINX_DIR, base).Test();
    var tail := base + "-test.conf";
    assert |q| > |MAIN_CONF|;
    assert q == "/etc/nginx/" + tail && q[17] == tail[6];
    assert tail[6] in tail;
    assert q[..|d|][17] != '/' && d[17] == '/';
  }

  /** Which files of an ingress nginx reads. */
  lemma OwnViews(k: Key)
    requires ValidKey(k)
    ensures Included(k.Target().Prod()) && Included(k.Target().Test()) && !Included(k.Target().Backup())
    ensures MAIN_CONF !in k.Target().Touched()
    ensures At(NGINX_DIR, k.Base()).Test() != MAIN_CONF && !Included(At(NGINX_DIR, k.Base()).Test())
  {
    PlainBase(k);
    IncludedConf(k.Base());
    IncludedConf(k.Base() + "-test");
    TestAsProd(k.Base());
    BackupNotIncluded(k.Base());
    BesideNotIncluded(k.Base());
  }

  lemma MainViews()
    ensures MainTarget().Prod() == MAIN_CONF && !Included(MAIN_CONF)
    ensures MainTarget().Test() != MAIN_CONF && !Included(MainTarget().Test())
    ensures MainTarget().Backup() != MAIN_CONF && !Included(MainTarget().Backup())
    ensures At(NGINX_DIR, MainTarget().base) == MainTarget()
  {
    var d := CONF_DIR + "/";
    OwnPathsDiffer(MainTarget());
    assert d[11] == 'c';
    assert MAIN_CONF[11] == 'n' && MainTarget().Test()[11] == 'n' && MainTarget().Backup()[11] == 'n';
  }

  lemma ViewWrite(files: Files, p: Path, c: Content)
    ensures View(files[p := c]) == if p == MAIN_CONF || Included(p) then View(files)[p := c] else View(files)
  {
  }

  lemma ViewRemove(files: Files, gone: set<Path>)
    ensures View(files - gone) == View(files) - gone
  {
  }

  lemma ProdOf(namespaces: set<string>, s: Site, k: Key)
    requires KnownSite(namespaces, s) && Known(namespaces, k)
    ensures k.Target().Prod() in Published(s) <==> k in s.confs
    ensures k in s.confs ==> Published(s)[k.Target().Prod()] == s.confs[k]
    ensures k.Target().Test() !in Published(s) && k.Target().Backup() !in Published(s)
  {
    OwnViews(k);
    OwnPathsDiffer(k.Target());
    assert k.Target().Prod() in k.Target().Touched();
    assert k.Target().Test() in k.Target().Touched();
    assert k.Target().Backup() in k.Target().Touched();
    forall other | other in s.confs && other != k
      ensures other.Target().Prod() !in k.Target().Touched()
    {
      SeparateByNamespaces(namespaces, k, other);
      assert other.Target().Prod() in other.Target().Touched();
    }
  }

  lemma PublishedPut(namespaces: set<string>, s: Site, k: Key, c: Content)
    requires KnownSite(namespaces, s) && Known(namespaces, k)
    ensures Published(s.(confs := s.confs[k := c])) == Published(s)[k.Target().Prod() := c]
  {
    var a, b := Published(s.(confs := s.confs[k := c])), Published(s)[k.Target().Prod() := c];
    forall p: Path ensures Look(a, p) == Look(b, p) {
      PublishedPutAt(namespaces, s, k, c, p);
    }
    SameFiles(a, b);
  }

  lemma SameFiles(a: Files, b: Files)
    requires forall p: Path :: Look(a, p) == Look(b, p)
    ensures a == b
  {
    forall p: Path ensures p in a <==> p in b {
      assert Look(a, p) == Look(b, p);
    }
    forall p | p in a ensures a[p] == b[p] {
      assert Look(a, p) == Look(b, p);
    }
  }

  /** What one file of a site holds: the file of a key, the main file, any other one. */
  lemma PublishedKey(namespaces: set<string>, s: Site, k: Key)
    requires KnownSite(namespaces, s) && k in s.confs
    ensures k.Target().Prod() != MAIN_CONF && Look(Published(s), k.Target().Prod()) == Some(s.confs[k])
  {
    ProdOf(namespaces, s, k);
    OwnViews(k);
    assert k.Target().Prod() in k.Target().Touched();
  }

  lemma PublishedOther(s: Site, p: Path)
    requires !IsConf(s.confs, p)
    ensures Look(Published(s), p) == if p == MAIN_CONF then Some(s.main) else None
  {
  }

  lemma ConfsPut(confs: map<Key, Content>, k: Key, c: Content, p: Path)
    requires !IsConf(confs, p) && p != k.Target().Prod()
    ensures !IsConf(confs[k := c], p)
  {
  }

  lemma PublishedPutAt(namespaces: set<string>, s: Site, k: Key, c: Content, p: Path)
    requires KnownSite(namespaces, s) && Known(namespaces, k)
    ensures Look(Published(s.(confs := s.confs[k := c])), p) == Look(Published(s)[k.Target().Prod() := c], p)
  {
    var s1 := s.(confs := s.confs[k := c]);
    if p == k.Target().Prod() {
      PublishedKey(namespaces, s1, k);
    } else if q :| q in s.confs && q.Target().Prod() == p {
      PublishedKey(namespaces, s, q);
      PublishedKey(namespaces, s1, q);
    } else {
      PublishedOther(s, p);
      ConfsPut(s.confs, k, c, p);
      PublishedOther(s1, p);
    }
  }

  lemma Undo(m: Files, p: Path, c: Content)
    requires p !in m
    ensures m[p := c] - {p} == m
  {
  }

  lemma WithoutKey(s: Site, k: Key) returns (rest: Site)
    requires k in s.confs
    ensures rest == s.(confs := s.confs - {k}) && k !in rest.confs
    ensures s == rest.(confs := rest.confs[k := s.confs[k]])
  {
    rest := s.(confs := s.confs - {k});
    assert s.confs == rest.confs[k := s.confs[k]];
  }

  lemma PublishedDelete(namespaces: set<string>, s: Site, k: Key)
    requires KnownSite(namespaces, s) && k in s.confs
    ensures Published(s.(confs := s.confs - {k})) == Published(s) - {k.Target().Prod()}
  {
    var rest := WithoutKey(s, k);
    ProdOf(namespaces, rest, k);
    PublishedPut(namespaces, rest, k, s.confs[k]);
    Undo(Published(rest), k.Target().Prod(), s.confs[k]);
  }

  /** The candidate of a first reload, tested under its test name, stands for the same candidate
      under its production name. */
  lemma TestNameStandsIn(env: Env, view: Files, test: Path, prod: Path, c: Content)
    requires NamesDoNotMatter(env)
    requires test !in view && prod !in view && test != MAIN_CONF && prod != MAIN_CONF
    ensures env.valid(view[test := c]) == env.valid(view[prod := c])
  {
    var rest := view - {MAIN_CONF};
    SameInsert(rest, test, prod, c);
    assert view[test := c] - {MAIN_CONF} == rest[test := c];
    assert view[prod := c] - {MAIN_CONF} == rest[prod := c];
  }

  /** nginx's view after a reload is its view before the candidate was written, updated. */
  lemma ReplacedView(files: Files, prod: Path, test: Path, bak: Path, rejected: bool, c: Content, view: Files)
    requires prod != test && prod != bak && test != bak
    requires Viewed(prod) && !Viewed(bak) && Look(files, test) == Some(c)
    requires View(files) - {test} == view
    ensures View(ReplacedAt(files, prod, test, bak, rejected)) ==
            match Update(Look(view, prod), c, !rejected)
            case Some(d) => view[prod := d]
            case None => view
  {
    var rest := files - {test, bak};
    ViewRemove(files, {test, bak});
    assert View(rest) == view;
    ViewWrite(rest, prod, c);
    assert Look(view, prod) == Look(files, prod);
    if prod in view {
      assert view[prod := view[prod]] == view;
    }
  }

  /** nginx's view of a later candidate. */
  lemma LaterView(files: Files, prod: Path, test: Path, bak: Path, c: Content, view: Files)
    requires prod != test && prod != bak && test != bak
    requires Viewed(prod) && !Viewed(bak) && Look(files, test) == Some(c)
    requires View(files) - {test} == view && prod in view
    ensures View(CandidateAt(files, prod, test, bak)) == view[prod := c]
  {
    var saved := files[bak := files[prod]];
    ViewWrite(files, bak, files[prod]);
    ViewWrite(saved, prod, c);
    ViewRemove(saved[prod := c], {test});
  }

  /** What a reload finds once the candidate of `k` is written. */
  lemma Prepared(namespaces: set<string>, files: Files, s: Site, k: Key, beside: Path, c: Content)
    requires KnownSite(namespaces, s) && Known(namespaces, k) && Refines(files, s)
    requires beside == At(NGINX_DIR, k.Base()).Test()
    ensures beside != k.Target().Test() && !Viewed(beside)
    ensures View(files[k.Target().Test() := c][beside := c]) == Published(s)[k.Target().Test() := c]
  {
    OwnViews(k);
    assert k.Target().Test() in k.Target().Touched();
    InDirectory(k, k, k.Target().Test());
    ViewWrite(files, k.Target().Test(), c);
    ViewWrite(files[k.Target().Test() := c], beside, c);
  }

  lemma PathFacts(namespaces: set<string>, s: Site, k: Key) returns (prod: Path, test: Path, bak: Path)
    requires KnownSite(namespaces, s) && Known(namespaces, k)
    ensures prod == k.Target().Prod() && test == k.Target().Test() && bak == k.Target().Backup()
    ensures prod != test && prod != bak && test != bak && prod != MAIN_CONF && test != MAIN_CONF
    ensures Viewed(prod) && !Viewed(bak) && test !in Published(s)
    ensures Look(Published(s), prod) == Current(s, k)
  {
    prod, test, bak := k.Target().Prod(), k.Target().Test(), k.Target().Backup();
    OwnPathsDiffer(k.Target());
    OwnViews(k);
    assert bak in k.Target().Touched() && prod in k.Target().Touched() && test in k.Target().Touched();
    ProdOf(namespaces, s, k);
  }

  lemma CandidateAdmitted(env: Env, namespaces: set<string>, ready: Files, s: Site, k: Key, c: Content)
    requires NamesDoNotMatter(env) && KnownSite(namespaces, s) && Known(namespaces, k)
    requires View(ready) == Published(s)[k.Target().Test() := c] && Look(ready, k.Target().Test()) == Some(c)
    ensures RejectsCandidate(env, ready, k.Target()) <==> !Admits(env, s.(confs := s.confs[k := c]))
  {
    var prod, test, bak := PathFacts(namespaces, s, k);
    PublishedPut(namespaces, s, k, c);
    CandidateViews(env, ready, prod, test, bak, c, Published(s));
  }

  lemma CandidateViews(env: Env, ready: Files, prod: Path, test: Path, bak: Path, c: Content, view: Files)
    requires NamesDoNotMatter(env)
    requires prod != test && prod != bak && test != bak && prod != MAIN_CONF && test != MAIN_CONF
    requires Viewed(prod) && !Viewed(bak) && test !in view
    requires View(ready) == view[test := c] && Look(ready, test) == Some(c)
    ensures env.valid(View(CandidateAt(ready, prod, test, bak))) == env.valid(view[prod := c])
  {
    assert view[test := c] - {test} == view;
    if prod in view {
      LaterView(ready, prod, test, bak, c, view);
    } else {
      assert prod !in View(ready);
      TestNameStandsIn(env, view, test, prod, c);
    }
  }

  lemma Produced(env: Env, w: World, t: Target, c: Content) returns (w1: World)
    requires IoWorks(env)
    ensures Deploy(env, w, t, c) == Reload(env, w1, t)
    ensures w1.files == w.files[t.Test() := c][At(NGINX_DIR, t.base).Test() := c]
  {
    w1 := Produce(env, w, t, c).0;
  }

  lemma PutRefines(env: Env, namespaces: set<string>, w: World, s: Site, k: Key, c: Content)
    requires IoWorks(env) && NamesDoNotMatter(env) && KnownSite(namespaces, s) && Known(namespaces, k)
    requires Refines(w.files, s)
    ensures Refines(Step(env, w, Put(k, c)).files, SiteStep(env, s, Put(k, c)))
  {
    var t := k.Target();
    var beside := At(NGINX_DIR, k.Base()).Test();
    Prepared(namespaces, w.files, s, k, beside, c);
    var ready := w.files[t.Test() := c][beside := c];
    var w1 := Produced(env, w, t, c);
    ReloadReplaces(env, w1, t);
    CandidateAdmitted(env, namespaces, ready, s, k, c);
    ReadyView(env, namespaces, ready, s, k, c);
    PutPublished(env, namespaces, s, k, c);
  }

  lemma ReadyView(env: Env, namespaces: set<string>, ready: Files, s: Site, k: Key, c: Content)
    requires KnownSite(namespaces, s) && Known(namespaces, k)
    requires View(ready) == Published(s)[k.Target().Test() := c] && Look(ready, k.Target().Test()) == Some(c)
    ensures View(Replaced(env, ready, k.Target())) ==
            match Update(Current(s, k), c, !RejectsCandidate(env, ready, k.Target()))
            case Some(d) => Published(s)[k.Target().Prod() := d]
            case None => Published(s)
  {
    var prod, test, bak := PathFacts(namespaces, s, k);
    Undo(Published(s), test, c);
    ReplacedView(ready, prod, test, bak, RejectsCandidate(env, ready, k.Target()), c, Published(s));
  }

  lemma PutPublished(env: Env, namespaces: set<string>, s: Site, k: Key, c: Content)
    requires KnownSite(namespaces, s) && Known(namespaces, k)
    ensures Published(SiteStep(env, s, Put(k, c))) ==
            match Update(Current(s, k), c, Admits(env, s.(confs := s.confs[k := c])))
            case Some(d) => Published(s)[k.Target().Prod() := d]
            case None => Published(s)
  {
    match Update(Current(s, k), c, Admits(env, s.(confs := s.confs[k := c])))
    case Some(d) => PublishedPut(namespaces, s, k, d);
    case None =>
  }

  lemma PublishedMain(s: Site, d: Content)
    ensures Published(s.(main := d)) == Published(s)[MAIN_CONF := d]
  {
  }

  lemma MainPaths() returns (prod: Path, test: Path, bak: Path)
    ensures prod == MainTarget().Prod() && test == MainTarget().Test() && bak == MainTarget().Backup()
    ensures prod == MAIN_CONF && prod != test && prod != bak && test != bak
    ensures !Viewed(test) && !Viewed(bak)
  {
    prod, test, bak := MainTarget().Prod(), MainTarget().Test(), MainTarget().Backup();
    MainViews();
    OwnPathsDiffer(MainTarget());
  }

  /** Writing the main file through a reload. */
  lemma MainReplaced(env: Env, files: Files, s: Site, c: Content)
    requires Refines(files, s)
    requires Look(files, MainTarget().Test()) == Some(c)
    ensures var main := Update(Some(s.main), c, Admits(env, s.(main := c)));
            Refines(Replaced(env, files, MainTarget()), s.(main := main.value))
  {
    var prod, test, bak := MainPaths();
    var view := View(files);
    assert view - {test} == view;
    LaterView(files, prod, test, bak, c, view);
    PublishedMain(s, c);
    var rejected := RejectsCandidate(env, files, MainTarget());
    ReplacedView(files, prod, test, bak, rejected, c, view);
    var main := Update(Some(s.main), c, Admits(env, s.(main := c)));
    PublishedMain(s, main.value);
    assert Look(view, prod) == Some(s.main);
  }

  lemma MainRefines(env: Env, w: World, s: Site, c: Content)
    requires IoWorks(env) && Refines(w.files, s)
    ensures Refines(Deploy(env, w, MainTarget(), c).0.files, SiteStep(env, s, PutMain(c)))
    ensures Refines(ResetMain(env, w, c).0.files, SiteStep(env, s, PutMain(c)))
  {
    var t := MainTarget();
    MainViews();
    var files := w.files[t.Test() := c];
    ViewWrite(w.files, t.Test(), c);
    MainReplaced(env, files, s, c);
    var (w1, s1) := Produce(env, w, t, c);
    assert w1.files == files;
    ReloadReplaces(env, w1, t);
    var (w2, ok) := Write(env, w, t.Test(), c);
    ReloadReplaces(env, w2, t);
  }

  lemma DeleteRefines(env: Env, namespaces: set<string>, w: World, s: Site, k: Key, default: Content)
    requires IoWorks(env) && KnownSite(namespaces, s) && Known(namespaces, k)
    requires Refines(w.files, s)
    ensures Refines(Step(env, w, Delete(k, default)).files, SiteStep(env, s, Delete(k, default)))
  {
    PresentIff(namespaces, w.files, s, k);
    if k in s.confs {
      RemovalRefines(env, namespaces, w, s, k);
    } else {
      MainRefines(env, w, s, default);
    }
  }

  lemma PresentIff(namespaces: set<string>, files: Files, s: Site, k: Key)
    requires KnownSite(namespaces, s) && Known(namespaces, k) && Refines(files, s)
    ensures k.Target().Prod() in files <==> k in s.confs
  {
    OwnViews(k);
    ProdOf(namespaces, s, k);
    assert k.Target().Prod() in files <==> k.Target().Prod() in View(files);
  }

  lemma RemovalRefines(env: Env, namespaces: set<string>, w: World, s: Site, k: Key)
    requires IoWorks(env) && KnownSite(namespaces, s) && k in s.confs && Refines(w.files, s)
    ensures Refines(Clean(env, w, [k.Target().Prod()]).files, s.(confs := s.confs - {k}))
  {
    var p := k.Target().Prod();
    PresentIff(namespaces, w.files, s, k);
    CleanOne(env, w, p);
    ViewRemove(w.files, {p});
    PublishedDelete(namespaces, s, k);
  }

  ghost predicate KnownOps(namespaces: set<string>, ops: seq<Op>) {
    forall op :: op in ops ==> (op.Put? || op.Delete?) ==> Known(namespaces, op.key)
  }

  /** Every run of deployments and deletions over safe namespaces refines the run of the map. */
  lemma {:induction false} RunRefines(env: Env, namespaces: set<string>, w: World, s: Site, ops: seq<Op>)
    requires IoWorks(env) && NamesDoNotMatter(env) && KnownSite(namespaces, s) && KnownOps(namespaces, ops)
    requires Refines(w.files, s)
    ensures Refines(Run(env, w, ops).files, SiteRun(env, s, ops))
    decreases |ops|
  {
    if ops != [] {
      match ops[0] {
        case Put(k, c) => PutRefines(env, namespaces, w, s, k, c);
        case PutMain(c) => MainRefines(env, w, s, c);
        case Delete(k, default) => DeleteRefines(env, namespaces, w, s, k, default);
      }
      RunRefines(env, namespaces, Step(env, w, ops[0]), SiteStep(env, s, ops[0]), ops[1..]);
    }
  }

  // ---------------------------------------------------------------- what the map guarantees

  /** A site that nginx accepts stays accepted when an ingress is deleted. */
  ghost predicate DeletionsHarmless(env: Env) {
    forall s: Site, k: Key :: env.valid(Published(s)) ==> env.valid(Published(s.(confs := s.confs - {k})))
  }

  function Content(op: Op): Content {
    match op
    case Put(_, c) => c
    case PutMain(c) => c
    case Delete(_, default) => default
  }

  ghost predicate NothingEmpty(s: Site, ops: seq<Op>) {
    s.main != "" && (forall k :: k in s.confs ==> s.confs[k] != "") && forall op :: op in ops ==> Content(op) != ""
  }

  lemma UpdateStays(current: Option<Content>, c: Content, admitted: bool)
    requires c != "" && current != Some("")
    ensures Update(current, c, admitted) == current || (Update(current, c, admitted) == Some(c) && admitted)
  {
  }

  lemma PutCases(s: Site, k: Key, c: Content, admitted: bool)
    requires c != "" && Current(s, k) != Some("")
    ensures match Update(Current(s, k), c, admitted)
            case Some(d) => s.confs[k := d] == s.confs || (d == c && admitted)
            case None => true
  {
    UpdateStays(Current(s, k), c, admitted);
    if k in s.confs {
      assert s.confs[k := s.confs[k]] == s.confs;
    }
  }

  lemma PutStaysValid(env: Env, s: Site, k: Key, c: Content)
    requires env.runnable && env.valid(Published(s)) && c != "" && Current(s, k) != Some("")
    ensures SiteStep(env, s, Put(k, c)) == s
         || (SiteStep(env, s, Put(k, c)) == s.(confs := s.confs[k := c])
             && env.valid(Published(s.(confs := s.confs[k := c]))))
  {
    PutCases(s, k, c, Admits(env, s.(confs := s.confs[k := c])));
  }

  lemma MainStaysValid(env: Env, s: Site, c: Content)
    requires env.runnable && env.valid(Published(s)) && c != "" && s.main != ""
    ensures SiteStep(env, s, PutMain(c)) == s
         || (SiteStep(env, s, PutMain(c)) == s.(main := c) && env.valid(Published(s.(main := c))))
  {
    UpdateStays(Some(s.main), c, Admits(env, s.(main := c)));
  }

  lemma StepStaysValid(env: Env, s: Site, op: Op, ops: seq<Op>)
    requires env.runnable && DeletionsHarmless(env) && NothingEmpty(s, [op] + ops)
    requires env.valid(Published(s))
    ensures env.valid(Published(SiteStep(env, s, op))) && NothingEmpty(SiteStep(env, s, op), ops)
  {
    assert op in [op] + ops;
    assert forall o :: o in ops ==> o in [op] + ops;
    match op
    case Put(k, c) => PutStaysValid(env, s, k, c);
    case PutMain(c) => MainStaysValid(env, s, c);
    case Delete(k, default) =>
      MainStaysValid(env, s, default);
  }

  /** Over a whole run of non-empty contents nginx could load what is on disk after every step. */
  lemma {:induction false} SitesStayValid(env: Env, s: Site, ops: seq<Op>)
    requires env.runnable && DeletionsHarmless(env) && NothingEmpty(s, ops)
    requires env.valid(Published(s))
    ensures env.valid(Published(SiteRun(env, s, ops)))
    decreases |ops|
  {
    if ops != [] {
      var op, rest := ops[0], ops[1..];
      assert [op] + rest == ops;
      StepStaysValid(env, s, op, rest);
      var s1 := SiteStep(env, s, op);
      SitesStayValid(env, s1, rest);
      assert SiteRun(env, s, ops) == SiteRun(env, s1, rest);
    }
  }

  lemma RunsStayValid(env: Env, namespaces: set<string>, w: World, s: Site, ops: seq<Op>)
    requires IoWorks(env) && NamesDoNotMatter(env) && KnownSite(namespaces, s) && KnownOps(namespaces, ops)
    requires Refines(w.files, s)
    requires env.runnable && DeletionsHarmless(env) && NothingEmpty(s, ops)
    requires env.valid(View(w.files))
    ensures env.valid(View(Run(env, w, ops).files))
  {
    RunRefines(env, namespaces, w, s, ops);
    SitesStayValid(env, s, ops);
  }

  lemma {:induction false} EmptyStays(env: Env, s: Site, k: Key, ops: seq<Op>)
    requires Current(s, k) == Some("")
    requires forall op :: op in ops ==> !(op.Delete? && op.key == k)
    ensures Current(SiteRun(env, s, ops), k) == Some("")
    decreases |ops|
  {
    if ops != [] {
      assert ops[0] in ops;
      EmptyStays(env, SiteStep(env, s, ops[0]), k, ops[1..]);
    }
  }

  lemma {:induction false} RunStaysKnown(env: Env, namespaces: set<string>, s: Site, ops: seq<Op>)
    requires KnownSite(namespaces, s) && KnownOps(namespaces, ops)
    ensures KnownSite(namespaces, SiteRun(env, s, ops))
    decreases |ops|
  {
    if ops != [] {
      assert ops[0] in ops;
      RunStaysKnown(env, namespaces, SiteStep(env, s, ops[0]), ops[1..]);
    }
  }

  /** What the files hold after a run is what the map holds. */
  lemma RunHolds(env: Env, namespaces: set<string>, w: World, s: Site, ops: seq<Op>, k: Key)
    requires IoWorks(env) && NamesDoNotMatter(env) && KnownSite(namespaces, s) && KnownOps(namespaces, ops)
    requires Refines(w.files, s) && Known(namespaces, k)
    ensures Look(Run(env, w, ops).files, k.Target().Prod()) == Current(SiteRun(env, s, ops), k)
  {
    RunRefines(env, namespaces, w, s, ops);
    RunStaysKnown(env, namespaces, s, ops);
    FileOf(namespaces, Run(env, w, ops).files, SiteRun(env, s, ops), k);
  }

  lemma FileOf(namespaces: set<string>, files: Files, s: Site, k: Key)
    requires KnownSite(namespaces, s) && Refines(files, s) && Known(namespaces, k)
    ensures Look(files, k.Target().Prod()) == Current(s, k)
  {
    var prod, test, bak := PathFacts(namespaces, s, k);
    assert Look(View(files), prod) == Look(files, prod);
  }

  /** An empty production file is stuck: through every run of deployments and of deletions of other
      ingresses it stays on disk, and stays empty. */
  lemma EmptyIsStuck(env: Env, namespaces: set<string>, w: World, s: Site, ops: seq<Op>, k: Key)
    requires IoWorks(env) && NamesDoNotMatter(env) && KnownSite(namespaces, s) && KnownOps(namespaces, ops)
    requires Refines(w.files, s) && Known(namespaces, k)
    requires Look(w.files, k.Target().Prod()) == Some("")
    requires forall op :: op in ops ==> !(op.Delete? && op.key == k)
    ensures Look(Run(env, w, ops).files, k.Target().Prod()) == Some("")
  {
    FileOf(namespaces, w.files, s, k);
    EmptyStays(env, s, k, ops);
    RunHolds(env, namespaces, w, s, ops, k);
  }

  // ---------------------------------------------------------------- who owns the main file

  /** Clearing an ingress replaces the main file, and with it whatever default backend another
      ingress has put there, exactly when the ingress has no file of its own, the main file is neither
      empty nor the default, and the default is let through. Otherwise the main file stays, also the
      default backend that the cleared ingress itself has put there. */
  lemma ClearTouchesMainIff(env: Env, namespaces: set<string>, w: World, s: Site, k: Key, default: Content)
    requires IoWorks(env) && KnownSite(namespaces, s) && Known(namespaces, k) && Refines(w.files, s)
    ensures var after := Clear(env, w, k.Target(), default).files;
            && (Look(after, MAIN_CONF) != Look(w.files, MAIN_CONF) <==>
                  && k.Target().Prod() !in w.files
                  && s.main !in {"", default}
                  && (default == "" || Admits(env, s.(main := default))))
            && Look(after, MAIN_CONF) in {Look(w.files, MAIN_CONF), Some(default)}
  {
    var after := Clear(env, w, k.Target(), default).files;
    PresentIff(namespaces, w.files, s, k);
    DeleteRefines(env, namespaces, w, s, k, default);
    assert Look(after, MAIN_CONF) == Look(View(after), MAIN_CONF);
    assert Look(w.files, MAIN_CONF) == Look(View(w.files), MAIN_CONF);
  }
}
