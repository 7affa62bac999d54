/** What nginx reads in the files of the controller, and the rule that decides which of them it can
    load: an upstream name is defined once in the whole configuration. */
module Loading {
  import opened Results
  import opened ConfNames
  import opened Nginx
  import opened ReloadLaws
  import opened Signals
  import opened Template
  import opened Translate
  import opened Ingresses
  import Rollout
  import Routing

  /** How files are written and read: the text of rendered blocks, and the blocks nginx reads. */
  datatype Syntax = Syntax(text: seq<Block> -> Content, blocks: Content -> seq<Block>)
  {
    /** The upstreams that a content defines. */
    function Defines(c: Content): seq<Upstream> { Upstreams(blocks(c)) }
  }

  /** nginx reads this file back as it was rendered, and it is not empty. */
  predicate ReadsBack(x: Syntax, file: seq<Block>) {
    x.blocks(x.text(file)) == file && x.text(file) != ""
  }

  /** Every upstream name is defined at one place of the view. */
  ghost predicate OneDefinition(x: Syntax, view: Files) {
    forall p, q, i, j ::
      && p in view && q in view
      && 0 <= i < |x.Defines(view[p])| && 0 <= j < |x.Defines(view[q])|
      && x.Defines(view[p])[i].name == x.Defines(view[q])[j].name
      ==> p == q && i == j
  }

  /** The rule of nginx: a duplicate upstream is an error. */
  ghost predicate RefusesDuplicates(valid: Files -> bool, x: Syntax) {
    forall view: Files :: valid(view) ==> OneDefinition(x, view)
  }

  /** It is the only thing that makes a second copy of an included file an error: everything else
      that is repeated is at most a warning. */
  ghost predicate CopiesOtherwiseHarmless(valid: Files -> bool, x: Syntax) {
    forall view: Files, p: Path, q: Path ::
      valid(view) && p in view && q !in view && p != MAIN_CONF && Included(q) && x.Defines(view[p]) == []
      ==> valid(view[q := view[p]])
  }

  lemma FileIsUnique(x: Syntax, view: Files, p: Path)
    requires OneDefinition(x, view) && p in view
    ensures UniqueUpstreams(x.blocks(view[p]))
  {
    var us := x.Defines(view[p]);
    forall i, j | 0 <= i < j < |us| ensures Names(us)[i] != Names(us)[j] {
      assert us[i].name == us[j].name ==> i == j;
    }
  }

  lemma SamePlace(x: Syntax, view: Files, p: Path, q: Path, i: nat, j: nat)
    requires OneDefinition(x, view) && p in view && q in view
    requires i < |x.Defines(view[p])| && j < |x.Defines(view[q])|
    requires x.Defines(view[p])[i].name == x.Defines(view[q])[j].name
    ensures p == q && i == j
  {
  }

  lemma CopiesDefineNothing(x: Syntax, view: Files, p: Path, q: Path)
    requires OneDefinition(x, view) && p in view && q in view && p != q && view[p] == view[q]
    ensures x.Defines(view[p]) == []
  {
    if x.Defines(view[p]) != [] {
      SamePlace(x, view, p, q, 0, 0);
    }
  }

  // ---------------------------------------------------------------- first signals

  lemma TestIsNotMain(t: Target)
    ensures t.Test() != MAIN_CONF
  {
    var p := t.Test();
    var head := t.dir + "/" + t.base;
    assert p == head + "-test.conf";
    assert p[|head|..] == "-test.conf" && p[|head|..][4] == 't';
    assert p[|p| - 6] == 't' && MAIN_CONF[|MAIN_CONF| - 6] == 'x';
  }

  /** The signal of a first reload finds a view that nginx can load exactly when the candidate
      defines no upstream; otherwise the file is loaded by the removal that follows. */
  lemma FirstSignalLoadsIff(env: Env, x: Syntax, w: World, t: Target)
    requires RefusesDuplicates(env.valid, x) && CopiesOtherwiseHarmless(env.valid, x)
    requires IoWorks(env) && env.runnable && env.signalled && !RejectsCandidate(env, w.files, t)
    requires t.Prod() !in w.files && t.Test() in w.files && w.files[t.Test()] != ""
    requires Viewed(t.Prod()) && Viewed(t.Test()) && !Viewed(t.Backup()) && t.Prod() != MAIN_CONF
    ensures var log := Reload(env, w, t).0.log;
            && (exists i :: |w.log| <= i < |log| && log[i].Signalled?)
            && forall i :: |w.log| <= i < |log| && log[i].Signalled? ==>
                 (env.valid(log[i].view) <==> x.Defines(w.files[t.Test()]) == [])
  {
    FirstSignalFindsBoth(env, w, t);
    OwnPathsDiffer(t);
    TestIsNotMain(t);
    var view, c := View(w.files), w.files[t.Test()];
    var both := view[t.Prod() := c];
    assert env.valid(view) && view[t.Test()] == c && t.Prod() !in view;
    if env.valid(both) {
      CopiesDefineNothing(x, both, t.Prod(), t.Test());
    }
  }

  // ---------------------------------------------------------------- files that are never loaded

  /** The candidate of `k` is on disk wherever nginx looks for it. */
  lemma CandidateIsViewed(files: Files, k: Key, c: Content)
    requires ValidKey(k) && Look(files, k.Target().Test()) == Some(c)
    ensures exists p :: p in View(Candidate(files, k.Target())) && View(Candidate(files, k.Target()))[p] == c
  {
    var t := k.Target();
    Rollout.OwnViews(k);
    OwnPathsDiffer(t);
    var p := if t.Prod() in files then t.Prod() else t.Test();
    assert p in View(Candidate(files, t)) && View(Candidate(files, t))[p] == c;
  }

  /** A file that defines an upstream twice is refused, and nothing is left of it but the copy beside
      the main file: all files nginx reads, and all other files of its directory, are as before. */
  lemma DuplicatesAreRefused(env: Env, x: Syntax, w: World, k: Key, file: seq<Block>)
    requires ReadsBack(x, file) && RefusesDuplicates(env.valid, x)
    requires IoWorks(env) && env.runnable && ValidKey(k)
    requires !UniqueUpstreams(file)
    ensures var t := k.Target();
            var beside := At(NGINX_DIR, k.Base()).Test();
            && Deploy(env, w, t, x.text(file)).0.files ==
               w.files[beside := x.text(file)] - {t.Test(), t.Backup()}
            && View(Deploy(env, w, t, x.text(file)).0.files) == View(w.files) - {t.Test()}
  {
    var t, c := k.Target(), x.text(file);
    var w1 := Rollout.Produced(env, w, t, c);
    ReloadLaws.InDirectory(k, k, t.Test());
    assert t.Test() in t.Touched();
    CandidateIsRefused(env, x, w1.files, k, file);
    RejectionIsAtomic(env, w1, t);
    Leftovers(w.files, k, c);
  }

  lemma CandidateIsRefused(env: Env, x: Syntax, files: Files, k: Key, file: seq<Block>)
    requires ReadsBack(x, file) && RefusesDuplicates(env.valid, x) && !UniqueUpstreams(file)
    requires env.runnable && ValidKey(k) && Look(files, k.Target().Test()) == Some(x.text(file))
    ensures RejectsCandidate(env, files, k.Target())
  {
    var view := View(Candidate(files, k.Target()));
    CandidateIsViewed(files, k, x.text(file));
    var p :| p in view && view[p] == x.text(file);
    if OneDefinition(x, view) {
      FileIsUnique(x, view, p);
    }
  }

  lemma Leftovers(files: Files, k: Key, c: Content)
    requires ValidKey(k)
    ensures var t := k.Target();
            var beside := At(NGINX_DIR, k.Base()).Test();
            && files[t.Test() := c][beside := c] - {t.Test(), t.Backup()} == files[beside := c] - {t.Test(), t.Backup()}
            && View(files[beside := c] - {t.Test(), t.Backup()}) == View(files) - {t.Test()}
  {
    Rollout.OwnViews(k);
  }

  /** An Ingress whose services repeat over its paths, or one with weights and two or more rules, is
      never deployed: nginx refuses its file, and production stays as it is. */
  lemma RepeatedServicesAreRefused(env: Env, x: Syntax, w: World, ing: Ingress, ann: Annotations, cluster: Cluster,
                                   tls: map<string, SslCert>, servers: seq<Server>)
    requires ReadsBack(x, Render(ann, servers)) && RefusesDuplicates(env.valid, x)
    requires IoWorks(env) && env.runnable && ValidKey(Key(ing.name, ing.namespace))
    requires IsTranslation(ing, ann, cluster, tls, servers)
    requires if ann.useWeight then |ing.rules| >= 2 else !Distinct(Routing.ServicesOf(Routing.AllPaths(ing.rules)))
    ensures var t := Key(ing.name, ing.namespace).Target();
            View(Deploy(env, w, t, x.text(Render(ann, servers))).0.files) == View(w.files) - {t.Test()}
  {
    Routing.NamesUniqueIff(ing, ann, cluster, tls, servers);
    DuplicatesAreRefused(env, x, w, Key(ing.name, ing.namespace), Render(ann, servers));
  }
}
