/** What the reload transaction promises about the files: a simple form of its effect, failure
    atomicity, what a failing write can cost, and what is tested compared with what is signalled. */
module ReloadLaws {
  import opened Results
  import opened ConfNames
  import opened Nginx

  ghost predicate IoWorks(env: Env) {
    (forall p, c :: env.write(p, c) == Written) && (forall p :: env.removable(p))
  }

  ghost predicate RemovalsWork(env: Env) {
    forall p :: env.removable(p)
  }

  /** The files while `nginx -t` runs. */
  function CandidateAt(files: Files, prod: Path, test: Path, bak: Path): Files {
    if prod !in files then files
    else
      var saved := files[bak := files[prod]];
      if test in files then saved[prod := files[test]] - {test} else saved
  }

  function Candidate(files: Files, t: Target): Files {
    CandidateAt(files, t.Prod(), t.Test(), t.Backup())
  }

  predicate Rejects(env: Env, files: Files) {
    env.runnable && !env.valid(View(files))
  }

  predicate RejectsCandidate(env: Env, files: Files, t: Target) {
    Rejects(env, Candidate(files, t))
  }

  /** A reload in one step: the test and backup files go, and the candidate, if there is one,
      replaces the production file unless nginx rejects it. A production file that is empty is
      never replaced, and one that is not empty is replaced by an empty candidate untested. */
  function ReplacedAt(files: Files, prod: Path, test: Path, bak: Path, rejected: bool): Files {
    var rest := files - {test, bak};
    if test !in files then rest
    else
      var c := files[test];
      var here := prod in files;
      if here && (files[prod] == c || files[prod] == "") then rest
      else if here && c == "" then rest[prod := c]
      else if rejected then rest
      else rest[prod := c]
  }

  function Replaced(env: Env, files: Files, t: Target): Files {
    ReplacedAt(files, t.Prod(), t.Test(), t.Backup(), RejectsCandidate(env, files, t))
  }

  /** Testing what is on disk either keeps the new production file or writes the backup back. */
  lemma CommitFiles(env: Env, w: World, t: Target, first: bool)
    requires IoWorks(env)
    requires !first ==> t.Test() !in w.files
    ensures var (w1, s1) := TestAndCommit(env, w, t, first);
      var rejected := env.runnable && !env.valid(View(w.files));
      var src := if rejected then t.Backup() else t.Test();
      w1.files == if (rejected && first) || src !in w.files then w.files
                  else w.files[t.Prod() := w.files[src]]
  {
    OwnPathsDiffer(t);
  }

  lemma BackupFiles(env: Env, w: World, t: Target)
    requires IoWorks(env)
    requires t.Prod() in w.files && Look(w.files, t.Prod()) != Look(w.files, t.Test())
    ensures var (w1, s1) := Backup(env, w, t.Prod(), t.Test(), t.Backup());
      && (s1.Done? <==> w.files[t.Prod()] != "" && Look(w.files, t.Test()) != Some(""))
      && (s1.Done? ==> w1.files == Candidate(w.files, t))
      && (s1.Failed? ==> w1.files - {t.Test(), t.Backup()} == (w.files - {t.Test(), t.Backup()})[t.Prod() := ""])
  {
    OwnPathsDiffer(t);
    var (a, s) := CopyConf(env, w, t.Prod(), t.Backup());
    CleanOne(env, a, t.Test());
    if s.Done? {
      var (b, s2) := CopyConf(env, a, t.Test(), t.Prod());
      CleanOne(env, b, t.Test());
    }
  }

  lemma LaterReload(env: Env, w: World, t: Target)
    requires IoWorks(env)
    requires t.Prod() in w.files && Look(w.files, t.Prod()) != Look(w.files, t.Test())
    ensures ReloadBody(env, w, t).0.files - {t.Backup(), t.Test()} == Replaced(env, w.files, t)
  {
    OwnPathsDiffer(t);
    BackupFiles(env, w, t);
    var (a, s) := Backup(env, w, t.Prod(), t.Test(), t.Backup());
    CandidateSettles(w.files, t.Prod(), t.Test(), t.Backup());
    if s.Done? {
      CommitFiles(env, a, t, false);
    }
  }

  /** A later candidate without its test and backup file: the new production file, or, with the
      backup written back, the old files. */
  lemma CandidateSettles(files: Files, prod: Path, test: Path, bak: Path)
    requires prod != test && prod != bak && test != bak && prod in files
    ensures var rest := files - {test, bak};
            var cand := CandidateAt(files, prod, test, bak);
            && cand - {bak, test} == rest[prod := if test in files then files[test] else files[prod]]
            && cand[prod := files[prod]] - {bak, test} == rest
            && rest[prod := files[prod]] == rest
  {
  }

  lemma FirstReload(env: Env, w: World, t: Target)
    requires IoWorks(env)
    requires t.Prod() !in w.files
    ensures ReloadBody(env, w, t).0.files - {t.Backup(), t.Test()} == Replaced(env, w.files, t)
  {
    OwnPathsDiffer(t);
    CommitFiles(env, w, t, true);
    var fs := w.files;
    if t.Test() in fs {
      assert fs[t.Prod() := fs[t.Test()]] - {t.Backup(), t.Test()} ==
             (fs - {t.Test(), t.Backup()})[t.Prod() := fs[t.Test()]];
    }
  }

  /** The transaction refines its one-step form, whether or not the production file existed. */
  lemma ReloadReplaces(env: Env, w: World, t: Target)
    requires IoWorks(env)
    ensures Reload(env, w, t).0.files == Replaced(env, w.files, t)
  {
    OwnPathsDiffer(t);
    var (w1, s1) := ReloadBody(env, w, t);
    CleanTwo(env, w1, t.Backup(), t.Test());
    assert Clean(env, w1, [t.Backup(), t.Test()]).files == w1.files - {t.Backup(), t.Test()};
    if t.Prod() !in w.files {
      FirstReload(env, w, t);
    } else if Look(w.files, t.Prod()) != Look(w.files, t.Test()) {
      LaterReload(env, w, t);
    }
  }

  /** Failure atomicity. When `nginx -t` rejects the candidate, everything but the test and backup
      files is as before, unless an empty candidate met a production file that was not empty. */
  lemma RejectionIsAtomic(env: Env, w: World, t: Target)
    requires IoWorks(env) && RejectsCandidate(env, w.files, t)
    ensures Reload(env, w, t).0.files == w.files - {t.Test(), t.Backup()} <==>
            !(Look(w.files, t.Test()) == Some("") && Look(w.files, t.Prod()) !in {None, Some("")})
  {
    ReloadReplaces(env, w, t);
    OwnPathsDiffer(t);
    var rest := w.files - {t.Test(), t.Backup()};
    if Look(w.files, t.Test()) == Some("") && Look(w.files, t.Prod()) !in {None, Some("")} {
      assert rest[t.Prod()] != rest[t.Prod() := ""][t.Prod()];
    }
  }

  // ---------------------------------------------------------------- writes that fail

  /** A write of `before` that ends like `o` leaves `before` in a file that now holds `now`. */
  predicate Restores(o: WriteOutcome, before: Content, now: Content) {
    match o
    case Written => true
    case Torn(left) => left == before
    case Refused => now == before
  }

  /** The outcomes of the writes under which a rejected candidate leaves no trace in production:
      either nothing was overwritten, or the overwritten file was written back. */
  predicate WritesSpareProduction(env: Env, files: Files, t: Target) {
    if t.Prod() !in files then true
    else
      var before := files[t.Prod()];
      if before == "" || Look(files, t.Test()) == Some(before) || env.write(t.Backup(), before) != Written then true
      else if t.Test() !in files then Restores(env.write(t.Prod(), before), before, before)
      else
        var c := files[t.Test()];
        match env.write(t.Prod(), c)
        case Refused => true
        case Torn(left) => left == before
        case Written => c != "" && Restores(env.write(t.Prod(), before), before, c)
  }

  lemma RejectedCommit(env: Env, w: World, t: Target, before: Content)
    requires env.runnable && !env.valid(View(w.files))
    requires Look(w.files, t.Backup()) == Some(before) && t.Prod() in w.files
    ensures Look(TestAndCommit(env, w, t, false).0.files, t.Prod()) == Some(before)
            <==> Restores(env.write(t.Prod(), before), before, w.files[t.Prod()])
  {
    OwnPathsDiffer(t);
  }

  /** With writes that may fail in any way, production survives a rejection exactly then. */
  lemma RejectionSparesProductionIff(env: Env, w: World, t: Target)
    requires RemovalsWork(env) && RejectsCandidate(env, w.files, t)
    ensures Look(Reload(env, w, t).0.files, t.Prod()) == Look(w.files, t.Prod())
            <==> WritesSpareProduction(env, w.files, t)
  {
    OwnPathsDiffer(t);
    var (w1, s1) := ReloadBody(env, w, t);
    CleanKeeps(env, w1, [t.Backup(), t.Test()], t.Prod());
    if t.Prod() in w.files && Look(w.files, t.Prod()) != Look(w.files, t.Test()) {
      LaterRejection(env, w, t);
    }
  }

  lemma LaterRejection(env: Env, w: World, t: Target)
    requires RemovalsWork(env) && RejectsCandidate(env, w.files, t)
    requires t.Prod() in w.files && Look(w.files, t.Prod()) != Look(w.files, t.Test())
    ensures Look(ReloadBody(env, w, t).0.files, t.Prod()) == Look(w.files, t.Prod())
            <==> WritesSpareProduction(env, w.files, t)
  {
    OwnPathsDiffer(t);
    var before := w.files[t.Prod()];
    var (a, sa) := CopyConf(env, w, t.Prod(), t.Backup());
    assert sa.Done? <==> before != "" && env.write(t.Backup(), before) == Written;
    CleanKeeps(env, a, [t.Test()], t.Prod());
    if sa.Done? {
      var (b, sb) := CopyConf(env, a, t.Test(), t.Prod());
      CleanKeeps(env, b, [t.Test()], t.Prod());
      if sb.Done? {
        CleanOne(env, b, t.Test());
        var cleaned := Clean(env, b, [t.Test()]);
        assert cleaned.files == Candidate(w.files, t);
        RejectedCommit(env, cleaned, t, before);
      }
    }
  }

  // ---------------------------------------------------------------- other files

  lemma {:induction false} CleanKeeps(env: Env, w: World, paths: seq<Path>, p: Path)
    requires p !in paths
    ensures Look(Clean(env, w, paths).files, p) == Look(w.files, p)
    decreases |paths|
  {
    if paths != [] {
      CleanKeeps(env, Remove(env, w, paths[0]), paths[1..], p);
    }
  }

  lemma CopyKeeps(env: Env, w: World, src: Path, dst: Path, p: Path)
    requires p != dst
    ensures Look(CopyConf(env, w, src, dst).0.files, p) == Look(w.files, p)
  {
  }

  lemma BackupKeeps(env: Env, w: World, t: Target, p: Path)
    requires p !in t.Touched()
    ensures Look(Backup(env, w, t.Prod(), t.Test(), t.Backup()).0.files, p) == Look(w.files, p)
  {
    assert p != t.Prod() && p != t.Test() && p != t.Backup();
    var (a, sa) := CopyConf(env, w, t.Prod(), t.Backup());
    var (b, sb) := CopyConf(env, a, t.Test(), t.Prod());
    CopyKeeps(env, w, t.Prod(), t.Backup(), p);
    CopyKeeps(env, a, t.Test(), t.Prod(), p);
    CleanKeeps(env, a, [t.Test()], p);
    CleanKeeps(env, b, [t.Test()], p);
  }

  lemma CommitKeeps(env: Env, w: World, t: Target, first: bool, p: Path)
    requires p != t.Prod()
    ensures Look(TestAndCommit(env, w, t, first).0.files, p) == Look(w.files, p)
  {
  }

  /** A reload touches three files, whatever fails. */
  lemma ReloadKeepsOthers(env: Env, w: World, t: Target, p: Path)
    requires p !in t.Touched()
    ensures Look(Reload(env, w, t).0.files, p) == Look(w.files, p)
  {
    assert p != t.Prod() && p != t.Test() && p != t.Backup();
    BackupKeeps(env, w, t, p);
    CommitKeeps(env, Backup(env, w, t.Prod(), t.Test(), t.Backup()).0, t, false, p);
    CommitKeeps(env, w, t, true, p);
    CleanKeeps(env, ReloadBody(env, w, t).0, [t.Backup(), t.Test()], p);
  }

  /** Deploying or clearing one ingress keeps every file of another one that is separate from it,
      whatever fails, also when clearing finds no file and resets the main file. */
  lemma IngressesDoNotInterfere(env: Env, w: World, k: Key, other: Key, c: Content, p: Path)
    requires Separate(k, other) && ValidKey(k) && p in other.Target().Touched()
    ensures Look(Deploy(env, w, k.Target(), c).0.files, p) == Look(w.files, p)
    ensures Look(Clear(env, w, k.Target(), c).files, p) == Look(w.files, p)
  {
    var t := k.Target();
    InDirectory(k, other, p);
    assert t.Prod() in t.Touched() && t.Test() in t.Touched();
    var (w1, s1) := Produce(env, w, t, c);
    assert Look(w1.files, p) == Look(w.files, p);
    ReloadKeepsOthers(env, w1, t, p);
    CleanKeeps(env, w, [t.Prod()], p);
    ResetKeeps(env, w, c, p);
  }

  lemma ResetKeeps(env: Env, w: World, default: Content, p: Path)
    requires p !in MainTarget().Touched()
    ensures Look(ResetMain(env, w, default).0.files, p) == Look(w.files, p)
  {
    var (w1, ok) := Write(env, w, MainTarget().Test(), default);
    assert MainTarget().Test() in MainTarget().Touched();
    ReloadKeepsOthers(env, w1, MainTarget(), p);
  }

  lemma InDirectory(k: Key, other: Key, p: Path)
    requires ValidKey(k) && p in other.Target().Touched()
    ensures p != At(NGINX_DIR, k.Base()).Test()
    ensures p !in MainTarget().Touched()
  {
    var d := CONF_DIR + "/";
    var q := At(NGINX_DIR, k.Base()).Test();
    var tail := k.Base() + "-test.conf";
    PlainBase(k);
    assert p[..|d|] == d && p[17] == d[17] == '/' && p[11] == d[11] == 'c';
    assert q == "/etc/nginx/" + tail && q[17] == tail[6];
    assert '/' !in tail;
    var t := MainTarget();
    assert t.Prod()[11] == 'n' && t.Test()[11] == 'n' && t.Backup()[11] == 'n';
  }
}
