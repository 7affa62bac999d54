/** `internal/nginx/nginx.go`: the reload transaction over the files of nginx. The functions say
    what each operation does to a `World`; the methods of `Host` do it step by step. */
module Nginx {
  import opened Results
  import opened ConfNames

  type Content = string

  type Files = map<Path, Content>

  const MAIN_CONF: Path := "/etc/nginx/nginx.conf"

  /** The files that `include /etc/nginx/conf.d/` + `*.conf` picks up. */
  predicate Included(p: Path) {
    var d := CONF_DIR + "/";
    |p| > |d| && p[..|d|] == d && p[|d|] != '.' && '/' !in p[|d|..] && EndsWith(p, ".conf")
  }

  /** These are the names that the pattern of the include matches: a file of the directory itself, not
      hidden, that ends in `.conf`. */
  lemma IncludedIff(p: Path)
    ensures Included(p) <==>
            exists base :: base != "" && base[0] != '.' && '/' !in base && p == "/etc/nginx/conf.d/" + base + ".conf"
  {
    if Included(p) {
      var base := BaseOf(p);
    }
    if base :| base != "" && base[0] != '.' && '/' !in base && p == "/etc/nginx/conf.d/" + base + ".conf" {
      BaseIncluded(base);
    }
  }

  lemma BaseOf(p: Path) returns (base: string)
    requires Included(p)
    ensures base != "" && base[0] != '.' && '/' !in base && p == "/etc/nginx/conf.d/" + base + ".conf"
  {
    var d := CONF_DIR + "/";
    var rest, suffix := p[|d|..], p[|p| - 5..];
    assert p == d + rest && suffix == ".conf";
    forall k | |p| - 5 <= k < |p| ensures p[k] != '/' {
      assert p[k] == suffix[k - |p| + 5];
    }
    assert p[|d| - 1] == '/' && p[|d|] == rest[0];
    base := rest[..|rest| - 5];
    assert rest[|rest| - 5..] == suffix && rest == base + suffix;
  }

  lemma BaseIncluded(base: string)
    requires base != "" && base[0] != '.' && '/' !in base
    ensures Included("/etc/nginx/conf.d/" + base + ".conf")
  {
    var d := CONF_DIR + "/";
    var p := d + base + ".conf";
    EndsIn(d + base, ".conf");
    assert p[|d|..] == base + ".conf" && p[..|d|] == d;
  }

  predicate Viewed(p: Path) {
    p == MAIN_CONF || Included(p)
  }

  /** What nginx reads: the main file and the included ones. */
  function View(files: Files): Files {
    map p | p in files && Viewed(p) :: files[p]
  }

  /** How `os.WriteFile` ends: complete, failed with something else left in the file, or failed
      before touching the file. */
  datatype WriteOutcome = Written | Torn(left: Content) | Refused

  /** `nginx -t`: passed, ended with an exit error, or could not be run at all. */
  datatype Verdict = Accepted | Rejected | CannotRun

  datatype Env = Env(
    valid: Files -> bool,                      // nginx accepts this view
    runnable: bool,                            // `nginx -t` can be started
    write: (Path, Content) -> WriteOutcome,
    removable: Path -> bool,
    signalled: bool)                           // the pid is known and SIGHUP is delivered

  datatype Event =
    | Wrote(path: Path)
    | Removed(path: Path)
    | Tested(view: Files)
    | Signalled(view: Files)

  datatype World = World(files: Files, log: seq<Event>)

  datatype Error = WriteError(path: Path) | BadCopy(path: Path) | TestFailed | NoSignal

  datatype Status = Done | Failed(error: Error)

  /** What a file holds. `file.SHA1` is modelled as this: hashes of different contents differ, and a
      file that cannot be read has none. */
  function Look(files: Files, p: Path): Option<Content> {
    if p in files then Some(files[p]) else None
  }

  // ---------------------------------------------------------------- what each operation does

  function Write(env: Env, w: World, p: Path, c: Content): (World, bool) {
    match env.write(p, c)
    case Written => (World(w.files[p := c], w.log + [Wrote(p)]), true)
    case Torn(left) => (World(w.files[p := left], w.log + [Wrote(p)]), false)
    case Refused => (w, false)
  }

  function Remove(env: Env, w: World, p: Path): World {
    if p in w.files && env.removable(p) then World(w.files - {p}, w.log + [Removed(p)]) else w
  }

  function Clean(env: Env, w: World, paths: seq<Path>): World
    decreases |paths|
  {
    if paths == [] then w else Clean(env, Remove(env, w, paths[0]), paths[1..])
  }

  lemma CleanOne(env: Env, w: World, p: Path)
    ensures Clean(env, w, [p]) == Remove(env, w, p)
  {
    assert [p][1..] == [];
  }

  lemma CleanTwo(env: Env, w: World, p: Path, q: Path)
    ensures Clean(env, w, [p, q]) == Remove(env, Remove(env, w, p), q)
  {
    assert [p, q][1..] == [q];
    CleanOne(env, Remove(env, w, p), q);
  }

  function CopyConf(env: Env, w: World, src: Path, dst: Path): (World, Status) {
    if src !in w.files then (w, Done)
    else
      var (w1, ok) := Write(env, w, dst, w.files[src]);
      if !ok then (w1, Failed(WriteError(dst)))
      else if dst !in w1.files || w1.files[dst] == "" || Look(w1.files, src) != Look(w1.files, dst)
      then (w1, Failed(BadCopy(dst)))
      else (w1, Done)
  }

  function Backup(env: Env, w: World, src: Path, test: Path, bak: Path): (World, Status) {
    var (w1, s1) := CopyConf(env, w, src, bak);
    if s1.Failed? then (Clean(env, w1, [test]), s1)
    else
      var (w2, s2) := CopyConf(env, w1, test, src);
      (Clean(env, w2, [test]), s2)
  }

  function Check(env: Env, w: World): (World, Verdict) {
    var v := View(w.files);
    if !env.runnable then (w, CannotRun)
    else (World(w.files, w.log + [Tested(v)]), if env.valid(v) then Accepted else Rejected)
  }

  function Restart(env: Env, w: World): (World, Status) {
    if env.signalled then (World(w.files, w.log + [Signalled(View(w.files))]), Done)
    else (w, Failed(NoSignal))
  }

  function TestAndCommit(env: Env, w: World, t: Target, first: bool): (World, Status) {
    var (w1, verdict) := Check(env, w);
    if verdict == Rejected then
      if first then (w1, Failed(TestFailed))
      else
        var (w2, s2) := CopyConf(env, w1, t.Backup(), t.Prod());
        (w2, if s2.Failed? then s2 else Failed(TestFailed))
    else
      var (w2, s2) := CopyConf(env, w1, t.Test(), t.Prod());
      if s2.Failed? then (w2, s2) else Restart(env, w2)
  }

  function ReloadBody(env: Env, w: World, t: Target): (World, Status) {
    if t.Prod() in w.files then
      if Look(w.files, t.Prod()) == Look(w.files, t.Test()) then (w, Done)
      else
        var (w1, s1) := Backup(env, w, t.Prod(), t.Test(), t.Backup());
        if s1.Failed? then (w1, s1) else TestAndCommit(env, w1, t, false)
    else TestAndCommit(env, w, t, true)
  }

  /** `reload`: the body, then the deferred clean-up. */
  function Reload(env: Env, w: World, t: Target): (World, Status) {
    var (w1, s1) := ReloadBody(env, w, t);
    (Clean(env, w1, [t.Backup(), t.Test()]), s1)
  }

  /** `generateConf` of the controller: the candidate, and a copy of it beside the main file. */
  function Produce(env: Env, w: World, t: Target, c: Content): (World, Status) {
    var (w1, ok) := Write(env, w, t.Test(), c);
    if !ok then (w1, Failed(WriteError(t.Test())))
    else
      (Write(env, w1, At(NGINX_DIR, t.base).Test(), c).0, Done)
  }

  /** Writes the candidate and, when that works, reloads. */
  function Deploy(env: Env, w: World, t: Target, c: Content): (World, Status) {
    var (w1, s1) := Produce(env, w, t, c);
    if s1.Failed? then (w1, s1) else Reload(env, w1, t)
  }

  /** `Render` and `Reload` of the default server, as `clearConf` runs them. */
  function ResetMain(env: Env, w: World, default: Content): (World, Status) {
    var (w1, ok) := Write(env, w, MainTarget().Test(), default);
    if !ok then (w1, Failed(WriteError(MainTarget().Test())))
    else Reload(env, w1, MainTarget())
  }

  /** `clearConf`: removes the file of the ingress, or resets the main file if there is none. */
  function Clear(env: Env, w: World, t: Target, default: Content): World {
    if t.Prod() !in w.files then ResetMain(env, w, default).0 else Clean(env, w, [t.Prod()])
  }

  /** What the file watcher runs for an event. */
  function WatcherRun(env: Env, w: World): World {
    var (w1, verdict) := Check(env, w);
    if verdict == Rejected then w1 else Restart(env, w1).0
  }

  // ---------------------------------------------------------------- what a reload returns

  /** If there is something to copy, it is not empty and all of it is written. */
  predicate CopyWorks(env: Env, files: Files, src: Path, dst: Path) {
    src in files ==> files[src] != "" && env.write(dst, files[src]) == Written
  }

  /** The candidate is what is in place already. */
  predicate NothingNew(files: Files, t: Target) {
    t.Prod() in files && Look(files, t.Prod()) == Look(files, t.Test())
  }

  /** The copies that a reload makes before it tests, and the one that puts the candidate in place. */
  predicate CopiesWork(env: Env, files: Files, t: Target) {
    && (t.Prod() in files ==> CopyWorks(env, files, t.Prod(), t.Backup()))
    && CopyWorks(env, files, t.Test(), t.Prod())
  }

  /** The files that `nginx -t` finds: as they are on a first reload; later with a backup, and with
      the candidate in place of the production file and, if it can be removed, of the test file. */
  function TestedFiles(env: Env, files: Files, t: Target): Files {
    if t.Prod() !in files then files
    else
      var saved := files[t.Backup() := files[t.Prod()]];
      var placed := if t.Test() in files then saved[t.Prod() := files[t.Test()]] else saved;
      if env.removable(t.Test()) then placed - {t.Test()} else placed
  }

  predicate TestRefuses(env: Env, files: Files, t: Target) {
    env.runnable && !env.valid(View(TestedFiles(env, files, t)))
  }

  /** The reload reports success: there was nothing to do, or every copy worked, nginx did not refuse
      the candidate, and the signal arrived. */
  predicate Succeeds(env: Env, files: Files, t: Target) {
    NothingNew(files, t) || (CopiesWork(env, files, t) && !TestRefuses(env, files, t) && env.signalled)
  }

  /** What a reload returns, whatever fails: success exactly then; a refused candidate is an error,
      that of the test unless the backup cannot be written back; so is a signal that does not arrive,
      and a copy that does not work. */
  lemma ReloadReturns(env: Env, w: World, t: Target)
    ensures var (files, status) := (w.files, Reload(env, w, t).1);
            && (status == Done <==> Succeeds(env, files, t))
            && (!NothingNew(files, t) && CopiesWork(env, files, t) && TestRefuses(env, files, t) ==>
                  (status == Failed(TestFailed) <==>
                   t.Prod() in files ==> CopyWorks(env, files[t.Backup() := files[t.Prod()]], t.Backup(), t.Prod())))
            && (!NothingNew(files, t) && CopiesWork(env, files, t) && !TestRefuses(env, files, t) && !env.signalled ==>
                  status == Failed(NoSignal))
            && (!NothingNew(files, t) && !CopiesWork(env, files, t) && (t.Prod() in files || !TestRefuses(env, files, t)) ==>
                  status.Failed? && (status.error.WriteError? || status.error.BadCopy?))
  {
    OwnPathsDiffer(t);
    if t.Prod() !in w.files {
      CommitReturns(env, w, t, true);
    } else if !NothingNew(w.files, t) {
      BackupReturns(env, w, t);
      var a := Backup(env, w, t.Prod(), t.Test(), t.Backup()).0;
      CommitReturns(env, a, t, false);
    }
  }

  lemma CopyReturns(env: Env, w: World, src: Path, dst: Path)
    requires src != dst
    ensures var (w1, s) := CopyConf(env, w, src, dst);
            && (s == Done <==> CopyWorks(env, w.files, src, dst))
            && (s.Failed? ==> s.error.WriteError? || s.error.BadCopy?)
            && (s == Done ==> w1.files == if src in w.files then w.files[dst := w.files[src]] else w.files)
  {
  }

  lemma BackupReturns(env: Env, w: World, t: Target)
    requires t.Prod() in w.files
    ensures var (a, s) := Backup(env, w, t.Prod(), t.Test(), t.Backup());
            && (s == Done <==> CopiesWork(env, w.files, t))
            && (s.Failed? ==> s.error.WriteError? || s.error.BadCopy?)
            && (s == Done ==> a.files == TestedFiles(env, w.files, t))
  {
    OwnPathsDiffer(t);
    var (w1, s1) := CopyConf(env, w, t.Prod(), t.Backup());
    CopyReturns(env, w, t.Prod(), t.Backup());
    CopyReturns(env, w1, t.Test(), t.Prod());
    CleanOne(env, CopyConf(env, w1, t.Test(), t.Prod()).0, t.Test());
    var w2 := CopyConf(env, w1, t.Test(), t.Prod()).0;
    assert t.Test() !in w2.files ==> w2.files - {t.Test()} == w2.files;
  }

  lemma CommitReturns(env: Env, w: World, t: Target, first: bool)
    ensures var s := TestAndCommit(env, w, t, first).1;
            var refused := env.runnable && !env.valid(View(w.files));
            && (s == Done <==> !refused && CopyWorks(env, w.files, t.Test(), t.Prod()) && env.signalled)
            && (refused ==> (s == Failed(TestFailed) <==> first || CopyWorks(env, w.files, t.Backup(), t.Prod())))
            && (!refused && CopyWorks(env, w.files, t.Test(), t.Prod()) && !env.signalled ==> s == Failed(NoSignal))
            && (!refused && !CopyWorks(env, w.files, t.Test(), t.Prod()) ==>
                  s.Failed? && (s.error.WriteError? || s.error.BadCopy?))
  {
    OwnPathsDiffer(t);
    var w1 := Check(env, w).0;
    CopyReturns(env, w1, t.Test(), t.Prod());
    CopyReturns(env, w1, t.Backup(), t.Prod());
  }

  /** A deployment succeeds exactly when the candidate is written whole and its reload succeeds; a
      candidate that is not written whole is an error, and nothing else is done. */
  lemma DeployReturns(env: Env, w: World, t: Target, c: Content)
    ensures var (w1, status) := Deploy(env, w, t, c);
            && (status == Done <==>
                  env.write(t.Test(), c) == Written && Succeeds(env, Produce(env, w, t, c).0.files, t))
            && (env.write(t.Test(), c) != Written ==>
                  && status == Failed(WriteError(t.Test()))
                  && (w1 == w || w1.log == w.log + [Wrote(t.Test())]))
  {
    ReloadReturns(env, Produce(env, w, t, c).0, t);
  }

  // ---------------------------------------------------------------- the operations themselves

  class Host {
    const env: Env
    var files: Files
    var log: seq<Event>

    constructor (env: Env, files: Files)
      ensures this.env == env && Now() == World(files, [])
    {
      this.env := env;
      this.files := files;
      this.log := [];
    }

    function Now(): World
      reads this
    {
      World(files, log)
    }

    method WriteFile(p: Path, c: Content) returns (ok: bool)
      modifies this
      ensures (Now(), ok) == Write(env, old(Now()), p, c)
    {
      match env.write(p, c) {
        case Written =>
          files := files[p := c];
          log := log + [Wrote(p)];
          return true;
        case Torn(left) =>
          files := files[p := left];
          log := log + [Wrote(p)];
          return false;
        case Refused =>
          return false;
      }
    }

    method CleanConf(paths: seq<Path>)
      modifies this
      ensures Now() == Clean(env, old(Now()), paths)
    {
      var i := 0;
      while i < |paths|
        invariant 0 <= i <= |paths|
        invariant Clean(env, Now(), paths[i..]) == Clean(env, old(Now()), paths)
      {
        var p := paths[i];
        assert paths[i..][0] == p && paths[i..][1..] == paths[i + 1..];
        if p in files && env.removable(p) {
          files := files - {p};
          log := log + [Removed(p)];
        }
        i := i + 1;
      }
    }

    /** Success means that the destination is a complete copy that is not empty, or that there was
        nothing to copy; no other file changes. */
    method GenerateConf(src: Path, dst: Path) returns (s: Status)
      modifies this
      ensures (Now(), s) == CopyConf(env, old(Now()), src, dst)
      ensures src != dst ==>
                (s.Done? <==> src !in old(files) || (env.write(dst, old(files)[src]) == Written && old(files)[src] != ""))
      ensures s.Done? ==> Look(files, dst) == if src in old(files) then Look(old(files), src) else Look(old(files), dst)
      ensures forall p :: p != dst ==> Look(files, p) == Look(old(files), p)
    {
      if src in files {
        var ok := WriteFile(dst, files[src]);
        if !ok {
          return Failed(WriteError(dst));
        }
        if dst !in files || files[dst] == "" || Look(files, src) != Look(files, dst) {
          return Failed(BadCopy(dst));
        }
      }
      return Done;
    }

    method BackupConf(src: Path, dstTest: Path, dstBak: Path) returns (s: Status)
      modifies this
      ensures (Now(), s) == Backup(env, old(Now()), src, dstTest, dstBak)
    {
      s := GenerateConf(src, dstBak);
      if s.Done? {
        s := GenerateConf(dstTest, src);
      }
      CleanConf([dstTest]);
    }

    method NginxTest() returns (v: Verdict)
      modifies this
      ensures (Now(), v) == Check(env, old(Now()))
    {
      if !env.runnable {
        return CannotRun;
      }
      log := log + [Tested(View(files))];
      return if env.valid(View(files)) then Accepted else Rejected;
    }

    method GracefulRestart() returns (s: Status)
      modifies this
      ensures (Now(), s) == Restart(env, old(Now()))
    {
      if !env.signalled {
        return Failed(NoSignal);
      }
      log := log + [Signalled(View(files))];
      return Done;
    }

    method RunReload(t: Target) returns (s: Status)
      modifies this
      ensures (Now(), s) == ReloadBody(env, old(Now()), t)
    {
      var first := false;
      if t.Prod() in files {
        if Look(files, t.Prod()) == Look(files, t.Test()) {
          return Done;
        }
        s := BackupConf(t.Prod(), t.Test(), t.Backup());
        if s.Failed? {
          return;
        }
      } else {
        first := true;
      }
      var verdict := NginxTest();
      if verdict == Rejected {
        if !first {
          s := GenerateConf(t.Backup(), t.Prod());
          if s.Failed? {
            return;
          }
        }
        return Failed(TestFailed);
      }
      s := GenerateConf(t.Test(), t.Prod());
      if s.Failed? {
        return;
      }
      s := GracefulRestart();
    }

    method ReloadConf(t: Target) returns (s: Status)
      modifies this
      ensures (Now(), s) == Reload(env, old(Now()), t)
      ensures s == Done <==> Succeeds(env, old(files), t)
    {
      ReloadReturns(env, Now(), t);
      s := RunReload(t);
      CleanConf([t.Backup(), t.Test()]);
    }

    /** What the file watcher runs: it changes no file, and it signals unless a test that could be
        run has refused what is on disk. */
    method ReloadIfWatchFileCurd()
      modifies this
      ensures Now() == WatcherRun(env, old(Now()))
      ensures files == old(files)
      ensures |old(log)| <= |log| && log[..|old(log)|] == old(log)
      ensures forall i :: |old(log)| <= i < |log| && log[i].Signalled? && env.runnable ==> env.valid(log[i].view)
      ensures Signalled(View(files)) in log[|old(log)|..] <==>
              env.signalled && (env.runnable ==> env.valid(View(files)))
    {
      var verdict := NginxTest();
      ghost var tested := log[|old(log)|..];
      assert tested == if env.runnable then [Tested(View(files))] else [];
      if verdict == Rejected {
        return;
      }
      var _ := GracefulRestart();
      assert log[|old(log)|..] == tested + if env.signalled then [Signalled(View(files))] else [];
    }

    method DeployConf(t: Target, c: Content) returns (s: Status)
      modifies this
      ensures (Now(), s) == Deploy(env, old(Now()), t, c)
    {
      var ok := WriteFile(t.Test(), c);
      if !ok {
        return Failed(WriteError(t.Test()));
      }
      var _ := WriteFile(At(NGINX_DIR, t.base).Test(), c);
      s := ReloadConf(t);
    }

    method ClearConf(t: Target, default: Content)
      modifies this
      ensures Now() == Clear(env, old(Now()), t, default)
    {
      if t.Prod() !in files {
        var ok := WriteFile(MainTarget().Test(), default);
        if ok {
          var _ := ReloadConf(MainTarget());
        }
        return;
      }
      CleanConf([t.Prod()]);
    }
  }
}
