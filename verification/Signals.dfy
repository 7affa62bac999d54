/** What a reload tells nginx: which files it tests, which files are there when it signals, and
    that a removal which the watcher sees follows every write to the production file. */
module Signals {
  import opened Results
  import opened ConfNames
  import opened Nginx
  import opened ReloadLaws
  import opened Bags

  /** nginx is tested on, and signalled with, the same files, and keeps them, on a later reload. */
  lemma LaterSignalsWhatItTested(env: Env, w: World, t: Target)
    requires IoWorks(env) && env.runnable && env.signalled && !RejectsCandidate(env, w.files, t)
    requires t.Prod() in w.files && w.files[t.Prod()] != "" && !Viewed(t.Backup())
    requires t.Test() in w.files && w.files[t.Test()] !in {"", w.files[t.Prod()]}
    ensures var (w1, s) := Reload(env, w, t);
            var tested := View(Candidate(w.files, t));
            && s == Done
            && w1.log == w.log + [Wrote(t.Backup()), Wrote(t.Prod()), Removed(t.Test()),
                                  Tested(tested), Signalled(tested), Removed(t.Backup())]
            && View(w1.files) == tested
  {
    OwnPathsDiffer(t);
    var fs := w.files;
    var (a, sa) := CopyConf(env, w, t.Prod(), t.Backup());
    var (b, sb) := CopyConf(env, a, t.Test(), t.Prod());
    var c := Clean(env, b, [t.Test()]);
    CleanOne(env, b, t.Test());
    assert c.files == Candidate(fs, t);
    var (d, sd) := TestAndCommit(env, c, t, false);
    assert d.files == c.files;
    CleanTwo(env, d, t.Backup(), t.Test());
  }

  /** On a first reload the candidate is tested under its test name, and nginx is signalled while
      both copies are there; only then the test copy goes. */
  lemma FirstSignalsTwoCopies(env: Env, w: World, t: Target)
    requires IoWorks(env) && env.runnable && env.signalled && !RejectsCandidate(env, w.files, t)
    requires t.Prod() !in w.files && t.Test() in w.files && w.files[t.Test()] != ""
    requires Viewed(t.Prod()) && Viewed(t.Test()) && !Viewed(t.Backup())
    ensures var (w1, s) := Reload(env, w, t);
            var tested := View(w.files);
            var both := tested[t.Prod() := w.files[t.Test()]];
            && s == Done
            && w1.log == w.log + [Tested(tested), Wrote(t.Prod()), Signalled(both)]
                       + (if t.Backup() in w.files then [Removed(t.Backup())] else [])
                       + [Removed(t.Test())]
            && (forall d :: Count(both, d) == Count(tested, d) + if d == w.files[t.Test()] then 1 else 0)
            && SameBag(View(w1.files), tested)
  {
    OwnPathsDiffer(t);
    var c := w.files[t.Test()];
    FirstCommit(env, w, t);
    var d := TestAndCommit(env, w, t, true).0;
    CleanTwo(env, d, t.Backup(), t.Test());
    TwoCopies(w.files, t.Prod(), t.Test(), t.Backup(), c);
    assert Reload(env, w, t).0.files == d.files - {t.Backup(), t.Test()};
  }

  lemma FirstCommit(env: Env, w: World, t: Target)
    requires IoWorks(env) && env.runnable && env.signalled && env.valid(View(w.files))
    requires t.Prod() !in w.files && t.Test() in w.files && w.files[t.Test()] != ""
    ensures var (d, s) := TestAndCommit(env, w, t, true);
            && s == Done
            && d.files == w.files[t.Prod() := w.files[t.Test()]]
            && d.log == w.log + [Tested(View(w.files)), Wrote(t.Prod()), Signalled(View(d.files))]
  {
    OwnPathsDiffer(t);
  }

  lemma TwoCopies(files: Files, prod: Path, test: Path, bak: Path, c: Content)
    requires prod != test && Viewed(prod) && Viewed(test) && !Viewed(bak)
    requires prod !in files && Look(files, test) == Some(c)
    ensures View(files[prod := c]) == View(files)[prod := c]
    ensures forall d :: Count(View(files)[prod := c], d) == Count(View(files), d) + if d == c then 1 else 0
    ensures SameBag(View(files[prod := c] - {bak, test}), View(files))
  {
    var view := View(files);
    forall d ensures Count(view[prod := c], d) == Count(view, d) + if d == c then 1 else 0 {
      CountInsert(view, prod, c, d);
    }
    var rest := view - {test};
    SameInsert(rest, prod, test, c);
    assert view == rest[test := c];
    assert View(files[prod := c]) == view[prod := c];
    assert View(files[prod := c] - {bak, test}) == rest[prod := c];
  }

  /** A first reload signals nginx with both copies on disk, and at no other time. */
  lemma FirstSignalFindsBoth(env: Env, w: World, t: Target)
    requires IoWorks(env) && env.runnable && env.signalled && !RejectsCandidate(env, w.files, t)
    requires t.Prod() !in w.files && t.Test() in w.files && w.files[t.Test()] != ""
    requires Viewed(t.Prod()) && Viewed(t.Test()) && !Viewed(t.Backup())
    ensures var (log, both) := (Reload(env, w, t).0.log, View(w.files)[t.Prod() := w.files[t.Test()]]);
            && |log| > |w.log| + 2 && log[|w.log| + 2] == Signalled(both)
            && forall i :: |w.log| <= i < |log| && log[i].Signalled? ==> log[i].view == both
  {
    FirstSignalsTwoCopies(env, w, t);
    var both := View(w.files)[t.Prod() := w.files[t.Test()]];
    OneSignal(w.log, Tested(View(w.files)), Wrote(t.Prod()), both,
              (if t.Backup() in w.files then [Removed(t.Backup())] else []) + [Removed(t.Test())],
              Reload(env, w, t).0.log);
  }

  lemma OneSignal(log: seq<Event>, e1: Event, e2: Event, view: Files, rest: seq<Event>, end: seq<Event>)
    requires !e1.Signalled? && !e2.Signalled? && forall e :: e in rest ==> !e.Signalled?
    requires end == log + [e1, e2, Signalled(view)] + rest
    ensures |end| > |log| + 2 && end[|log| + 2] == Signalled(view)
    ensures forall i :: |log| <= i < |end| && end[i].Signalled? ==> end[i].view == view
  {
    assert forall i :: |log| + 3 <= i < |end| ==> end[i] == rest[i - |log| - 3] && end[i] in rest;
  }

  // ---------------------------------------------------------------- a removal follows every write

  ghost predicate Extends(w: World, w1: World) {
    |w.log| <= |w1.log| && w1.log[..|w.log|] == w.log
  }

  ghost predicate WroteProd(w: World, w1: World, t: Target) {
    Extends(w, w1) && Wrote(t.Prod()) in w1.log[|w.log|..]
  }

  /** After every write to the production file the test or the backup file is removed. */
  ghost predicate RemovalFollows(w: World, w1: World, t: Target) {
    forall i :: |w.log| <= i < |w1.log| && w1.log[i] == Wrote(t.Prod()) ==>
      exists j :: i < j < |w1.log| && w1.log[j] in {Removed(t.Test()), Removed(t.Backup())}
  }

  /** A copy adds at most a write of its destination, and then the destination is there. */
  lemma CopyWrites(env: Env, w: World, src: Path, dst: Path)
    ensures var w1 := CopyConf(env, w, src, dst).0;
            && ((w1.log == w.log && w1.files == w.files) || (w1.log == w.log + [Wrote(dst)] && dst in w1.files))
            && (forall p :: p in w.files ==> p in w1.files)
  {
  }

  lemma CommitWrites(env: Env, w: World, t: Target, first: bool)
    ensures Extends(w, TestAndCommit(env, w, t, first).0)
    ensures WroteProd(w, TestAndCommit(env, w, t, first).0, t) ==> t.Test() in w.files || t.Backup() in w.files
    ensures forall p :: p in {t.Test(), t.Backup()} && p in w.files ==> p in TestAndCommit(env, w, t, first).0.files
  {
    OwnPathsDiffer(t);
    var (w1, verdict) := Check(env, w);
    CopyWrites(env, w1, t.Backup(), t.Prod());
    CopyWrites(env, w1, t.Test(), t.Prod());
    var src := if verdict == Rejected then t.Backup() else t.Test();
    var w2 := CopyConf(env, w1, src, t.Prod()).0;
    assert Extends(w, w1) && Extends(w1, w2);
    if src !in w.files {
      assert w2.log == w1.log;
    }
  }

  lemma BackupWrites(env: Env, w: World, t: Target)
    requires t.Prod() in w.files
    ensures var (w1, s) := Backup(env, w, t.Prod(), t.Test(), t.Backup());
            && Extends(w, w1)
            && (WroteProd(w, w1, t) ==> t.Backup() in w1.files)
  {
    OwnPathsDiffer(t);
    var (a, sa) := CopyConf(env, w, t.Prod(), t.Backup());
    var (b, sb) := CopyConf(env, a, t.Test(), t.Prod());
    CopyWrites(env, w, t.Prod(), t.Backup());
    CopyWrites(env, a, t.Test(), t.Prod());
    CleanOne(env, a, t.Test());
    CleanOne(env, b, t.Test());
    if sa.Done? {
      assert t.Backup() in a.files && t.Backup() in b.files;
    } else {
      assert Wrote(t.Prod()) !in a.log[|w.log|..];
    }
  }

  lemma BodyWrites(env: Env, w: World, t: Target)
    ensures var w1 := ReloadBody(env, w, t).0;
            && Extends(w, w1)
            && (WroteProd(w, w1, t) ==> t.Test() in w1.files || t.Backup() in w1.files)
  {
    if t.Prod() !in w.files {
      CommitWrites(env, w, t, true);
    } else if Look(w.files, t.Prod()) != Look(w.files, t.Test()) {
      var a := Backup(env, w, t.Prod(), t.Test(), t.Backup()).0;
      BackupWrites(env, w, t);
      CommitWrites(env, a, t, false);
      if ReloadBody(env, w, t).0 != a {
        JoinWrites(w, a, TestAndCommit(env, a, t, false).0, t);
      }
    }
  }

  lemma JoinWrites(w: World, a: World, b: World, t: Target)
    requires Extends(w, a) && Extends(a, b)
    ensures Extends(w, b)
    ensures WroteProd(w, b, t) ==> WroteProd(w, a, t) || WroteProd(a, b, t)
  {
    assert b.log[|w.log|..] == a.log[|w.log|..] + b.log[|a.log|..];
  }

  /** On every exit path of a reload, whatever write fails and whatever nginx says. */
  lemma RemovalFollowsWrite(env: Env, w: World, t: Target)
    requires RemovalsWork(env)
    ensures Extends(w, Reload(env, w, t).0) && RemovalFollows(w, Reload(env, w, t).0, t)
  {
    OwnPathsDiffer(t);
    BodyWrites(env, w, t);
    var w1 := ReloadBody(env, w, t).0;
    CleanTwo(env, w1, t.Backup(), t.Test());
    RemovalsFollow(w, w1, Reload(env, w, t).0, t);
  }

  lemma RemovalsFollow(w: World, w1: World, w2: World, t: Target)
    requires Extends(w, w1) && Extends(w1, w2)
    requires forall i :: |w1.log| <= i < |w2.log| ==> w2.log[i] in {Removed(t.Test()), Removed(t.Backup())}
    requires WroteProd(w, w1, t) ==> |w1.log| < |w2.log|
    ensures RemovalFollows(w, w2, t)
  {
    forall i | |w.log| <= i < |w2.log| && w2.log[i] == Wrote(t.Prod())
      ensures exists j :: i < j < |w2.log| && w2.log[j] in {Removed(t.Test()), Removed(t.Backup())}
    {
      assert i < |w1.log| && w1.log[i] == w1.log[|w.log|..][i - |w.log|];
      assert w2.log[|w1.log|] in {Removed(t.Test()), Removed(t.Backup())};
    }
  }

  // ---------------------------------------------------------------- the log tells what happened

  /** Every file that differs has an event in between. */
  ghost predicate Covered(w: World, w1: World) {
    Extends(w, w1) &&
    forall p :: Look(w1.files, p) != Look(w.files, p) ==>
      Wrote(p) in w1.log[|w.log|..] || Removed(p) in w1.log[|w.log|..]
  }

  lemma CoveredTrans(w: World, a: World, b: World)
    requires Covered(w, a) && Covered(a, b)
    ensures Covered(w, b)
  {
    assert b.log[|w.log|..] == a.log[|w.log|..] + b.log[|a.log|..];
    forall p | Look(b.files, p) != Look(w.files, p)
      ensures Wrote(p) in b.log[|w.log|..] || Removed(p) in b.log[|w.log|..]
    {
      assert Look(b.files, p) != Look(a.files, p) || Look(a.files, p) != Look(w.files, p);
    }
  }

  lemma CopyCovered(env: Env, w: World, src: Path, dst: Path)
    ensures Covered(w, CopyConf(env, w, src, dst).0)
  {
    var w1 := CopyConf(env, w, src, dst).0;
    if w1.log != w.log {
      assert w1.log[|w.log|..] == [Wrote(dst)];
    }
  }

  lemma RemoveCovered(env: Env, w: World, p: Path)
    ensures Covered(w, Remove(env, w, p))
  {
    var w1 := Remove(env, w, p);
    if w1.log != w.log {
      assert w1.log[|w.log|..] == [Removed(p)];
    }
  }

  lemma CommitCovered(env: Env, w: World, t: Target, first: bool)
    ensures Covered(w, TestAndCommit(env, w, t, first).0)
  {
    var w1 := Check(env, w).0;
    assert Covered(w, w1);
    var src := if Check(env, w).1 == Rejected then t.Backup() else t.Test();
    var w2 := CopyConf(env, w1, src, t.Prod()).0;
    CopyCovered(env, w1, src, t.Prod());
    CoveredTrans(w, w1, w2);
    var w3 := Restart(env, w2).0;
    assert Covered(w2, w3);
    CoveredTrans(w, w2, w3);
  }

  lemma BackupCovered(env: Env, w: World, t: Target)
    ensures Covered(w, Backup(env, w, t.Prod(), t.Test(), t.Backup()).0)
  {
    var a := CopyConf(env, w, t.Prod(), t.Backup()).0;
    var b := CopyConf(env, a, t.Test(), t.Prod()).0;
    CopyCovered(env, w, t.Prod(), t.Backup());
    CopyCovered(env, a, t.Test(), t.Prod());
    CoveredTrans(w, a, b);
    RemoveCovered(env, a, t.Test());
    RemoveCovered(env, b, t.Test());
    CleanOne(env, a, t.Test());
    CleanOne(env, b, t.Test());
    CoveredTrans(w, a, Remove(env, a, t.Test()));
    CoveredTrans(w, b, Remove(env, b, t.Test()));
  }

  /** Whatever fails, no file changes in a reload without an event of its own. */
  lemma ReloadIsLogged(env: Env, w: World, t: Target)
    ensures Covered(w, Reload(env, w, t).0)
  {
    var a := Backup(env, w, t.Prod(), t.Test(), t.Backup()).0;
    var w1 := ReloadBody(env, w, t).0;
    BackupCovered(env, w, t);
    CommitCovered(env, w, t, true);
    CommitCovered(env, a, t, false);
    CoveredTrans(w, a, TestAndCommit(env, a, t, false).0);
    CleanTwo(env, w1, t.Backup(), t.Test());
    var w2 := Remove(env, w1, t.Backup());
    RemoveCovered(env, w1, t.Backup());
    RemoveCovered(env, w2, t.Test());
    CoveredTrans(w, w1, w2);
    CoveredTrans(w, w2, Remove(env, w2, t.Test()));
  }
}
