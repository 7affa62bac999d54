/** The condition on requests for the main file is exact: from a request that does not meet it, some
    schedule ends with nothing in progress, a disk that nginx could load, and nginx running something
    else. */
module Divergence {
  import opened Results
  import opened ConfNames
  import opened Nginx
  import opened Interleaving
  import opened Convergence

  // ---------------------------------------------------------------- schedules

  /** Some benign schedule leads from the one state to the other. */
  ghost predicate LeadsTo(valid: Files -> bool, m: Machine, end: Machine) {
    exists actions :: CanRun(valid, m, actions) && AllBenign(valid, m, actions) && After(valid, m, actions) == end
  }

  lemma Stays(valid: Files -> bool, m: Machine)
    ensures LeadsTo(valid, m, m)
  {
    assert CanRun(valid, m, []) && AllBenign(valid, m, []) && After(valid, m, []) == m;
  }

  lemma Step(valid: Files -> bool, m: Machine, a: Action, end: Machine)
    requires Enabled(m, a) && Benign(valid, m, a) && LeadsTo(valid, Next(valid, m, a), end)
    ensures LeadsTo(valid, m, end)
  {
    var rest :| CanRun(valid, Next(valid, m, a), rest) && AllBenign(valid, Next(valid, m, a), rest)
             && After(valid, Next(valid, m, a), rest) == end;
    var actions := [a] + rest;
    assert actions[1..] == rest;
    assert CanRun(valid, m, actions) && AllBenign(valid, m, actions) && After(valid, m, actions) == end;
  }

  lemma {:induction false} Chain(valid: Files -> bool, m: Machine, actions: seq<Action>, mid: Machine, end: Machine)
    requires CanRun(valid, m, actions) && AllBenign(valid, m, actions) && After(valid, m, actions) == mid
    requires LeadsTo(valid, mid, end)
    ensures LeadsTo(valid, m, end)
    decreases |actions|
  {
    if actions != [] {
      Chain(valid, Next(valid, m, actions[0]), actions[1..], mid, end);
      Step(valid, m, actions[0], end);
    }
  }

  lemma Trans(valid: Files -> bool, m: Machine, mid: Machine, end: Machine)
    requires LeadsTo(valid, m, mid) && LeadsTo(valid, mid, end)
    ensures LeadsTo(valid, m, end)
  {
    var actions :| CanRun(valid, m, actions) && AllBenign(valid, m, actions) && After(valid, m, actions) == mid;
    Chain(valid, m, actions, mid, end);
  }

  function NoFaults(): Faults { Faults(Written, true, true, true) }

  /** A step of the main reload without faults. */
  function Advanced(valid: Files -> bool, m: Machine): Machine
    requires !m.pc.Idle?
  {
    ReloaderStep(EnvOf(valid, NoFaults()), m)
  }

  lemma Advance(valid: Files -> bool, m: Machine)
    requires !m.pc.Idle? && m.pc.t == MainTarget()
    ensures LeadsTo(valid, m, Advanced(valid, m))
  {
    Stays(valid, Advanced(valid, m));
    Step(valid, m, Reloader(NoFaults()), Advanced(valid, m));
  }

  // ---------------------------------------------------------------- dropping what is owed

  /** While nginx could not load what is on disk, every event and every signal comes to nothing. */
  lemma {:induction false} Drain(valid: Files -> bool, m: Machine)
    requires !valid(m.Disk())
    ensures LeadsTo(valid, m, m.(pending := 0, hup := false, watcher := Waiting))
    decreases m.pending, if m.watcher.Waiting? then 0 else if m.watcher.Passed? then 1 else 2, m.hup
  {
    var end := m.(pending := 0, hup := false, watcher := Waiting);
    if !m.watcher.Waiting? {
      var a := if m.watcher.Woken? then WatcherTest(true) else WatcherSignal(true);
      Drain(valid, Next(valid, m, a));
      Step(valid, m, a, end);
    } else if m.pending > 0 {
      Drain(valid, Next(valid, m, Wake));
      Step(valid, m, Wake, end);
    } else if m.hup {
      Drain(valid, Next(valid, m, Load));
      Step(valid, m, Load, end);
    } else {
      assert m == end;
      Stays(valid, m);
    }
  }

  // ---------------------------------------------------------------- the reload of a bad main file

  /** The state of a main reload that the proof follows. */
  predicate Stage(m: Machine, pc: Pc, disk: Files, test: Option<Content>, backup: Option<Content>) {
    m.pc == pc && m.Disk() == disk && (test.Some? ==> MainTest(m) == test) && (backup.Some? ==> MainBackup(m) == backup)
  }

  /** The step changes neither what nginx runs nor what is owed. */
  predicate Quiet(m: Machine, m1: Machine) {
    m1 == m.(files := m1.files, pc := m1.pc)
  }

  /** From the request up to the truncated main file. */
  lemma ToTruncated(valid: Files -> bool, m: Machine, c: Content) returns (p: Machine)
    requires m.pc == FillTest(MainTarget(), c, true) && c != ""
    requires MAIN_CONF in m.Disk() && m.Disk()[MAIN_CONF] !in {"", c}
    ensures LeadsTo(valid, m, p) && Quiet(m, p)
    ensures Stage(p, FillCopy(MainTarget(), Overwriting), m.Disk()[MAIN_CONF := ""], Some(c), Some(m.Disk()[MAIN_CONF]))
  {
    var t, before := MainTarget(), m.Disk()[MAIN_CONF];
    var m1 := Produces(valid, m, c);
    var m2 := BacksUp(valid, m1, c);
    Trans(valid, m, m1, m2);
    p := Advanced(valid, m2);
    Advance(valid, m2);
    Trans(valid, m, m2, p);
    MainFiles();
    MainWrite(m2, MAIN_CONF, "", p.pc);
  }

  lemma Produces(valid: Files -> bool, m: Machine, c: Content) returns (p: Machine)
    requires m.pc == FillTest(MainTarget(), c, true)
    requires MAIN_CONF in m.Disk() && m.Disk()[MAIN_CONF] != c
    ensures LeadsTo(valid, m, p) && Quiet(m, p)
    ensures Stage(p, Truncate(MainTarget(), ToBackup), m.Disk(), Some(c), None)
  {
    var t := MainTarget();
    var m1 := Advanced(valid, m);
    Advance(valid, m);
    MainFiles();
    MainWrite(m, t.Test(), c, m1.pc);
    var m2 := Advanced(valid, m1);
    Advance(valid, m1);
    MainWrite(m1, t.Test(), c, m2.pc);
    Trans(valid, m, m1, m2);
    p := Advanced(valid, m2);
    Advance(valid, m2);
    MainOnDisk(m2.files);
    Trans(valid, m, m2, p);
  }

  lemma BacksUp(valid: Files -> bool, m: Machine, c: Content) returns (p: Machine)
    requires Stage(m, Truncate(MainTarget(), ToBackup), m.Disk(), Some(c), None)
    requires MAIN_CONF in m.Disk() && m.Disk()[MAIN_CONF] != ""
    ensures LeadsTo(valid, m, p) && Quiet(m, p)
    ensures Stage(p, Truncate(MainTarget(), Overwriting), m.Disk(), Some(c), Some(m.Disk()[MAIN_CONF]))
  {
    var t, before := MainTarget(), m.Disk()[MAIN_CONF];
    MainFiles();
    MainOnDisk(m.files);
    var m1 := Advanced(valid, m);
    Advance(valid, m);
    MainWrite(m, t.Backup(), "", m1.pc);
    p := Advanced(valid, m1);
    Advance(valid, m1);
    MainOnDisk(m1.files);
    MainWrite(m1, t.Backup(), before, p.pc);
    Trans(valid, m, m1, p);
  }

  /** The bad main file is on disk, and nothing is owed any more. */
  lemma ToBad(valid: Files -> bool, m: Machine, c: Content, before: Content) returns (p: Machine)
    requires c != "" && MAIN_CONF in m.Disk()
    requires Stage(m, FillCopy(MainTarget(), Overwriting), m.Disk(), Some(c), Some(before))
    requires !valid(m.Disk()[MAIN_CONF := c])
    ensures LeadsTo(valid, m, p)
    ensures p.pending == 0 && !p.hup && p.watcher.Waiting? && p.running == m.running
    ensures Stage(p, BackupClean(MainTarget(), false), m.Disk()[MAIN_CONF := c], None, Some(before))
  {
    MainFiles();
    var m1 := Advanced(valid, m);
    Advance(valid, m);
    MainWrite(m, MAIN_CONF, c, m1.pc);
    Drain(valid, m1);
    p := m1.(pending := 0, hup := false, watcher := Waiting);
    Trans(valid, m, m1, p);
  }

  /** The bad main file is tested, refused and rolled back, without an event. */
  lemma ToEnd(valid: Files -> bool, m: Machine, before: Content) returns (p: Machine)
    requires before != "" && MAIN_CONF in m.Disk() && !valid(m.Disk())
    requires m.pending == 0 && !m.hup && m.watcher.Waiting?
    requires Stage(m, BackupClean(MainTarget(), false), m.Disk(), None, Some(before))
    ensures LeadsTo(valid, m, p)
    ensures p.Quiescent() && p.running == m.running && p.Disk() == m.Disk()[MAIN_CONF := before]
  {
    var t := MainTarget();
    MainFiles();
    var m1 := Advanced(valid, m);
    Advance(valid, m);
    MainRemoval(EnvOf(valid, NoFaults()), m, t.Test());
    var m2 := Advanced(valid, m1);
    Advance(valid, m1);
    Trans(valid, m, m1, m2);
    var m3 := WritesBack(valid, m2, before);
    Trans(valid, m, m2, m3);
    p := CleansUp(valid, m3);
    Trans(valid, m, m3, p);
  }

  lemma WritesBack(valid: Files -> bool, m: Machine, before: Content) returns (p: Machine)
    requires MAIN_CONF in m.Disk()
    requires Stage(m, Truncate(MainTarget(), RollingBack), m.Disk(), None, Some(before))
    ensures LeadsTo(valid, m, p) && Quiet(m, p)
    ensures p.pc == CleanBackup(MainTarget()) && p.Disk() == m.Disk()[MAIN_CONF := before]
  {
    MainFiles();
    var m1 := Advanced(valid, m);
    Advance(valid, m);
    MainWrite(m, MAIN_CONF, "", m1.pc);
    p := Advanced(valid, m1);
    Advance(valid, m1);
    MainWrite(m1, MAIN_CONF, before, p.pc);
    Rewritten(m.Disk(), "", before);
    Trans(valid, m, m1, p);
  }

  lemma CleansUp(valid: Files -> bool, m: Machine) returns (p: Machine)
    requires m.pc == CleanBackup(MainTarget())
    ensures LeadsTo(valid, m, p) && Quiet(m, p) && p.pc.Idle? && p.Disk() == m.Disk()
  {
    var t := MainTarget();
    var m1 := Advanced(valid, m);
    Advance(valid, m);
    MainRemoval(EnvOf(valid, NoFaults()), m, t.Backup());
    p := Advanced(valid, m1);
    Advance(valid, m1);
    MainRemoval(EnvOf(valid, NoFaults()), m1, t.Test());
    Trans(valid, m, m1, p);
  }

  /** While the main file is truncated, a signal from elsewhere makes nginx load that, if it can. */
  lemma Intrudes(valid: Files -> bool, m: Machine) returns (p: Machine)
    requires valid(m.Disk())
    ensures LeadsTo(valid, m, p) && p == m.(hup := false, running := m.Disk())
  {
    var m1 := m.(hup := true);
    p := m.(hup := false, running := m.Disk());
    Stays(valid, p);
    Step(valid, m1, Load, p);
    Step(valid, m, OutsideSignal, p);
  }

  // ---------------------------------------------------------------- the exact condition

  /** Every benign schedule that comes to rest with a loadable disk has nginx run it. */
  ghost predicate AlwaysConverges(valid: Files -> bool, m: Machine) {
    forall end: Machine :: LeadsTo(valid, m, end) && end.Quiescent() && valid(end.Disk()) ==> end.running == end.Disk()
  }

  lemma UnsafeDiverges(valid: Files -> bool, m: Machine, c: Content) returns (end: Machine)
    requires m.pc.Idle? && c != "" && !Safe(valid, m.running, m.Disk(), c)
    ensures LeadsTo(valid, RequestStep(m, MainTarget(), c, true, true), end)
    ensures end.Quiescent() && valid(end.Disk()) && end.Disk() == m.Disk() && end.running != end.Disk()
  {
    var t, disk, before := MainTarget(), m.Disk(), m.Disk()[MAIN_CONF];
    var m1 := RequestStep(m, t, c, true, true);
    MainFiles();
    MainWrite(m, t.Test(), "", m1.pc);
    Rewritten(disk, "", c);
    Rewritten(disk, c, before);
    var m2 := ToTruncated(valid, m1, c);
    var m3 := m2;
    Stays(valid, m2);
    if m.running == disk {
      m3 := Intrudes(valid, m2);
      assert m3.running[MAIN_CONF] == "";
    }
    Trans(valid, m1, m2, m3);
    var m4 := ToBad(valid, m3, c, before);
    Trans(valid, m1, m3, m4);
    end := ToEnd(valid, m4, before);
    Trans(valid, m1, m4, end);
  }

  /** The exact condition on a request for the main file: under every schedule nginx ends up running
      what is on disk, if it can, if and only if the request is safe. */
  lemma MainRequestIff(valid: Files -> bool, m: Machine, c: Content)
    requires Inv(valid, m) && m.pc.Idle? && c != ""
    ensures AlwaysConverges(valid, RequestStep(m, MainTarget(), c, true, true)) <==> Safe(valid, m.running, m.Disk(), c)
  {
    var m1 := RequestStep(m, MainTarget(), c, true, true);
    if Safe(valid, m.running, m.Disk(), c) {
      RequestKeepsInv(valid, m, MainTarget(), c, true);
      forall end: Machine | LeadsTo(valid, m1, end) && end.Quiescent() && valid(end.Disk())
        ensures end.running == end.Disk()
      {
        var actions :| CanRun(valid, m1, actions) && AllBenign(valid, m1, actions) && After(valid, m1, actions) == end;
        RunKeepsInv(valid, m1, actions);
      }
    } else {
      var end := UnsafeDiverges(valid, m, c);
    }
  }
}
