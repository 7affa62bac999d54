/** The reloader, the file watcher and nginx running at the same time. A step of the reloader
    touches the file system once, and writing a file takes two, one that truncates it and one that
    fills it; the watcher and nginx may run between any two steps. */
module Interleaving {
  import opened ConfNames
  import opened Nginx

  /** The copies that a reload makes. */
  datatype Copy = ToBackup | Overwriting | RollingBack | Committing

  /** Where the reloader is with its target. */
  datatype Pc =
    | Idle
    | FillTest(t: Target, content: Content, copied: bool)   // the candidate is truncated
    | Beside(t: Target, content: Content)         // a copy of it goes beside the main file
    | Start(t: Target)
    | Truncate(t: Target, copy: Copy)
    | FillCopy(t: Target, copy: Copy)             // the destination is truncated
    | BackupClean(t: Target, failed: bool)
    | Check(t: Target, first: bool)
    | Signal(t: Target)
    | CleanBackup(t: Target)
    | CleanTest(t: Target)

  /** Where the watcher is in handling one event. */
  datatype Watcher = Waiting | Woken | Passed

  datatype Machine = Machine(
    files: Files,
    pending: nat,        // Remove events of conf.d that the watcher has not taken
    running: Files,      // the view that nginx has loaded
    hup: bool,           // a SIGHUP that nginx has not handled
    watcher: Watcher,
    pc: Pc)
  {
    function Disk(): Files { View(files) }

    predicate Quiescent() { pc.Idle? && pending == 0 && watcher.Waiting? && !hup }
  }

  /** How one step may go wrong. */
  datatype Faults = Faults(write: WriteOutcome, runs: bool, removes: bool, delivered: bool)

  function EnvOf(valid: Files -> bool, f: Faults): Env {
    Env(valid, f.runs, (p, c) => f.write, p => f.removes, f.delivered)
  }

  datatype Action =
    | Request(target: Target, content: Content, created: bool)
    | ClearFile(target: Target, default: Content, faults: Faults)
    | Reloader(faults: Faults)
    | Wake                           // the watcher takes an event
    | WatcherTest(runs: bool)
    | WatcherSignal(delivered: bool)
    | Load                           // nginx handles SIGHUP
    | OutsideSignal                  // a SIGHUP from elsewhere, such as the watcher of the certificates

  /** A file of the watched directory itself; directories below it are not watched. */
  predicate Watched(p: Path) {
    var d := CONF_DIR + "/";
    |p| >= |d| && p[..|d|] == d && '/' !in p[|d|..]
  }

  // ---------------------------------------------------------------- steps

  function RemoveFile(env: Env, m: Machine, p: Path): Machine {
    if p in m.files && env.removable(p)
    then m.(files := m.files - {p}, pending := m.pending + if Watched(p) then 1 else 0)
    else m
  }

  function Src(t: Target, copy: Copy): Path {
    match copy
    case ToBackup => t.Prod()
    case Overwriting => t.Test()
    case RollingBack => t.Backup()
    case Committing => t.Test()
  }

  function Dst(t: Target, copy: Copy): Path {
    if copy.ToBackup? then t.Backup() else t.Prod()
  }

  /** Where the reloader goes after a copy. */
  function Then(t: Target, copy: Copy, ok: bool): Pc {
    match copy
    case ToBackup => if ok then Truncate(t, Overwriting) else BackupClean(t, true)
    case Overwriting => BackupClean(t, !ok)
    case RollingBack => CleanBackup(t)
    case Committing => if ok then Signal(t) else CleanBackup(t)
  }

  /** The first half of a copy: a source that is not there is a success. */
  function TruncateStep(env: Env, m: Machine, t: Target, copy: Copy): Machine {
    var src, dst := Src(t, copy), Dst(t, copy);
    if src !in m.files then m.(pc := Then(t, copy, true))
    else if env.write(dst, m.files[src]).Refused? then m.(pc := Then(t, copy, false))
    else m.(files := m.files[dst := ""], pc := FillCopy(t, copy))
  }

  /** The second half: an empty copy is a failure. */
  function FillStep(env: Env, m: Machine, t: Target, copy: Copy): Machine {
    var src, dst := Src(t, copy), Dst(t, copy);
    if src !in m.files then m.(pc := Then(t, copy, false))
    else
      var c := m.files[src];
      match env.write(dst, c)
      case Written => m.(files := m.files[dst := c], pc := Then(t, copy, c != ""))
      case Torn(left) => m.(files := m.files[dst := left], pc := Then(t, copy, false))
      case Refused => m.(pc := Then(t, copy, false))
  }

  function FillTestStep(env: Env, m: Machine, t: Target, c: Content, copied: bool): Machine {
    match env.write(t.Test(), c)
    case Written => m.(files := m.files[t.Test() := c], pc := if copied then Beside(t, c) else Start(t))
    case Torn(left) => m.(files := m.files[t.Test() := left], pc := Idle)
    case Refused => m.(pc := Idle)
  }

  /** Whether this copy can be written does not matter. */
  function BesideStep(env: Env, m: Machine, t: Target, c: Content): Machine {
    var p := At(NGINX_DIR, t.base).Test();
    match env.write(p, c)
    case Written => m.(files := m.files[p := c], pc := Start(t))
    case Torn(left) => m.(files := m.files[p := left], pc := Start(t))
    case Refused => m.(pc := Start(t))
  }

  function ReloaderStep(env: Env, m: Machine): Machine
    requires !m.pc.Idle?
  {
    var t := m.pc.t;
    match m.pc
    case FillTest(_, c, copied) => FillTestStep(env, m, t, c, copied)
    case Beside(_, c) => BesideStep(env, m, t, c)
    case Start(_) =>
      if t.Prod() !in m.files then m.(pc := Check(t, true))
      else if Look(m.files, t.Prod()) == Look(m.files, t.Test()) then m.(pc := CleanBackup(t))
      else m.(pc := Truncate(t, ToBackup))
    case Truncate(_, copy) => TruncateStep(env, m, t, copy)
    case FillCopy(_, copy) => FillStep(env, m, t, copy)
    case BackupClean(_, failed) =>
      RemoveFile(env, m, t.Test()).(pc := if failed then CleanBackup(t) else Check(t, false))
    case Check(_, first) =>
      if env.runnable && !env.valid(m.Disk())
      then m.(pc := if first then CleanBackup(t) else Truncate(t, RollingBack))
      else m.(pc := Truncate(t, Committing))
    case Signal(_) => m.(hup := m.hup || env.signalled, pc := CleanBackup(t))
    case CleanBackup(_) => RemoveFile(env, m, t.Backup()).(pc := CleanTest(t))
    case CleanTest(_) => RemoveFile(env, m, t.Test()).(pc := Idle)
  }

  /** A candidate is about to be written: the file is truncated, if it can be opened. */
  function RequestStep(m: Machine, t: Target, c: Content, copied: bool, created: bool): Machine {
    if created then m.(files := m.files[t.Test() := ""], pc := FillTest(t, c, copied)) else m
  }

  predicate Enabled(m: Machine, a: Action) {
    match a
    case Request(_, _, _) => m.pc.Idle?
    case ClearFile(_, _, _) => m.pc.Idle?
    case Reloader(_) => !m.pc.Idle?
    case Wake => m.watcher.Waiting? && m.pending > 0
    case WatcherTest(_) => m.watcher.Woken?
    case WatcherSignal(_) => m.watcher.Passed?
    case Load => m.hup
    case OutsideSignal => true
  }

  function Next(valid: Files -> bool, m: Machine, a: Action): Machine
    requires Enabled(m, a)
  {
    match a
    case Request(t, c, created) => RequestStep(m, t, c, true, created)
    case ClearFile(t, default, f) =>
      if t.Prod() in m.files then RemoveFile(EnvOf(valid, f), m, t.Prod())
      else RequestStep(m, MainTarget(), default, false, !f.write.Refused?)
    case Reloader(f) => ReloaderStep(EnvOf(valid, f), m)
    case Wake => m.(pending := m.pending - 1, watcher := Woken)
    case WatcherTest(runs) => m.(watcher := if runs && !valid(m.Disk()) then Waiting else Passed)
    case WatcherSignal(delivered) => m.(hup := m.hup || delivered, watcher := Waiting)
    case Load => m.(hup := false, running := if valid(m.Disk()) then m.Disk() else m.running)
    case OutsideSignal => m.(hup := true)
  }

  // ---------------------------------------------------------------- runs

  predicate CanRun(valid: Files -> bool, m: Machine, actions: seq<Action>)
    decreases |actions|
  {
    actions == [] || (Enabled(m, actions[0]) && CanRun(valid, Next(valid, m, actions[0]), actions[1..]))
  }

  function After(valid: Files -> bool, m: Machine, actions: seq<Action>): Machine
    requires CanRun(valid, m, actions)
    decreases |actions|
  {
    if actions == [] then m else After(valid, Next(valid, m, actions[0]), actions[1..])
  }

  /** Whatever goes wrong and in whatever order, nginx only ever runs a view that it has accepted. */
  lemma {:induction false} RunningIsAccepted(valid: Files -> bool, m: Machine, actions: seq<Action>)
    requires valid(m.running) && CanRun(valid, m, actions)
    ensures valid(After(valid, m, actions).running)
    decreases |actions|
  {
    if actions != [] {
      RunningStep(valid, m, actions[0]);
      RunningIsAccepted(valid, Next(valid, m, actions[0]), actions[1..]);
    }
  }

  /** Only `Load` changes what nginx runs. */
  lemma RunningStep(valid: Files -> bool, m: Machine, a: Action)
    requires Enabled(m, a)
    ensures Next(valid, m, a).running == if a.Load? && valid(m.Disk()) then m.Disk() else m.running
  {
    match a
    case Reloader(f) => ReloaderLoadsNothing(EnvOf(valid, f), m);
    case _ =>
  }

  lemma ReloaderLoadsNothing(env: Env, m: Machine)
    requires !m.pc.Idle?
    ensures ReloaderStep(env, m).running == m.running
  {
    match m.pc
    case Truncate(t, copy) => CopyFrame(env, m, t, copy);
    case FillCopy(t, copy) => CopyFrame(env, m, t, copy);
    case _ =>
  }

  // ---------------------------------------------------------------- progress

  function Rank(pc: Pc): nat {
    match pc
    case Idle => 0
    case CleanTest(_) => 1
    case CleanBackup(_) => 2
    case Signal(_) => 3
    case FillCopy(_, copy) => if copy.ToBackup? then 10 else if copy.Overwriting? then 8 else 4
    case Truncate(_, copy) => if copy.ToBackup? then 11 else if copy.Overwriting? then 9 else 5
    case Check(_, _) => 6
    case BackupClean(_, _) => 7
    case Start(_) => 12
    case Beside(_, _) => 13
    case FillTest(_, _, _) => 14
  }

  /** A bound on the steps that are left once no more work comes in. */
  function Work(m: Machine): nat {
    6 * Rank(m.pc) + 4 * m.pending
    + (match m.watcher case Waiting => 0 case Passed => 2 case Woken => 3)
    + (if m.hup then 1 else 0)
  }

  /** Actions that finish work and bring none in. */
  predicate Internal(a: Action) {
    a.Reloader? || a.Wake? || a.WatcherTest? || a.WatcherSignal? || a.Load?
  }

  lemma RemoveFrame(env: Env, m: Machine, p: Path)
    ensures var m1 := RemoveFile(env, m, p);
            m1.pending <= m.pending + 1 && m1.watcher == m.watcher && m1.hup == m.hup
  {
  }

  lemma CopyFrame(env: Env, m: Machine, t: Target, copy: Copy)
    ensures forall m1 :: m1 in {TruncateStep(env, m, t, copy), FillStep(env, m, t, copy)} ==>
              && m1.pending == m.pending && m1.watcher == m.watcher && m1.hup == m.hup
              && m1.running == m.running
  {
  }

  lemma TruncateFalls(env: Env, m: Machine, t: Target, copy: Copy)
    ensures Rank(TruncateStep(env, m, t, copy).pc) < Rank(Truncate(t, copy))
  {
  }

  lemma FillFalls(env: Env, m: Machine, t: Target, copy: Copy)
    ensures Rank(FillStep(env, m, t, copy).pc) < Rank(FillCopy(t, copy))
  {
  }

  lemma RankFalls(env: Env, m: Machine)
    requires !m.pc.Idle?
    ensures Rank(ReloaderStep(env, m).pc) < Rank(m.pc)
  {
    match m.pc
    case Truncate(t, copy) => TruncateFalls(env, m, t, copy);
    case FillCopy(t, copy) => FillFalls(env, m, t, copy);
    case _ =>
  }

  lemma ReloaderWorks(env: Env, m: Machine)
    requires !m.pc.Idle?
    ensures ReloaderStep(env, m).pending <= m.pending + 1
    ensures ReloaderStep(env, m).watcher == m.watcher
    ensures ReloaderStep(env, m).hup ==> m.hup || m.pc.Signal?
  {
    match m.pc
    case Truncate(t, copy) => CopyFrame(env, m, t, copy);
    case FillCopy(t, copy) => CopyFrame(env, m, t, copy);
    case BackupClean(t, _) => RemoveFrame(env, m, t.Test());
    case CleanBackup(t) => RemoveFrame(env, m, t.Backup());
    case CleanTest(t) => RemoveFrame(env, m, t.Test());
    case _ =>
  }

  lemma NextWorks(valid: Files -> bool, m: Machine, a: Action)
    requires Enabled(m, a) && Internal(a)
    ensures Work(Next(valid, m, a)) < Work(m)
  {
    match a
    case Reloader(f) =>
      RankFalls(EnvOf(valid, f), m);
      ReloaderWorks(EnvOf(valid, f), m);
    case _ =>
  }

  /** No schedule can go on for ever, and none stops before the state is quiescent. */
  lemma {:induction false} InternalRunsEnd(valid: Files -> bool, m: Machine, actions: seq<Action>)
    requires CanRun(valid, m, actions) && forall a :: a in actions ==> Internal(a)
    ensures |actions| <= Work(m)
    ensures (forall a :: Internal(a) ==> !Enabled(After(valid, m, actions), a))
            <==> After(valid, m, actions).Quiescent()
    decreases |actions|
  {
    if actions != [] {
      assert actions[0] in actions;
      NextWorks(valid, m, actions[0]);
      InternalRunsEnd(valid, Next(valid, m, actions[0]), actions[1..]);
    } else {
      var f := Faults(Written, true, true, true);
      assert Internal(Reloader(f)) && Internal(Wake) && Internal(WatcherTest(true));
      assert Internal(WatcherSignal(true)) && Internal(Load);
      assert m.Quiescent() || Enabled(m, Reloader(f)) || Enabled(m, Wake) || Enabled(m, WatcherTest(true))
          || Enabled(m, WatcherSignal(true)) || Enabled(m, Load);
    }
  }

  // ---------------------------------------------------------------- the reloader alone

  /** Runs the reloader to its end with nothing in between. */
  function Drive(env: Env, m: Machine): Machine
    decreases Rank(m.pc)
  {
    if m.pc.Idle? then m
    else
      RankFalls(env, m);
      Drive(env, ReloaderStep(env, m))
  }

  lemma DriveStep(env: Env, m: Machine)
    requires !m.pc.Idle?
    ensures Drive(env, m) == Drive(env, ReloaderStep(env, m))
  {
  }

  function Removals(log: seq<Event>): nat {
    if log == [] then 0
    else
      var n := |log| - 1;
      Removals(log[..n]) + if log[n].Removed? && Watched(log[n].path) then 1 else 0
  }

  function Signals(log: seq<Event>): bool {
    exists i :: 0 <= i < |log| && log[i].Signalled?
  }

  /** A machine after the events of `w`. */
  function Absorb(m: Machine, w: World, pc: Pc): Machine {
    m.(files := w.files, pending := m.pending + Removals(w.log), hup := m.hup || Signals(w.log), pc := pc)
  }

  lemma AbsorbStep(m: Machine, w: World, files: Files, e: Event, pc: Pc)
    ensures Absorb(m, World(files, w.log + [e]), pc) ==
            Absorb(m, w, pc).(files := files,
                              pending := m.pending + Removals(w.log) + (if e.Removed? && Watched(e.path) then 1 else 0),
                              hup := m.hup || Signals(w.log) || e.Signalled?)
  {
    Push(w.log, e);
  }

  lemma Push(log: seq<Event>, e: Event)
    ensures Removals(log + [e]) == Removals(log) + if e.Removed? && Watched(e.path) then 1 else 0
    ensures Signals(log + [e]) <==> Signals(log) || e.Signalled?
  {
    var more := log + [e];
    assert more[..|more| - 1] == log && more[|log|] == e;
    if i :| 0 <= i < |log| && log[i].Signalled? {
      assert more[i].Signalled?;
    }
  }

  lemma AbsorbRemove(env: Env, m: Machine, w: World, p: Path, pc: Pc)
    ensures RemoveFile(env, Absorb(m, w, pc), p) == Absorb(m, Remove(env, w, p), pc)
  {
    AbsorbStep(m, w, w.files - {p}, Removed(p), pc);
  }

  /** A copy adds at most the event of its write. */
  lemma CopyLog(env: Env, w: World, src: Path, dst: Path)
    ensures var w1 := CopyConf(env, w, src, dst).0;
            w1 == w || w1.log == w.log + [Wrote(dst)]
  {
  }

  /** To the machine a copy makes no event in conf.d and no signal. */
  lemma CopyAbsorbed(env: Env, m: Machine, w: World, src: Path, dst: Path, pc: Pc)
    ensures var w1 := CopyConf(env, w, src, dst).0;
            Absorb(m, w1, pc) == Absorb(m, w, pc).(files := w1.files)
  {
    CopyLog(env, w, src, dst);
    Push(w.log, Wrote(dst));
  }

  lemma CopyResult(env: Env, w: World, src: Path, dst: Path)
    requires src in w.files && src != dst
    ensures var (w1, s) := CopyConf(env, w, src, dst);
            match env.write(dst, w.files[src])
            case Written => w1.files == w.files[dst := w.files[src]] && (s.Done? <==> w.files[src] != "")
            case Torn(left) => w1.files == w.files[dst := left] && s.Failed?
            case Refused => w1 == w && s.Failed?
  {
  }

  lemma TruncateThenFill(env: Env, m: Machine, t: Target, copy: Copy)
    requires m.pc == Truncate(t, copy) && Src(t, copy) in m.files && Src(t, copy) != Dst(t, copy)
    requires !env.write(Dst(t, copy), m.files[Src(t, copy)]).Refused?
    ensures ReloaderStep(env, m) == m.(files := m.files[Dst(t, copy) := ""], pc := FillCopy(t, copy))
    ensures var dst, c := Dst(t, copy), m.files[Src(t, copy)];
            ReloaderStep(env, ReloaderStep(env, m)) ==
            match env.write(dst, c)
            case Written => m.(files := m.files[dst := c], pc := Then(t, copy, c != ""))
            case Torn(left) => m.(files := m.files[dst := left], pc := Then(t, copy, false))
            case Refused => m
  {
    var dst, c := Dst(t, copy), m.files[Src(t, copy)];
    Overwritten(m.files, dst, c);
    match env.write(dst, c)
    case Torn(left) => Overwritten(m.files, dst, left);
    case _ =>
  }

  lemma Overwritten(files: Files, p: Path, c: Content)
    ensures files[p := ""][p := c] == files[p := c]
  {
  }

  /** The two halves of a copy are the copy. */
  lemma DriveCopy(env: Env, m: Machine, w: World, t: Target, copy: Copy)
    ensures var (w1, s) := CopyConf(env, w, Src(t, copy), Dst(t, copy));
            Drive(env, Absorb(m, w, Truncate(t, copy))) == Drive(env, Absorb(m, w1, Then(t, copy, s.Done?)))
  {
    OwnPathsDiffer(t);
    var src, dst := Src(t, copy), Dst(t, copy);
    var (w1, s) := CopyConf(env, w, src, dst);
    var m0 := Absorb(m, w, Truncate(t, copy));
    CopyAbsorbed(env, m, w, src, dst, Then(t, copy, s.Done?));
    DriveStep(env, m0);
    if src in w.files {
      CopyResult(env, w, src, dst);
    }
    if src in w.files && !env.write(dst, w.files[src]).Refused? {
      TruncateThenFill(env, m0, t, copy);
      DriveStep(env, ReloaderStep(env, m0));
    }
  }

  lemma DriveCleans(env: Env, m: Machine, w: World, t: Target)
    ensures Drive(env, Absorb(m, w, CleanBackup(t))) == Absorb(m, Clean(env, w, [t.Backup(), t.Test()]), Idle)
  {
    var w1 := Remove(env, w, t.Backup());
    AbsorbRemove(env, m, w, t.Backup(), CleanBackup(t));
    AbsorbRemove(env, m, w1, t.Test(), CleanTest(t));
    CleanTwo(env, w, t.Backup(), t.Test());
    assert ReloaderStep(env, Absorb(m, w, CleanBackup(t))) == Absorb(m, w1, CleanTest(t));
    assert ReloaderStep(env, Absorb(m, w1, CleanTest(t))) == Absorb(m, Remove(env, w1, t.Test()), Idle);
    DriveStep(env, Absorb(m, w, CleanBackup(t)));
    DriveStep(env, Absorb(m, w1, CleanTest(t)));
  }

  lemma DriveRollsBack(env: Env, m: Machine, w: World, t: Target)
    ensures Drive(env, Absorb(m, w, Truncate(t, RollingBack))) ==
            Absorb(m, Clean(env, CopyConf(env, w, t.Backup(), t.Prod()).0, [t.Backup(), t.Test()]), Idle)
  {
    DriveCopy(env, m, w, t, RollingBack);
    DriveCleans(env, m, CopyConf(env, w, t.Backup(), t.Prod()).0, t);
  }

  lemma DriveSignals(env: Env, m: Machine, w: World, t: Target)
    ensures Drive(env, Absorb(m, w, Signal(t))) ==
            Absorb(m, Clean(env, Restart(env, w).0, [t.Backup(), t.Test()]), Idle)
  {
    var (w1, s1) := Restart(env, w);
    AbsorbStep(m, w, w.files, Signalled(View(w.files)), CleanBackup(t));
    assert ReloaderStep(env, Absorb(m, w, Signal(t))) == Absorb(m, w1, CleanBackup(t));
    DriveStep(env, Absorb(m, w, Signal(t)));
    DriveCleans(env, m, w1, t);
  }

  lemma DriveFinishes(env: Env, m: Machine, w: World, t: Target)
    ensures var (w2, s2) := CopyConf(env, w, t.Test(), t.Prod());
            Drive(env, Absorb(m, w, Truncate(t, Committing))) ==
            Absorb(m, Clean(env, if s2.Failed? then w2 else Restart(env, w2).0, [t.Backup(), t.Test()]), Idle)
  {
    var (w2, s2) := CopyConf(env, w, t.Test(), t.Prod());
    DriveCopy(env, m, w, t, Committing);
    if s2.Failed? {
      DriveCleans(env, m, w2, t);
    } else {
      DriveSignals(env, m, w2, t);
    }
  }

  /** The step that runs `nginx -t`. */
  lemma CheckStep(env: Env, m: Machine, w: World, t: Target, first: bool)
    ensures var (w1, verdict) := Nginx.Check(env, w);
            ReloaderStep(env, Absorb(m, w, Check(t, first))) ==
            Absorb(m, w1, if verdict != Rejected then Truncate(t, Committing) else if first then CleanBackup(t) else Truncate(t, RollingBack))
  {
    AbsorbStep(m, w, w.files, Tested(View(w.files)), Check(t, first));
  }

  lemma DriveCommits(env: Env, m: Machine, w: World, t: Target, first: bool)
    ensures Drive(env, Absorb(m, w, Check(t, first))) ==
            Absorb(m, Clean(env, TestAndCommit(env, w, t, first).0, [t.Backup(), t.Test()]), Idle)
  {
    var (w1, verdict) := Nginx.Check(env, w);
    CheckStep(env, m, w, t, first);
    DriveStep(env, Absorb(m, w, Check(t, first)));
    if verdict != Rejected {
      DriveFinishes(env, m, w1, t);
    } else if first {
      DriveCleans(env, m, w1, t);
    } else {
      DriveRollsBack(env, m, w1, t);
    }
  }

  lemma DriveBacksUp(env: Env, m: Machine, w: World, t: Target)
    ensures var (w1, s1) := Backup(env, w, t.Prod(), t.Test(), t.Backup());
            Drive(env, Absorb(m, w, Truncate(t, ToBackup))) ==
            Absorb(m, Clean(env, if s1.Failed? then w1 else TestAndCommit(env, w1, t, false).0,
                            [t.Backup(), t.Test()]), Idle)
  {
    var (w1, s1) := CopyConf(env, w, t.Prod(), t.Backup());
    DriveCopy(env, m, w, t, ToBackup);
    if s1.Failed? {
      DriveBackupClean(env, m, w1, t, true);
    } else {
      DriveOverwrites(env, m, w1, t);
    }
  }

  lemma DriveOverwrites(env: Env, m: Machine, w: World, t: Target)
    ensures var (w2, s2) := CopyConf(env, w, t.Test(), t.Prod());
            var w3 := Clean(env, w2, [t.Test()]);
            Drive(env, Absorb(m, w, Truncate(t, Overwriting))) ==
            Absorb(m, Clean(env, if s2.Failed? then w3 else TestAndCommit(env, w3, t, false).0,
                            [t.Backup(), t.Test()]), Idle)
  {
    var (w2, s2) := CopyConf(env, w, t.Test(), t.Prod());
    DriveCopy(env, m, w, t, Overwriting);
    DriveBackupClean(env, m, w2, t, s2.Failed?);
  }

  lemma DriveBackupClean(env: Env, m: Machine, w: World, t: Target, failed: bool)
    ensures var w1 := Clean(env, w, [t.Test()]);
            Drive(env, Absorb(m, w, BackupClean(t, failed))) ==
            Absorb(m, Clean(env, if failed then w1 else TestAndCommit(env, w1, t, false).0,
                            [t.Backup(), t.Test()]), Idle)
  {
    var w1 := Remove(env, w, t.Test());
    CleanOne(env, w, t.Test());
    AbsorbRemove(env, m, w, t.Test(), BackupClean(t, failed));
    if failed {
      DriveCleans(env, m, w1, t);
    } else {
      DriveCommits(env, m, w1, t, false);
    }
  }

  lemma DriveReload(env: Env, m: Machine, w: World, t: Target)
    ensures Drive(env, Absorb(m, w, Start(t))) == Absorb(m, Reload(env, w, t).0, Idle)
  {
    DriveStep(env, Absorb(m, w, Start(t)));
    if t.Prod() !in w.files {
      DriveCommits(env, m, w, t, true);
    } else if Look(w.files, t.Prod()) == Look(w.files, t.Test()) {
      DriveCleans(env, m, w, t);
    } else {
      DriveBacksUp(env, m, w, t);
    }
  }

  /** The steps of the reloader, run without interruption, are the reload transaction: the same
      files, a Remove event for every file it removes, and a signal exactly when it signals. */
  lemma StepsAreReload(env: Env, m: Machine, t: Target)
    requires m.pc == Start(t)
    ensures Drive(env, m) == Absorb(m, Reload(env, World(m.files, []), t).0, Idle)
  {
    assert m == Absorb(m, World(m.files, []), Start(t));
    DriveReload(env, m, World(m.files, []), t);
  }

  // ---------------------------------------------------------------- the other actions are the operations

  lemma DriveCandidate(env: Env, m: Machine, w: World, t: Target, c: Content, copied: bool)
    ensures var (w1, ok) := Nginx.Write(env, w, t.Test(), c);
            Drive(env, RequestStep(Absorb(m, w, Idle), t, c, copied, !env.write(t.Test(), c).Refused?)) ==
            if ok then Drive(env, Absorb(m, w1, if copied then Beside(t, c) else Start(t))) else Absorb(m, w1, Idle)
  {
    var m0 := Absorb(m, w, Idle);
    Push(w.log, Wrote(t.Test()));
    match env.write(t.Test(), c)
    case Written =>
      Overwritten(w.files, t.Test(), c);
      DriveStep(env, RequestStep(m0, t, c, copied, true));
    case Torn(left) =>
      Overwritten(w.files, t.Test(), left);
      DriveStep(env, RequestStep(m0, t, c, copied, true));
    case Refused =>
  }

  lemma DriveBeside(env: Env, m: Machine, w: World, t: Target, c: Content)
    ensures var w1 := Nginx.Write(env, w, At(NGINX_DIR, t.base).Test(), c).0;
            Drive(env, Absorb(m, w, Beside(t, c))) == Drive(env, Absorb(m, w1, Start(t)))
  {
    Push(w.log, Wrote(At(NGINX_DIR, t.base).Test()));
    DriveStep(env, Absorb(m, w, Beside(t, c)));
  }

  /** A request, driven to its end, is a deployment. */
  lemma RequestIsDeploy(env: Env, m: Machine, t: Target, c: Content)
    requires m.pc.Idle?
    ensures Drive(env, RequestStep(m, t, c, true, !env.write(t.Test(), c).Refused?)) ==
            Absorb(m, Deploy(env, World(m.files, []), t, c).0, Idle)
  {
    var w := World(m.files, []);
    assert m == Absorb(m, w, Idle);
    DriveCandidate(env, m, w, t, c, true);
    var (w1, ok) := Nginx.Write(env, w, t.Test(), c);
    if ok {
      DriveBeside(env, m, w1, t, c);
      DriveReload(env, m, Nginx.Write(env, w1, At(NGINX_DIR, t.base).Test(), c).0, t);
    }
  }

  /** Clearing an ingress, driven to its end, changes files, events and signals as `clearConf` does. */
  lemma ClearIsClear(valid: Files -> bool, m: Machine, t: Target, default: Content, f: Faults)
    requires m.pc.Idle?
    ensures Drive(EnvOf(valid, f), Next(valid, m, ClearFile(t, default, f))) ==
            Absorb(m, Clear(EnvOf(valid, f), World(m.files, []), t, default), Idle)
  {
    var env, w, main := EnvOf(valid, f), World(m.files, []), MainTarget();
    assert m == Absorb(m, w, Idle);
    if t.Prod() in m.files {
      AbsorbRemove(env, m, w, t.Prod(), Idle);
      CleanOne(env, w, t.Prod());
    } else {
      DriveCandidate(env, m, w, main, default, false);
      var (w1, ok) := Nginx.Write(env, w, main.Test(), default);
      if ok {
        DriveReload(env, m, w1, main);
      }
    }
  }

  /** The watcher, from taking an event until it waits again. */
  function Watch(valid: Files -> bool, m: Machine, runs: bool, delivered: bool): Machine
    requires m.watcher.Woken?
  {
    var m1 := Next(valid, m, WatcherTest(runs));
    if m1.watcher.Passed? then Next(valid, m1, WatcherSignal(delivered)) else m1
  }

  lemma WatchSignals(valid: Files -> bool, m: Machine, runs: bool, delivered: bool)
    requires m.watcher.Woken?
    ensures Watch(valid, m, runs, delivered) ==
            m.(watcher := Waiting, hup := m.hup || (delivered && (runs ==> valid(m.Disk()))))
  {
  }

  lemma CallbackSignals(env: Env, m: Machine, pc: Pc)
    ensures Absorb(m, WatcherRun(env, World(m.files, [])), pc) ==
            m.(hup := m.hup || (env.signalled && (env.runnable ==> env.valid(m.Disk()))), pc := pc)
  {
    var w := World(m.files, []);
    var w1 := Nginx.Check(env, w).0;
    assert Absorb(m, w, pc) == m.(pc := pc);
    AbsorbStep(m, w, m.files, Tested(View(m.files)), pc);
    AbsorbStep(m, w1, m.files, Signalled(View(m.files)), pc);
  }

  /** That is the callback of the source: the same files, and a signal exactly when it signals. */
  lemma WatchIsCallback(valid: Files -> bool, m: Machine, f: Faults)
    requires m.watcher.Woken?
    ensures Watch(valid, m, f.runs, f.delivered) ==
            Absorb(m, WatcherRun(EnvOf(valid, f), World(m.files, [])), m.pc).(watcher := Waiting)
  {
    WatchSignals(valid, m, f.runs, f.delivered);
    CallbackSignals(EnvOf(valid, f), m, m.pc);
  }
}
