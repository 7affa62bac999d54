/** Under every interleaving: when nothing is in progress and nginx could load what is on disk, it
    runs exactly that. */
module Convergence {
  import opened Results
  import opened ConfNames
  import opened Nginx
  import opened Interleaving
  import Rollout

  // ---------------------------------------------------------------- what is owed

  predicate InConfD(t: Target) {
    t.dir == CONF_DIR && '/' !in t.base
  }

  /** The reloader will still remove a test or backup file from conf.d. */
  predicate WillRemove(m: Machine) {
    match m.pc
    case Idle => false
    case CleanTest(t) => InConfD(t) && t.Test() in m.files
    case _ => InConfD(m.pc.t) && (m.pc.t.Test() in m.files || m.pc.t.Backup() in m.files)
  }

  /** Something is under way that ends with nginx reading the disk. */
  predicate Owed(m: Machine) {
    m.pending > 0 || !m.watcher.Waiting? || m.hup || WillRemove(m)
  }

  /** If nginx could load the disk and has not, that is owed. */
  predicate Due(valid: Files -> bool, m: Machine) {
    valid(m.Disk()) && m.running != m.Disk() ==> Owed(m)
  }

  // ---------------------------------------------------------------- requests for the main file

  /** The condition on a request for the main file. The main file lies outside conf.d, so that its
      reload makes no event: if nginx could run what is on disk, and would refuse it with the new
      main file, then nothing may be owed that could be dropped meanwhile, and nginx must not be able
      to run what is on disk while the main file is truncated. */
  predicate Safe(valid: Files -> bool, running: Files, disk: Files, c: Content) {
    && c != ""
    && (MAIN_CONF in disk && disk[MAIN_CONF] != "" && valid(disk) && !valid(disk[MAIN_CONF := c]) ==>
          running == disk && !valid(disk[MAIN_CONF := ""]))
  }

  /** Once the main file is written back, nginx runs what is on disk, if it can. */
  predicate Returns(valid: Files -> bool, running: Files, disk: Files, backup: Content) {
    valid(disk[MAIN_CONF := backup]) ==> running == disk[MAIN_CONF := backup] && !valid(disk[MAIN_CONF := ""])
  }

  function MainTest(m: Machine): Option<Content> { Look(m.files, MainTarget().Test()) }

  function MainBackup(m: Machine): Option<Content> { Look(m.files, MainTarget().Backup()) }

  /** The candidate for the main file is still there, on its way to a backed-up main file. */
  predicate Prepared(valid: Files -> bool, m: Machine) {
    && Due(valid, m)
    && MAIN_CONF in m.Disk()
    && MainTest(m).Some? && Safe(valid, m.running, m.Disk(), MainTest(m).value)
  }

  /** The main file has been overwritten: either nginx accepts it, or everything returns. */
  predicate HalfWay(valid: Files -> bool, m: Machine, view: Files) {
    && MAIN_CONF in m.Disk() && MainTest(m) != Some("") && MainBackup(m).Some?
    && (!valid(view) ==> Returns(valid, m.running, m.Disk(), MainBackup(m).value))
  }

  /** What holds at each point of a reload of the main file. */
  predicate MainInv(valid: Files -> bool, m: Machine)
    requires !m.pc.Idle?
  {
    match m.pc
    case FillTest(_, c, _) => Due(valid, m) && Safe(valid, m.running, m.Disk(), c)
    case Beside(_, c) =>
      && Due(valid, m) && MainTest(m).Some? && Safe(valid, m.running, m.Disk(), MainTest(m).value)
      && Safe(valid, m.running, m.Disk(), c)
    case Start(_) => Due(valid, m) && MainTest(m).Some? && Safe(valid, m.running, m.Disk(), MainTest(m).value)
    case Truncate(_, copy) =>
      (match copy
       case ToBackup => Prepared(valid, m)
       case Overwriting => Prepared(valid, m) && m.Disk()[MAIN_CONF] != "" && MainBackup(m) == Some(m.Disk()[MAIN_CONF])
       case RollingBack =>
         && MAIN_CONF in m.Disk() && MainBackup(m).Some? && !valid(m.Disk())
         && Returns(valid, m.running, m.Disk(), MainBackup(m).value)
       case Committing => MainTest(m) != Some(""))
    case FillCopy(_, copy) =>
      (match copy
       case ToBackup => Prepared(valid, m)
       case Overwriting =>
         && MainTest(m).Some? && HalfWay(valid, m, m.Disk()[MAIN_CONF := MainTest(m).value])
         && m.Disk()[MAIN_CONF] == ""
       case RollingBack =>
         && MAIN_CONF in m.Disk() && m.Disk()[MAIN_CONF] == "" && MainBackup(m).Some?
         && Returns(valid, m.running, m.Disk(), MainBackup(m).value)
       case Committing => MainTest(m).Some? && MainTest(m) != Some(""))
    case BackupClean(_, failed) => if failed then Due(valid, m) else HalfWay(valid, m, m.Disk())
    case Check(_, first) => if first then MainTest(m) != Some("") else HalfWay(valid, m, m.Disk())
    case Signal(_) => true
    case CleanBackup(_) => Due(valid, m)
    case CleanTest(_) => Due(valid, m)
  }

  predicate Inv(valid: Files -> bool, m: Machine) {
    if m.pc.Idle? then Due(valid, m)
    else if m.pc.t == MainTarget() then MainInv(valid, m)
    else InConfD(m.pc.t) && Due(valid, m) && (m.pc.Beside? ==> m.pc.t.Test() in m.files)
  }

  /** What may go wrong. In conf.d, removals work and a candidate is written whole; for the main
      file, the request is safe, the writes of the main file itself are whole and the signal arrives.
      The watcher's signal arrives. Every other fault may happen at every step. */
  predicate Benign(valid: Files -> bool, m: Machine, a: Action) {
    match a
    case Request(t, c, created) =>
      if t == MainTarget() then created ==> Safe(valid, m.running, m.Disk(), c) else InConfD(t)
    case ClearFile(t, default, f) =>
      if t.Prod() in m.files then InConfD(t) && f.removes
      else f.write.Refused? || Safe(valid, m.running, m.Disk(), default)
    case Reloader(f) =>
      if m.pc.Idle? then true
      else if m.pc.t == MainTarget() then
        match m.pc
        case Truncate(_, copy) => copy.Committing? ==> f.write.Written?
        case FillCopy(_, copy) => !copy.ToBackup? ==> f.write.Written?
        case Signal(_) => f.delivered
        case Beside(_, _) => f.write.Torn? ==> Safe(valid, m.running, m.Disk(), f.write.left)
        case _ => true
      else f.removes && (m.pc.FillTest? ==> f.write.Written?)
    case WatcherSignal(delivered) => delivered
    case _ => true
  }

  // ---------------------------------------------------------------- steps in conf.d

  lemma WatchedFiles(t: Target)
    requires InConfD(t)
    ensures Watched(t.Prod()) && Watched(t.Test()) && Watched(t.Backup())
    ensures t != MainTarget()
  {
    assert |CONF_DIR| != |NGINX_DIR|;
    var d := CONF_DIR + "/";
    assert t.Prod() == d + (t.base + ".conf") && t.Prod()[|d|..] == t.base + ".conf";
    assert t.Test() == d + (t.base + "-test.conf") && t.Test()[|d|..] == t.base + "-test.conf";
    assert t.Backup() == d + (t.base + ".tmp") && t.Backup()[|d|..] == t.base + ".tmp";
  }

  /** Removing a file of the target leaves an event behind, or nothing was there. */
  lemma RemovalIsSeen(env: Env, m: Machine, p: Path)
    requires env.removable(p) && Watched(p)
    ensures var m1 := RemoveFile(env, m, p);
            && p !in m1.files
            && (p in m.files ==> m1.pending > 0)
            && (p !in m.files ==> m1 == m)
  {
  }

  /** The reloader goes on, no file is lost, and a file that changes leaves one to be removed. */
  predicate GoesOn(m: Machine, m1: Machine, t: Target) {
    && m1 == m.(files := m1.files, pc := m1.pc)
    && !m1.pc.Idle? && !m1.pc.CleanTest? && m1.pc.t == t
    && (forall p :: p in m.files ==> p in m1.files)
    && (m1.files == m.files || t.Test() in m1.files || t.Backup() in m1.files)
  }

  lemma TruncateGoesOn(env: Env, m: Machine, t: Target, copy: Copy)
    ensures GoesOn(m, TruncateStep(env, m, t, copy), t)
  {
  }

  lemma FillGoesOn(env: Env, m: Machine, t: Target, copy: Copy)
    ensures GoesOn(m, FillStep(env, m, t, copy), t)
  {
  }

  lemma GoingOnIsDue(valid: Files -> bool, m: Machine, m1: Machine, t: Target)
    requires Due(valid, m) && !m.pc.Idle? && !m.pc.CleanTest? && m.pc.t == t && InConfD(t)
    requires GoesOn(m, m1, t)
    ensures Due(valid, m1)
  {
  }

  lemma ConfKeepsInv(valid: Files -> bool, m: Machine, f: Faults)
    requires Inv(valid, m) && !m.pc.Idle? && InConfD(m.pc.t)
    requires f.removes && (m.pc.FillTest? ==> f.write.Written?)
    ensures Inv(valid, ReloaderStep(EnvOf(valid, f), m))
  {
    var t, env := m.pc.t, EnvOf(valid, f);
    WatchedFiles(t);
    match m.pc
    case Truncate(_, copy) =>
      TruncateGoesOn(env, m, t, copy);
      GoingOnIsDue(valid, m, TruncateStep(env, m, t, copy), t);
    case FillCopy(_, copy) =>
      FillGoesOn(env, m, t, copy);
      GoingOnIsDue(valid, m, FillStep(env, m, t, copy), t);
    case _ => ConfOtherStep(valid, m, f);
  }

  lemma ConfOtherStep(valid: Files -> bool, m: Machine, f: Faults)
    requires Inv(valid, m) && !m.pc.Idle? && InConfD(m.pc.t) && m.pc.t != MainTarget()
    requires !m.pc.Truncate? && !m.pc.FillCopy?
    requires f.removes && (m.pc.FillTest? ==> f.write.Written?)
    ensures Inv(valid, ReloaderStep(EnvOf(valid, f), m))
  {
    if m.pc.BackupClean? || m.pc.CleanBackup? || m.pc.CleanTest? {
      ConfRemoval(valid, m, f);
    }
  }

  lemma ConfRemoval(valid: Files -> bool, m: Machine, f: Faults)
    requires Due(valid, m) && (m.pc.BackupClean? || m.pc.CleanBackup? || m.pc.CleanTest?)
    requires InConfD(m.pc.t) && m.pc.t != MainTarget() && f.removes
    ensures Inv(valid, ReloaderStep(EnvOf(valid, f), m))
  {
    var t, env := m.pc.t, EnvOf(valid, f);
    WatchedFiles(t);
    OwnPathsDiffer(t);
    RemovalIsSeen(env, m, if m.pc.CleanBackup? then t.Backup() else t.Test());
  }

  // ---------------------------------------------------------------- steps for the main file

  lemma MainFiles()
    ensures var t := MainTarget();
            && t.Prod() == MAIN_CONF && Viewed(MAIN_CONF) && !InConfD(t)
            && t.Test() != MAIN_CONF && t.Backup() != MAIN_CONF && t.Test() != t.Backup()
            && !Viewed(t.Test()) && !Viewed(t.Backup())
            && !Watched(t.Prod()) && !Watched(t.Test()) && !Watched(t.Backup())
            && At(NGINX_DIR, t.base).Test() == t.Test()
  {
    var t := MainTarget();
    Rollout.MainViews();
    OwnPathsDiffer(t);
    var d := CONF_DIR + "/";
    assert d[11] == 'c' && t.Prod()[11] == 'n' && t.Test()[11] == 'n' && t.Backup()[11] == 'n';
    assert |CONF_DIR| != |NGINX_DIR|;
  }

  lemma DiskWrite(files: Files, p: Path, c: Content)
    ensures View(files[p := c]) == if Viewed(p) then View(files)[p := c] else View(files)
    ensures Look(View(files), MAIN_CONF) == Look(files, MAIN_CONF)
  {
  }

  lemma DiskRemove(files: Files, p: Path)
    requires !Viewed(p)
    ensures View(files - {p}) == View(files)
  {
  }

  /** A write of the main reload, in terms of what is on disk, in the test and in the backup file. */
  lemma MainWrite(m: Machine, p: Path, c: Content, pc: Pc)
    requires p in {MAIN_CONF, MainTarget().Test(), MainTarget().Backup()}
    ensures var m1 := m.(files := m.files[p := c], pc := pc);
            && m1.Disk() == (if p == MAIN_CONF then m.Disk()[MAIN_CONF := c] else m.Disk())
            && MainTest(m1) == (if p == MainTarget().Test() then Some(c) else MainTest(m))
            && MainBackup(m1) == (if p == MainTarget().Backup() then Some(c) else MainBackup(m))
  {
    MainFiles();
    DiskWrite(m.files, p, c);
  }

  lemma MainOnDisk(files: Files)
    ensures Look(files, MAIN_CONF) == Look(View(files), MAIN_CONF)
  {
  }

  lemma MainRemoval(env: Env, m: Machine, p: Path)
    requires p in {MainTarget().Test(), MainTarget().Backup()}
    ensures var m1 := RemoveFile(env, m, p);
            && m1 == m.(files := m1.files) && m1.Disk() == m.Disk()
            && (MainTest(m1) == None || MainTest(m1) == MainTest(m))
            && (p == MainTarget().Test() ==> MainBackup(m1) == MainBackup(m))
  {
    MainFiles();
    DiskRemove(m.files, p);
  }

  /** Writing the main file forgets what it held before. */
  lemma Rewritten(disk: Files, x: Content, y: Content)
    ensures disk[MAIN_CONF := x][MAIN_CONF := y] == disk[MAIN_CONF := y]
    ensures MAIN_CONF in disk ==> disk[MAIN_CONF := disk[MAIN_CONF]] == disk
  {
  }

  /** A step that changes neither the disk nor anything that is owed. */
  lemma StillDue(valid: Files -> bool, m: Machine, m1: Machine)
    requires Due(valid, m) && m1.Disk() == m.Disk() && m1 == m.(files := m1.files, pc := m1.pc)
    requires m.pc.Idle? || m.pc.t == MainTarget()
    ensures Due(valid, m1)
  {
    MainFiles();
  }

  lemma TruncateBackup(valid: Files -> bool, env: Env, m: Machine)
    requires m.pc == Truncate(MainTarget(), ToBackup) && Prepared(valid, m) && env.valid == valid
    ensures MainInv(valid, TruncateStep(env, m, MainTarget(), ToBackup))
  {
    var t := MainTarget();
    MainFiles();
    MainOnDisk(m.files);
    MainWrite(m, t.Backup(), "", FillCopy(t, ToBackup));
    StillDue(valid, m, TruncateStep(env, m, t, ToBackup));
  }

  lemma FillBackup(valid: Files -> bool, env: Env, m: Machine)
    requires m.pc == FillCopy(MainTarget(), ToBackup) && Prepared(valid, m) && env.valid == valid
    ensures MainInv(valid, FillStep(env, m, MainTarget(), ToBackup))
  {
    var t := MainTarget();
    var c := m.Disk()[MAIN_CONF];
    MainFiles();
    MainOnDisk(m.files);
    MainWrite(m, t.Backup(), c, Then(t, ToBackup, c != ""));
    StillDue(valid, m, FillStep(env, m, t, ToBackup));
    match env.write(t.Backup(), c)
    case Torn(left) => MainWrite(m, t.Backup(), left, Then(t, ToBackup, false));
    case _ =>
  }

  lemma TruncateMain(valid: Files -> bool, env: Env, m: Machine)
    requires m.pc == Truncate(MainTarget(), Overwriting) && MainInv(valid, m) && env.valid == valid
    ensures MainInv(valid, TruncateStep(env, m, MainTarget(), Overwriting))
  {
    var t, disk, c := MainTarget(), m.Disk(), MainTest(m).value;
    MainFiles();
    if env.write(t.Prod(), c).Refused? {
      StillDue(valid, m, TruncateStep(env, m, t, Overwriting));
    } else {
      MainWrite(m, MAIN_CONF, "", FillCopy(t, Overwriting));
      Rewritten(disk, "", c);
      Rewritten(disk, "", disk[MAIN_CONF]);
      Rewritten(disk, "", "");
    }
  }

  lemma FillMain(valid: Files -> bool, env: Env, m: Machine)
    requires m.pc == FillCopy(MainTarget(), Overwriting) && MainInv(valid, m) && env.valid == valid
    requires forall p, c :: env.write(p, c) == Written
    ensures MainInv(valid, FillStep(env, m, MainTarget(), Overwriting))
  {
    var t, disk, c := MainTarget(), m.Disk(), MainTest(m).value;
    MainFiles();
    MainWrite(m, MAIN_CONF, c, BackupClean(t, false));
    Rewritten(disk, c, "");
    Rewritten(disk, c, MainBackup(m).value);
  }

  lemma TruncateReturn(valid: Files -> bool, env: Env, m: Machine)
    requires m.pc == Truncate(MainTarget(), RollingBack) && MainInv(valid, m) && env.valid == valid
    ensures MainInv(valid, TruncateStep(env, m, MainTarget(), RollingBack))
  {
    var t, disk, c := MainTarget(), m.Disk(), MainBackup(m).value;
    MainFiles();
    MainWrite(m, MAIN_CONF, "", FillCopy(t, RollingBack));
    Rewritten(disk, "", "");
    Rewritten(disk, "", c);
  }

  lemma FillReturn(valid: Files -> bool, env: Env, m: Machine)
    requires m.pc == FillCopy(MainTarget(), RollingBack) && MainInv(valid, m) && env.valid == valid
    requires forall p, c :: env.write(p, c) == Written
    ensures MainInv(valid, FillStep(env, m, MainTarget(), RollingBack))
  {
    var t, c := MainTarget(), MainBackup(m).value;
    MainFiles();
    MainWrite(m, MAIN_CONF, c, CleanBackup(t));
  }

  lemma CommitMain(valid: Files -> bool, env: Env, m: Machine)
    requires m.pc in {Truncate(MainTarget(), Committing), FillCopy(MainTarget(), Committing)} && MainInv(valid, m)
    requires forall p, c :: env.write(p, c) == Written
    ensures MainInv(valid, ReloaderStep(env, m))
  {
    var t := MainTarget();
    MainFiles();
    if MainTest(m).Some? {
      MainWrite(m, MAIN_CONF, "", FillCopy(t, Committing));
    }
  }

  lemma MainCopies(valid: Files -> bool, m: Machine, f: Faults)
    requires Inv(valid, m) && Benign(valid, m, Reloader(f))
    requires (m.pc.Truncate? || m.pc.FillCopy?) && m.pc.t == MainTarget()
    ensures Inv(valid, ReloaderStep(EnvOf(valid, f), m))
  {
    var env := EnvOf(valid, f);
    match (m.pc.copy, m.pc.Truncate?)
    case (ToBackup, true) => TruncateBackup(valid, env, m);
    case (ToBackup, false) => FillBackup(valid, env, m);
    case (Overwriting, true) => TruncateMain(valid, env, m);
    case (Overwriting, false) => FillMain(valid, env, m);
    case (RollingBack, true) => TruncateReturn(valid, env, m);
    case (RollingBack, false) => FillReturn(valid, env, m);
    case (Committing, _) => CommitMain(valid, env, m);
  }

  lemma MainProduces(valid: Files -> bool, env: Env, m: Machine, c: Content, copied: bool)
    requires m.pc == FillTest(MainTarget(), c, copied) && MainInv(valid, m)
    ensures Inv(valid, ReloaderStep(env, m))
  {
    var t := MainTarget();
    MainFiles();
    match env.write(t.Test(), c)
    case Written =>
      var pc := if copied then Beside(t, c) else Start(t);
      MainWrite(m, t.Test(), c, pc);
      StillDue(valid, m, m.(files := m.files[t.Test() := c], pc := pc));
    case Torn(left) =>
      MainWrite(m, t.Test(), left, Idle);
      StillDue(valid, m, m.(files := m.files[t.Test() := left], pc := Idle));
    case Refused =>
  }

  /** The copy of the candidate for the main file is the candidate itself. */
  lemma MainBeside(valid: Files -> bool, env: Env, m: Machine, c: Content)
    requires m.pc == Beside(MainTarget(), c) && MainInv(valid, m)
    requires env.write(MainTarget().Test(), c).Torn? ==>
               Safe(valid, m.running, m.Disk(), env.write(MainTarget().Test(), c).left)
    ensures Inv(valid, ReloaderStep(env, m))
  {
    var t := MainTarget();
    MainFiles();
    match env.write(t.Test(), c)
    case Written =>
      MainWrite(m, t.Test(), c, Start(t));
      StillDue(valid, m, m.(files := m.files[t.Test() := c], pc := Start(t)));
    case Torn(left) =>
      MainWrite(m, t.Test(), left, Start(t));
      StillDue(valid, m, m.(files := m.files[t.Test() := left], pc := Start(t)));
    case Refused =>
  }

  lemma MainStarts(valid: Files -> bool, env: Env, m: Machine)
    requires m.pc == Start(MainTarget()) && MainInv(valid, m)
    ensures Inv(valid, ReloaderStep(env, m))
  {
    MainFiles();
    MainOnDisk(m.files);
  }

  lemma MainCleans(valid: Files -> bool, env: Env, m: Machine)
    requires m.pc.BackupClean? || m.pc.CleanBackup? || m.pc.CleanTest?
    requires m.pc.t == MainTarget() && MainInv(valid, m)
    ensures Inv(valid, ReloaderStep(env, m))
  {
    var t := MainTarget();
    MainRemoval(env, m, t.Test());
    MainRemoval(env, m, t.Backup());
    MainFiles();
  }

  lemma MainChecks(valid: Files -> bool, env: Env, m: Machine)
    requires m.pc.Check? && m.pc.t == MainTarget() && MainInv(valid, m) && env.valid == valid
    ensures Inv(valid, ReloaderStep(env, m))
  {
    MainFiles();
  }

  lemma MainKeepsInv(valid: Files -> bool, m: Machine, f: Faults)
    requires Inv(valid, m) && !m.pc.Idle? && m.pc.t == MainTarget() && Benign(valid, m, Reloader(f))
    ensures Inv(valid, ReloaderStep(EnvOf(valid, f), m))
  {
    var env := EnvOf(valid, f);
    match m.pc
    case FillTest(_, c, copied) => MainProduces(valid, env, m, c, copied);
    case Beside(_, c) => MainBeside(valid, env, m, c);
    case Start(_) => MainStarts(valid, env, m);
    case Truncate(_, _) => MainCopies(valid, m, f);
    case FillCopy(_, _) => MainCopies(valid, m, f);
    case Check(_, _) => MainChecks(valid, env, m);
    case Signal(_) =>
    case _ => MainCleans(valid, env, m);
  }

  // ---------------------------------------------------------------- all steps

  lemma RequestKeepsInv(valid: Files -> bool, m: Machine, t: Target, c: Content, copied: bool)
    requires Inv(valid, m) && m.pc.Idle?
    requires if t == MainTarget() then Safe(valid, m.running, m.Disk(), c) else InConfD(t)
    ensures Inv(valid, RequestStep(m, t, c, copied, true))
  {
    var m1 := RequestStep(m, t, c, copied, true);
    if t == MainTarget() {
      MainWrite(m, t.Test(), "", m1.pc);
      MainFiles();
      StillDue(valid, m, m1);
    } else {
      WatchedFiles(t);
    }
  }

  /** Loading what is on disk keeps what a reload of the main file relies on. */
  lemma LoadKeepsMain(valid: Files -> bool, m: Machine, m1: Machine)
    requires !m.pc.Idle? && m.pc.t == MainTarget() && MainInv(valid, m)
    requires m1 == m.(hup := false, running := if valid(m.Disk()) then m.Disk() else m.running)
    ensures MainInv(valid, m1)
  {
    MainFiles();
    Rewritten(m.Disk(), "", "");
  }

  /** The watcher and signals touch neither files nor the reloader. */
  lemma WatchingKeepsInv(valid: Files -> bool, m: Machine, m1: Machine)
    requires Inv(valid, m) && (Due(valid, m) ==> Due(valid, m1))
    requires m1 == m.(pending := m1.pending, watcher := m1.watcher, hup := m1.hup)
    ensures Inv(valid, m1)
  {
  }

  lemma NextKeepsInv(valid: Files -> bool, m: Machine, a: Action)
    requires Inv(valid, m) && Enabled(m, a) && Benign(valid, m, a)
    ensures Inv(valid, Next(valid, m, a))
  {
    match a
    case Request(t, c, created) =>
      if created {
        RequestKeepsInv(valid, m, t, c, true);
      }
    case ClearFile(t, default, f) =>
      if t.Prod() in m.files {
        WatchedFiles(t);
      } else if !f.write.Refused? {
        RequestKeepsInv(valid, m, MainTarget(), default, false);
      }
    case Reloader(f) =>
      if m.pc.t == MainTarget() {
        MainKeepsInv(valid, m, f);
      } else {
        ConfKeepsInv(valid, m, f);
      }
    case Load =>
      if !m.pc.Idle? && m.pc.t == MainTarget() {
        LoadKeepsMain(valid, m, Next(valid, m, a));
      }
    case _ => WatchingKeepsInv(valid, m, Next(valid, m, a));
  }

  // ---------------------------------------------------------------- runs

  predicate AllBenign(valid: Files -> bool, m: Machine, actions: seq<Action>)
    requires CanRun(valid, m, actions)
    decreases |actions|
  {
    actions == [] || (Benign(valid, m, actions[0]) && AllBenign(valid, Next(valid, m, actions[0]), actions[1..]))
  }

  lemma {:induction false} RunKeepsInv(valid: Files -> bool, m: Machine, actions: seq<Action>)
    requires Inv(valid, m) && CanRun(valid, m, actions) && AllBenign(valid, m, actions)
    ensures Inv(valid, After(valid, m, actions))
    decreases |actions|
  {
    if actions != [] {
      NextKeepsInv(valid, m, actions[0]);
      RunKeepsInv(valid, Next(valid, m, actions[0]), actions[1..]);
    }
  }

  /** From a state in which nginx runs what is on disk, under every interleaving of deployments,
      deletions and requests for the main file: when nothing is in progress and nginx could load
      what is on disk, it runs exactly that. */
  lemma Converged(valid: Files -> bool, m: Machine, actions: seq<Action>)
    requires m.Quiescent() && m.running == m.Disk()
    requires CanRun(valid, m, actions) && AllBenign(valid, m, actions)
    ensures var end := After(valid, m, actions);
            end.Quiescent() && valid(end.Disk()) ==> end.running == end.Disk()
  {
    RunKeepsInv(valid, m, actions);
  }

  // ---------------------------------------------------------------- deletions

  function BesidePath(t: Target): Path { At(NGINX_DIR, t.base).Test() }

  /** The action does not ask for the file to be written. */
  predicate Spares(a: Action, p: Path) {
    match a
    case Request(u, _, _) => p !in u.Touched() && p != BesidePath(u)
    case ClearFile(_, _, _) => p !in MainTarget().Touched()
    case _ => true
  }

  predicate PcSpares(pc: Pc, p: Path) {
    pc.Idle? || (p !in pc.t.Touched() && p != BesidePath(pc.t))
  }

  lemma CopySpares(env: Env, m: Machine, t: Target, copy: Copy, p: Path)
    requires p !in m.files && p !in t.Touched() && p != BesidePath(t)
    ensures forall m1 :: m1 in {TruncateStep(env, m, t, copy), FillStep(env, m, t, copy)} ==>
              p !in m1.files && PcSpares(m1.pc, p)
  {
    assert t.Prod() in t.Touched() && t.Backup() in t.Touched();
  }

  lemma ReloaderSpares(env: Env, m: Machine, p: Path)
    requires !m.pc.Idle? && PcSpares(m.pc, p) && p !in m.files
    ensures p !in ReloaderStep(env, m).files && PcSpares(ReloaderStep(env, m).pc, p)
  {
    assert m.pc.t.Test() in m.pc.t.Touched();
    match m.pc
    case Truncate(t, copy) => CopySpares(env, m, t, copy, p);
    case FillCopy(t, copy) => CopySpares(env, m, t, copy, p);
    case _ =>
  }

  lemma NextSpares(valid: Files -> bool, m: Machine, a: Action, p: Path)
    requires Enabled(m, a) && Spares(a, p) && PcSpares(m.pc, p) && p !in m.files
    ensures p !in Next(valid, m, a).files && PcSpares(Next(valid, m, a).pc, p)
  {
    match a
    case Request(u, _, _) => assert u.Test() in u.Touched();
    case ClearFile(_, _, _) => assert MainTarget().Test() in MainTarget().Touched();
    case Reloader(f) => ReloaderSpares(EnvOf(valid, f), m, p);
    case _ =>
  }

  lemma {:induction false} RunSpares(valid: Files -> bool, m: Machine, actions: seq<Action>, p: Path)
    requires CanRun(valid, m, actions) && PcSpares(m.pc, p) && p !in m.files
    requires forall a :: a in actions ==> Spares(a, p)
    ensures p !in After(valid, m, actions).files
    decreases |actions|
  {
    if actions != [] {
      assert actions[0] in actions;
      NextSpares(valid, m, actions[0], p);
      RunSpares(valid, Next(valid, m, actions[0]), actions[1..], p);
    }
  }

  /** A deletion takes: once everything has come to rest after it, under every interleaving in which
      nobody asks for the file again, it is not on disk, and nginx, if it could load the disk, does
      not run it. */
  lemma DeletedAtRest(valid: Files -> bool, m: Machine, t: Target, default: Content, f: Faults, rest: seq<Action>)
    requires Inv(valid, m) && m.pc.Idle? && InConfD(t) && t.Prod() in m.files && f.removes
    requires var m1 := Next(valid, m, ClearFile(t, default, f)); CanRun(valid, m1, rest) && AllBenign(valid, m1, rest)
    requires forall a :: a in rest ==> Spares(a, t.Prod())
    ensures var end := After(valid, Next(valid, m, ClearFile(t, default, f)), rest);
            && t.Prod() !in end.files
            && (end.Quiescent() && valid(end.Disk()) ==> t.Prod() !in end.running)
  {
    var m1 := Next(valid, m, ClearFile(t, default, f));
    NextKeepsInv(valid, m, ClearFile(t, default, f));
    RunSpares(valid, m1, rest, t.Prod());
    RunKeepsInv(valid, m1, rest);
  }
}
