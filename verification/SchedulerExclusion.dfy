/** Mutual exclusion: who holds a mutex, who has a device, and why the scan for a
    free device never runs off the end. */
module SchedulerExclusion {
  import opened Tally
  import opened Scheduler

  // -------------------------------------------------------------------- mutexes

  datatype Mutex = JobsMutex | ActiveMutex | CompletedMutex

  function Owner(sh: Shared, m: Mutex): Holder {
    match m
    case JobsMutex => sh.jobsMutex
    case ActiveMutex => sh.activeMutex
    case CompletedMutex => sh.completedMutex
  }

  predicate WorkerHolds(pc: Worker, m: Mutex) {
    match m
    case JobsMutex => pc.TestEmpty? || pc.EmptyUnlock? || pc.PoppedUnlock?
    case ActiveMutex =>
      || pc.Inserting? || pc.Inserted? || pc.AwaitRecord? || pc.Erasing? || pc.Recording?
      || pc.UnlockCompleted? || pc.UnlockActive?
    case CompletedMutex => pc.Erasing? || pc.Recording? || pc.UnlockCompleted?
  }

  predicate IoHolds(pc: Io, m: Mutex) {
    match m
    case JobsMutex =>
      || pc.TestLimit? || pc.OverLimit? || pc.PushedUnlock? || pc.Cancelling? || pc.CancelUnlock? || pc.Clearing?
      || pc.ClearUnlock? || pc.ReportAwaitActive? || pc.ReportAwaitCompleted? || pc.ReportCopy? || pc.ReportUnlockJobs?
    case ActiveMutex =>
      || pc.ReportAwaitCompleted? || pc.ReportCopy? || pc.ReportUnlockJobs? || pc.ReportListActive?
      || pc.ReportListCompleted? || pc.ReportReply? || pc.ReportUnlockCompleted? || pc.ReportUnlockActive?
    case CompletedMutex =>
      || pc.ReportCopy? || pc.ReportUnlockJobs? || pc.ReportListActive?
      || pc.ReportListCompleted? || pc.ReportReply? || pc.ReportUnlockCompleted?
  }

  predicate Holds(s: State, th: Thread, m: Mutex) {
    match th
    case PoolThread(t) => t < |s.workers| && WorkerHolds(s.workers[t], m)
    case IoThread(k) => k < |s.io| && IoHolds(s.io[k], m)
  }

  /** A mutex is recorded as held by exactly the thread whose position says so;
      hence no two threads are inside the same critical section. */
  ghost predicate MutexesOwned(s: State) {
    forall th, m :: Holds(s, th, m) <==> Owner(s.sh, m) == HeldBy(th)
  }

  /** A pool thread changes the owner of a mutex only by taking a free one or
      giving up its own. */
  lemma WorkerMutex(me: Thread, pc: Worker, sh: Shared, log: Log, m: Mutex)
    requires WorkerEnabled(pc, sh) && WorkerInRange(pc, |sh.busy|)
    requires WorkerHolds(pc, m) <==> Owner(sh, m) == HeldBy(me)
    ensures
      var o := WorkerNext(me, pc, sh, log);
      && (WorkerHolds(o.pc, m) <==> Owner(o.sh, m) == HeldBy(me))
      && forall th :: th != me ==> (Owner(o.sh, m) == HeldBy(th) <==> Owner(sh, m) == HeldBy(th))
  {
  }

  lemma GenerateMutex(cfg: Config, me: Thread, pc: Io, sh: Shared, log: Log, m: Mutex)
    requires IoEnabled(pc, sh) && IsGenerate(pc)
    requires IoHolds(pc, m) <==> Owner(sh, m) == HeldBy(me)
    ensures
      var o := IoNext(cfg, me, pc, sh, log);
      && (IoHolds(o.pc, m) <==> Owner(o.sh, m) == HeldBy(me))
      && forall th :: th != me ==> (Owner(o.sh, m) == HeldBy(th) <==> Owner(sh, m) == HeldBy(th))
  {
  }

  lemma ControlMutex(cfg: Config, me: Thread, pc: Io, sh: Shared, log: Log, m: Mutex)
    requires IoEnabled(pc, sh) && IsControl(pc)
    requires IoHolds(pc, m) <==> Owner(sh, m) == HeldBy(me)
    ensures
      var o := IoNext(cfg, me, pc, sh, log);
      && (IoHolds(o.pc, m) <==> Owner(o.sh, m) == HeldBy(me))
      && forall th :: th != me ==> (Owner(o.sh, m) == HeldBy(th) <==> Owner(sh, m) == HeldBy(th))
  {
  }

  lemma ReportMutex(cfg: Config, me: Thread, pc: Io, sh: Shared, log: Log, m: Mutex)
    requires IoEnabled(pc, sh) && !IsGenerate(pc) && !IsControl(pc)
    requires IoHolds(pc, m) <==> Owner(sh, m) == HeldBy(me)
    ensures
      var o := IoNext(cfg, me, pc, sh, log);
      && (IoHolds(o.pc, m) <==> Owner(o.sh, m) == HeldBy(me))
      && forall th :: th != me ==> (Owner(o.sh, m) == HeldBy(th) <==> Owner(sh, m) == HeldBy(th))
  {
  }

  lemma IoMutex(cfg: Config, me: Thread, pc: Io, sh: Shared, log: Log, m: Mutex)
    requires IoEnabled(pc, sh)
    requires IoHolds(pc, m) <==> Owner(sh, m) == HeldBy(me)
    ensures
      var o := IoNext(cfg, me, pc, sh, log);
      && (IoHolds(o.pc, m) <==> Owner(o.sh, m) == HeldBy(me))
      && forall th :: th != me ==> (Owner(o.sh, m) == HeldBy(th) <==> Owner(sh, m) == HeldBy(th))
  {
    if IsGenerate(pc) {
      GenerateMutex(cfg, me, pc, sh, log, m);
    } else if IsControl(pc) {
      ControlMutex(cfg, me, pc, sh, log, m);
    } else {
      ReportMutex(cfg, me, pc, sh, log, m);
    }
  }

  lemma MutexesOwnedStep(s: State, a: Action)
    requires WellFormed(s) && Enabled(s, a) && MutexesOwned(s)
    ensures MutexesOwned(Apply(s, a))
  {
    var r := Apply(s, a);
    forall th, m
      ensures Holds(r, th, m) <==> Owner(r.sh, m) == HeldBy(th)
    {
      assert Holds(s, th, m) <==> Owner(s.sh, m) == HeldBy(th);
      match a
      case Begin(k, _) =>
        assert Holds(s, IoThread(k), m) <==> Owner(s.sh, m) == HeldBy(IoThread(k));
      case IoRun(k) =>
        assert Holds(s, IoThread(k), m) <==> Owner(s.sh, m) == HeldBy(IoThread(k));
        IoMutex(s.cfg, IoThread(k), s.io[k], s.sh, s.log, m);
      case Take(t, _) =>
        assert Holds(s, PoolThread(t), m) <==> Owner(s.sh, m) == HeldBy(PoolThread(t));
      case WorkerRun(t) =>
        assert Holds(s, PoolThread(t), m) <==> Owner(s.sh, m) == HeldBy(PoolThread(t));
        WorkerMutex(PoolThread(t), s.workers[t], s.sh, s.log, m);
    }
  }

  // -------------------------------------------------------------------- devices

  /** The device a thread is about to try, or has claimed. */
  function Position(pc: Worker): int {
    match pc
    case Scanning(_, _, pos) => pos
    case AwaitInsert(_, _, dev) => dev
    case Inserting(_, _, dev) => dev
    case Inserted(_, _, dev) => dev
    case Working(_, _, dev) => dev
    case Releasing(_, dev) => dev
    case _ => -1
  }

  function One(b: bool): nat { if b then 1 else 0 }

  function AtOrPast(i: nat): Worker -> bool {
    (pc: Worker) => Position(pc) >= i
  }

  function Claims(d: nat): Worker -> bool {
    (pc: Worker) => !pc.Scanning? && Position(pc) == d
  }

  function Tries(d: nat): Worker -> bool {
    (pc: Worker) => pc.Scanning? && pc.pos == d
  }

  /** A busy flag is set exactly while one thread has the device. */
  ghost predicate DevicesClaimed(s: State) {
    forall d :: 0 <= d < |s.sh.busy| ==> Count(s.workers, Claims(d)) == One(s.sh.busy[d])
  }

  /** At most N - i threads scan at, or have, a device at position i or beyond. */
  ghost predicate ScanRoom(s: State) {
    forall i :: 0 <= i <= |s.sh.busy| ==> Count(s.workers, AtOrPast(i)) <= |s.sh.busy| - i
  }

  /** A pool thread sets a flag by claiming the device and clears it by giving it back. */
  lemma WorkerDevice(me: Thread, pc: Worker, sh: Shared, log: Log, d: nat)
    requires WorkerEnabled(pc, sh) && WorkerInRange(pc, |sh.busy|) && d < |sh.busy|
    requires Claims(d)(pc) ==> sh.busy[d]
    ensures
      var o := WorkerNext(me, pc, sh, log);
      One(Claims(d)(o.pc)) + One(sh.busy[d]) == One(Claims(d)(pc)) + One(o.sh.busy[d])
  {
  }

  lemma DevicesClaimedStep(s: State, a: Action)
    requires WellFormed(s) && Enabled(s, a) && DevicesClaimed(s)
    ensures DevicesClaimed(Apply(s, a))
  {
    var r := Apply(s, a);
    forall d | 0 <= d < |s.sh.busy|
      ensures Count(r.workers, Claims(d)) == One(r.sh.busy[d])
    {
      match a
      case Begin(_, _) =>
      case IoRun(k) =>
      case Take(t, _) =>
        CountUpdate(s.workers, t, r.workers[t], Claims(d));
      case WorkerRun(t) =>
        CountUpdate(s.workers, t, r.workers[t], Claims(d));
        WorkerDevice(PoolThread(t), s.workers[t], s.sh, s.log, d);
    }
  }

  /** Failing at position p means another thread has device p: that thread and the
      scanner are both at p, so there is room for the scanner one place further. */
  lemma FailedTryLeavesRoom(s: State, t: nat)
    requires WellFormed(s) && DevicesClaimed(s) && ScanRoom(s)
    requires t < |s.workers| && FailsTry(s.workers[t], s.sh)
    ensures Count(s.workers, AtOrPast(s.workers[t].pos + 1)) + 1 <= |s.sh.busy| - (s.workers[t].pos + 1)
  {
    var p := s.workers[t].pos;
    var there := (pc: Worker) => Position(pc) == p;
    CountDisjoint(s.workers, there, Claims(p), Tries(p));
    CountDisjoint(s.workers, AtOrPast(p), AtOrPast(p + 1), there);
    CountUpdate(s.workers, t, s.workers[t], Tries(p));
  }

  predicate FailsTry(pc: Worker, sh: Shared) {
    pc.Scanning? && pc.pos < |sh.busy| && sh.busy[pc.pos]
  }

  lemma WorkerPosition(me: Thread, pc: Worker, sh: Shared, log: Log)
    requires WorkerEnabled(pc, sh) && WorkerInRange(pc, |sh.busy|)
    ensures
      var p := Position(WorkerNext(me, pc, sh, log).pc);
      p <= Position(pc) || p == 0 || (FailsTry(pc, sh) && p == pc.pos + 1)
  {
  }

  lemma ScanRoomStep(s: State, a: Action)
    requires WellFormed(s) && Enabled(s, a) && DevicesClaimed(s) && ScanRoom(s)
    ensures ScanRoom(Apply(s, a))
  {
    var r := Apply(s, a);
    forall i | 0 <= i <= |s.sh.busy|
      ensures Count(r.workers, AtOrPast(i)) <= |r.sh.busy| - i
    {
      match a
      case Begin(_, _) =>
      case IoRun(_) =>
      case Take(t, _) =>
        CountUpdate(s.workers, t, r.workers[t], AtOrPast(i));
      case WorkerRun(t) =>
        CountBound(r.workers, AtOrPast(i));
        CountUpdate(s.workers, t, r.workers[t], AtOrPast(i));
        WorkerPosition(PoolThread(t), s.workers[t], s.sh, s.log);
        if FailsTry(s.workers[t], s.sh) {
          FailedTryLeavesRoom(s, t);
        }
    }
  }

  /** So a scan always finds a device before it runs off the end. */
  lemma ScanFindsDevice(s: State, t: nat)
    requires WellFormed(s) && ScanRoom(s) && t < |s.workers|
    ensures Position(s.workers[t]) < |s.sh.busy|
  {
    var n := |s.sh.busy|;
    CountUpdate(s.workers, t, s.workers[t], AtOrPast(n));
    assert Count(s.workers, AtOrPast(n)) <= 0;
    assert !AtOrPast(n)(s.workers[t]);
  }
}
