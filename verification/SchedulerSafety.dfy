/** Safety of the scheduler over every run. */
module SchedulerSafety {
  import opened Jobs
  import opened Tally
  import opened Scheduler
  import opened SchedulerExclusion
  import opened SchedulerLedger
  import opened SchedulerContainers

  ghost predicate NoDeviceFailures(s: State) {
    forall r :: r in s.replies ==> !r.NoAvailableDevices?
  }

  /** Without a device nothing is ever dispensed. */
  ghost predicate PoolServes(s: State) {
    s.cfg.devices == 0 ==> s.sh.nextId == 1
  }

  ghost predicate Inv(s: State) {
    && WellFormed(s)
    && MutexesOwned(s)
    && DevicesClaimed(s)
    && ScanRoom(s)
    && NoDeviceFailures(s)
    && IdsDispensed(s)
    && JobsConserved(s)
    && RequestsConserved(s)
    && TasksBalanced(s)
    && QueueOrdered(s)
    && ActiveExact(s)
    && RingRecent(s)
    && PoolServes(s)
  }

  lemma NoDeviceFailuresStep(s: State, a: Action)
    requires WellFormed(s) && Enabled(s, a) && ScanRoom(s) && NoDeviceFailures(s)
    ensures NoDeviceFailures(Apply(s, a))
  {
    match a
    case Begin(_, _) =>
    case IoRun(k) =>
    case Take(_, _) =>
    case WorkerRun(t) => ScanFindsDevice(s, t);
  }

  lemma PoolServesStep(s: State, a: Action)
    requires WellFormed(s) && Enabled(s, a) && PoolServes(s)
    ensures PoolServes(Apply(s, a))
  {
    match a
    case Begin(_, _) =>
    case IoRun(k) => IoDispensesNothing(s.cfg, IoThread(k), s.io[k], s.sh, s.log);
    case Take(_, _) =>
    case WorkerRun(t) =>
  }

  lemma InitCounts(s: State)
    requires Init(s)
    ensures forall d: nat :: Count(s.workers, Claims(d)) == 0
    ensures forall i: nat :: Count(s.workers, AtOrPast(i)) == 0
    ensures Count(s.workers, BeforePop) == 0 && Count(s.io, BeforePost) == 0
    ensures forall x :: Count(s.workers, HasInHand(x)) == 0 && Count(s.io, HasUnpushed(x)) == 0
    ensures forall x :: Count(s.workers, HasPublished(x)) == 0
    ensures forall q: nat :: Count(s.workers, IsServing(q)) == 0 && Count(s.io, IsOwing(q)) == 0
  {
    forall d: nat { CountNone(s.workers, Claims(d)); }
    forall i: nat { CountNone(s.workers, AtOrPast(i)); }
    CountNone(s.workers, BeforePop);
    CountNone(s.io, BeforePost);
    forall x
      ensures Count(s.workers, HasInHand(x)) == 0 && Count(s.io, HasUnpushed(x)) == 0
      ensures Count(s.workers, HasPublished(x)) == 0
    {
      CountNone(s.workers, HasInHand(x));
      CountNone(s.io, HasUnpushed(x));
      CountNone(s.workers, HasPublished(x));
    }
    forall q: nat
      ensures Count(s.workers, IsServing(q)) == 0 && Count(s.io, IsOwing(q)) == 0
    {
      CountNone(s.workers, IsServing(q));
      CountNone(s.io, IsOwing(q));
    }
  }

  lemma InitInv(s: State)
    requires Init(s)
    ensures Inv(s)
  {
    InitCounts(s);
  }

  lemma StepInv(s: State, a: Action)
    requires Inv(s) && Enabled(s, a)
    ensures Inv(Apply(s, a))
  {
    MutexesOwnedStep(s, a);
    DevicesClaimedStep(s, a);
    ScanRoomStep(s, a);
    NoDeviceFailuresStep(s, a);
    IdsDispensedStep(s, a);
    JobsConservedStep(s, a);
    RequestsConservedStep(s, a);
    TasksBalancedStep(s, a);
    QueueOrderedStep(s, a);
    ActiveExactStep(s, a);
    RingRecentStep(s, a);
    PoolServesStep(s, a);
  }

  lemma {:induction false} StepsInv(states: seq<State>, actions: seq<Action>, n: nat)
    requires Steps(states, actions) && Inv(states[0]) && n < |states|
    ensures Inv(states[n])
  {
    if n > 0 {
      StepsInv(states, actions, n - 1);
      StepInv(states[n - 1], actions[n - 1]);
    }
  }

  lemma RunInv(states: seq<State>, actions: seq<Action>, n: nat)
    requires Run(states, actions) && n < |states|
    ensures Inv(states[n])
  {
    InitInv(states[0]);
    StepsInv(states, actions, n);
  }

  lemma RunStep(states: seq<State>, actions: seq<Action>, n: nat)
    requires Run(states, actions) && n < |actions|
    ensures Inv(states[n]) && Enabled(states[n], actions[n]) && states[n + 1] == Apply(states[n], actions[n])
  {
    RunInv(states, actions, n);
  }

  // -------------------------------------------------------------------- devices

  /** In no interleaving does a scan run off the end of the device vector, and so
      no client is ever told that no device is available. */
  lemma DeviceAlwaysFound(states: seq<State>, actions: seq<Action>, n: nat)
    requires Run(states, actions) && n < |states|
    ensures forall t :: 0 <= t < |states[n].workers| && states[n].workers[t].Scanning? ==>
              states[n].workers[t].pos < |states[n].sh.busy|
    ensures forall r :: r in states[n].replies ==> !r.NoAvailableDevices?
    ensures forall i :: 0 <= i <= |states[n].sh.busy| ==>
              Count(states[n].workers, AtOrPast(i)) <= |states[n].sh.busy| - i
  {
    var s := states[n];
    RunInv(states, actions, n);
    forall t | 0 <= t < |s.workers| && s.workers[t].Scanning?
      ensures s.workers[t].pos < |s.sh.busy|
    {
      ScanFindsDevice(s, t);
    }
  }

  lemma ClaimIsExclusive(s: State, d: nat, t: nat, u: nat)
    requires DevicesClaimed(s) && d < |s.sh.busy| && t < |s.workers| && u < |s.workers|
    requires Claims(d)(s.workers[t]) && Claims(d)(s.workers[u])
    ensures t == u
  {
    CountUpdate(s.workers, t, Idle, Claims(d));
    if t != u {
      CountUpdate(s.workers[t := Idle], u, Idle, Claims(d));
    }
  }

  /** Critical sections and devices are exclusive in every reachable state, and a
      busy flag is set exactly while some thread has the device. */
  lemma Exclusion(states: seq<State>, actions: seq<Action>, n: nat)
    requires Run(states, actions) && n < |states|
    ensures forall m, a, b :: Holds(states[n], a, m) && Holds(states[n], b, m) ==> a == b
    ensures forall d, t, u
              | 0 <= d < |states[n].sh.busy| && 0 <= t < |states[n].workers| && 0 <= u < |states[n].workers| ::
              Claims(d)(states[n].workers[t]) && Claims(d)(states[n].workers[u]) ==> t == u
    ensures forall d :: 0 <= d < |states[n].sh.busy| ==>
              (states[n].sh.busy[d] <==> exists t :: 0 <= t < |states[n].workers| && Claims(d)(states[n].workers[t]))
  {
    var s := states[n];
    RunInv(states, actions, n);
    forall d, t, u | 0 <= d < |s.sh.busy| && 0 <= t < |s.workers| && 0 <= u < |s.workers|
                     && Claims(d)(s.workers[t]) && Claims(d)(s.workers[u])
      ensures t == u
    {
      ClaimIsExclusive(s, d, t, u);
    }
    forall d | 0 <= d < |s.sh.busy|
      ensures s.sh.busy[d] <==> exists t :: 0 <= t < |s.workers| && Claims(d)(s.workers[t])
    {
      if s.sh.busy[d] {
        var t := CountWitness(s.workers, Claims(d));
      } else if t :| 0 <= t < |s.workers| && Claims(d)(s.workers[t]) {
        CountUpdate(s.workers, t, Idle, Claims(d));
      }
    }
  }

  // --------------------------------------------------------------- conservation

  /** Every job ever constructed is in exactly one place: with its request thread,
      refused, queued, in hand on one pool thread, finished, cancelled or cleared. */
  lemma Conservation(states: seq<State>, actions: seq<Action>, n: nat, id: nat)
    requires Run(states, actions) && n < |states| && 1 <= id < states[n].sh.nextId
    ensures id <= |states[n].log.dispensed| && states[n].log.dispensed[id - 1].id == id
    ensures Places(states[n], states[n].log.dispensed[id - 1]) == 1
    ensures forall y: Job :: y.id == id && Places(states[n], y) > 0 ==> y == states[n].log.dispensed[id - 1]
    ensures |states[n].sh.jobs| <= states[n].cfg.requestLimit
  {
    var s := states[n];
    RunInv(states, actions, n);
    var x := s.log.dispensed[id - 1];
    assert x in multiset(s.log.dispensed);
    assert Places(s, x) == multiset(s.log.dispensed)[x];
    IdDeterminesJob(s, x, x);
    forall y: Job | y.id == id && Places(s, y) > 0
      ensures y == x
    {
      IdDeterminesJob(s, x, y);
    }
  }

  /** A popped job is in a pool thread's hand or finished. */
  predicate AlreadyPopped(s: State, x: Job) {
    Count(s.workers, HasInHand(x)) + multiset(s.log.finished)[x] > 0
  }

  lemma WorkerKeepsPopped(me: Thread, pc: Worker, sh: Shared, log: Log, x: Job)
    requires WorkerEnabled(pc, sh) && WorkerInRange(pc, |sh.busy|) && Position(pc) < |sh.busy|
    ensures
      var o := WorkerNext(me, pc, sh, log);
      multiset(o.log.finished)[x] + One(InHand(o.pc, x)) >= multiset(log.finished)[x] + One(InHand(pc, x))
  {
  }

  lemma PoppedStep(s: State, a: Action, x: Job)
    requires Inv(s) && Enabled(s, a) && AlreadyPopped(s, x)
    ensures AlreadyPopped(Apply(s, a), x)
  {
    match a
    case Begin(_, _) =>
    case IoRun(k) => IoLeavesActive(s.cfg, IoThread(k), s.io[k], s.sh, s.log);
    case Take(t, i) => CountUpdate(s.workers, t, AwaitJobs(s.sh.tasks[i]), HasInHand(x));
    case WorkerRun(t) => WorkerPopped(s, t, x);
  }

  lemma WorkerPopped(s: State, t: nat, x: Job)
    requires Inv(s) && Enabled(s, WorkerRun(t)) && AlreadyPopped(s, x)
    ensures AlreadyPopped(Apply(s, WorkerRun(t)), x)
  {
    ScanFindsDevice(s, t);
    WorkerKeepsPopped(PoolThread(t), s.workers[t], s.sh, s.log, x);
    CountUpdate(s.workers, t, Apply(s, WorkerRun(t)).workers[t], HasInHand(x));
  }

  lemma RunPopped(states: seq<State>, actions: seq<Action>, x: Job, n: nat)
    requires Run(states, actions) && n < |actions| && AlreadyPopped(states[n], x)
    ensures AlreadyPopped(states[n + 1], x)
  {
    RunStep(states, actions, n);
    PoppedStep(states[n], actions[n], x);
  }

  lemma {:induction false} PoppedForGood(states: seq<State>, actions: seq<Action>, x: Job, n: nat, m: nat)
    requires Run(states, actions) && n <= m < |states| && AlreadyPopped(states[n], x)
    ensures AlreadyPopped(states[m], x)
    decreases m
  {
    if n < m {
      PoppedForGood(states, actions, x, n, m - 1);
      RunPopped(states, actions, x, m - 1);
    }
  }

  /** Cancelling and clearing never reach a job once it has been popped. */
  lemma PoppedIsNeverRemoved(states: seq<State>, actions: seq<Action>, x: Job, n: nat, m: nat)
    requires Run(states, actions) && n <= m < |states| && AlreadyPopped(states[n], x)
    ensures x !in states[m].log.cancelled && x !in states[m].log.cleared && x !in states[m].sh.jobs
  {
    var s := states[m];
    PoppedForGood(states, actions, x, n, m);
    RunInv(states, actions, m);
    IdDeterminesJob(s, x, x);
    assert x in s.log.cancelled ==> x in multiset(s.log.cancelled);
    assert x in s.log.cleared ==> x in multiset(s.log.cleared);
    assert x in s.sh.jobs ==> x in multiset(s.sh.jobs);
  }

  /** Tasks never fall short of queued jobs, "No jobs available" is said at most
      once per removed job, and nobody is answered twice. */
  lemma Accounting(states: seq<State>, actions: seq<Action>, n: nat)
    requires Run(states, actions) && n < |states|
    ensures ToPop(states[n]) - |states[n].sh.jobs| == Removals(states[n].log) - Count(states[n].replies, SaysNoJobs)
    ensures ToPop(states[n]) >= |states[n].sh.jobs|
    ensures Count(states[n].replies, SaysNoJobs) <= Removals(states[n].log)
    ensures forall q: nat :: Count(states[n].replies, IsAnswer(q)) <= 1
  {
    RunInv(states, actions, n);
    forall q: nat
      ensures Count(states[n].replies, IsAnswer(q)) <= 1
    {
      assert RequestPlaces(states[n], q) <= 1;
    }
  }

  /** Replies and requests in progress, of whatever kind, are the requests so far. */
  lemma {:induction false} RequestsAnswered(states: seq<State>, actions: seq<Action>, n: nat)
    requires Run(states, actions) && n < |states|
    ensures |states[n].replies| + Unanswered(states[n]) == Count(actions[..n], IsBegin)
  {
    if n == 0 {
      CountNone(states[0].io, OwesReply);
      CountNone(states[0].workers, OwesWork);
    } else {
      RequestsAnswered(states, actions, n - 1);
      AnswersStep(states[n - 1], actions[n - 1]);
      assert actions[..n] == actions[..n - 1] + [actions[n - 1]];
      CountAppend(actions[..n - 1], actions[n - 1], IsBegin);
    }
  }

  /** No more jobs are ever active than there are devices. */
  lemma ActiveWithinDevices(states: seq<State>, actions: seq<Action>, n: nat)
    requires Run(states, actions) && n < |states|
    ensures |states[n].sh.active| <= states[n].cfg.devices
  {
    RunInv(states, actions, n);
    ActiveBound(states[n]);
  }

  lemma InitWorkSent(s: State)
    requires Init(s)
    ensures WorkSent(s)
  {
    forall x: Job
      ensures Count(s.workers, IsAfterWork(x)) == 0
    {
      CountNone(s.workers, IsAfterWork(x));
    }
  }

  lemma {:induction false} RunWorkSent(states: seq<State>, actions: seq<Action>, n: nat)
    requires Run(states, actions) && n < |states|
    ensures WorkSent(states[n])
  {
    if n == 0 {
      InitWorkSent(states[0]);
    } else {
      RunWorkSent(states, actions, n - 1);
      WorkSentStep(states[n - 1], actions[n - 1]);
    }
  }

  /** Work that was sent belongs to a job that is still in hand or finished. */
  lemma SentIsPlaced(s: State, x: Job)
    requires Inv(s) && WorkSent(s)
    ensures Count(s.replies, IsSent(x)) <= Places(s, x) <= 1
  {
    CountMonotone(s.workers, IsAfterWork(x), HasInHand(x));
    if Places(s, x) > 0 {
      IdDeterminesJob(s, x, x);
    }
  }

  /** No job's work is ever sent twice, whichever clients it goes to. */
  lemma NoWorkSentTwice(states: seq<State>, actions: seq<Action>, n: nat, i: nat, j: nat)
    requires Run(states, actions) && n < |states| && i < j < |states[n].replies|
    requires states[n].replies[i].WorkDone? && states[n].replies[j].WorkDone?
    ensures states[n].replies[i].job.id != states[n].replies[j].job.id
    ensures states[n].replies[i].owner != states[n].replies[j].owner
  {
    RunInv(states, actions, n);
    RunWorkSent(states, actions, n);
    SentTwice(states[n], i, j);
  }

  lemma SentTwice(s: State, i: nat, j: nat)
    requires Inv(s) && WorkSent(s) && i < j < |s.replies| && s.replies[i].WorkDone? && s.replies[j].WorkDone?
    ensures s.replies[i].job.id != s.replies[j].job.id && s.replies[i].owner != s.replies[j].owner
  {
    var x, y, q := s.replies[i].job, s.replies[j].job, s.replies[i].owner;
    CountUpdate(s.replies, i, s.replies[i], IsSent(x));
    CountUpdate(s.replies, j, s.replies[j], IsSent(y));
    SentIsPlaced(s, x);
    SentIsPlaced(s, y);
    if x.id == y.id {
      IdDeterminesJob(s, x, y);
      CountTwice(s.replies, i, j, IsSent(x));
    }
    assert RequestPlaces(s, q) <= 1;
    if q == s.replies[j].owner {
      CountTwice(s.replies, i, j, IsAnswer(q));
    }
  }

  // -------------------------------------------------------------- queue reports

  /** The thread is between copying the queue and handing out the report. */
  predicate Reporting(pc: Io) {
    pc.ReportUnlockJobs? || pc.ReportListActive? || pc.ReportListCompleted? || pc.ReportReply?
  }

  /** What the thread has listed so far is what the containers held in `cut`. */
  predicate ListedSoFar(pc: Io, cut: Shared)
    requires Reporting(pc)
  {
    match pc
    case ReportUnlockJobs(queued) => queued == cut.jobs
    case ReportListActive(queued) => queued == cut.jobs
    case ReportListCompleted(queued, active) => queued == cut.jobs && Backwards(active, cut.active)
    case ReportReply(lists) =>
      lists.queued == cut.jobs && Backwards(lists.active, cut.active) && lists.completed == cut.completed
  }

  predicate Backwards(a: seq<Job>, b: seq<Job>) {
    |a| == |b| && forall j :: 0 <= j < |a| ==> a[j] == b[|b| - 1 - j]
  }

  lemma {:induction false} ReverseAt(s: seq<Job>)
    ensures Backwards(Reverse(s), s)
  {
    if s != [] {
      ReverseAt(s[1..]);
    }
  }

  /** The report holds the locks of the active and the completed jobs, so nobody
      changes them under it. */
  lemma ReportFreezes(s: State, a: Action, k: nat)
    requires Inv(s) && Enabled(s, a) && k < |s.io| && (Reporting(s.io[k]) || s.io[k].ReportCopy?)
    ensures Apply(s, a).sh.active == s.sh.active && Apply(s, a).sh.completed == s.sh.completed
  {
    assert Holds(s, IoThread(k), ActiveMutex) && Holds(s, IoThread(k), CompletedMutex);
    match a
    case Begin(_, _) =>
    case IoRun(j) => IoLeavesActive(s.cfg, IoThread(j), s.io[j], s.sh, s.log);
    case Take(_, _) =>
    case WorkerRun(t) =>
      var other := PoolThread(t);
      assert Holds(s, other, ActiveMutex) ==> Owner(s.sh, ActiveMutex) == HeldBy(other);
      assert Holds(s, other, CompletedMutex) ==> Owner(s.sh, CompletedMutex) == HeldBy(other);
  }

  lemma IoReports(cfg: Config, me: Thread, pc: Io, sh: Shared, log: Log)
    requires IoEnabled(pc, sh) && Reporting(IoNext(cfg, me, pc, sh, log).pc)
    ensures pc.ReportCopy? || Reporting(pc)
    ensures pc.ReportCopy? ==> ListedSoFar(IoNext(cfg, me, pc, sh, log).pc, sh)
    ensures forall cut: Shared ::
              Reporting(pc) && ListedSoFar(pc, cut) && sh.active == cut.active && sh.completed == cut.completed
              ==> ListedSoFar(IoNext(cfg, me, pc, sh, log).pc, cut)
  {
    ReverseAt(sh.active);
  }

  lemma ReportCameFrom(s: State, a: Action, k: nat)
    requires Inv(s) && Enabled(s, a) && k < |s.io| && Reporting(Apply(s, a).io[k])
    ensures s.io[k].ReportCopy? || Reporting(s.io[k])
    ensures a != IoRun(k) ==> Apply(s, a).io[k] == s.io[k]
  {
    if a == IoRun(k) {
      IoReports(s.cfg, IoThread(k), s.io[k], s.sh, s.log);
    }
  }

  lemma ReportStep(s: State, a: Action, k: nat, cut: Shared)
    requires Inv(s) && Enabled(s, a) && k < |s.io| && Reporting(Apply(s, a).io[k])
    requires s.io[k].ReportCopy? ==> cut == s.sh
    requires Reporting(s.io[k]) ==>
               ListedSoFar(s.io[k], cut) && s.sh.active == cut.active && s.sh.completed == cut.completed
    ensures ListedSoFar(Apply(s, a).io[k], cut)
    ensures Apply(s, a).sh.active == cut.active && Apply(s, a).sh.completed == cut.completed
  {
    ReportCameFrom(s, a, k);
    ReportFreezes(s, a, k);
    if a == IoRun(k) {
      IoReports(s.cfg, IoThread(k), s.io[k], s.sh, s.log);
    }
  }

  lemma {:induction false} ReportCut(states: seq<State>, actions: seq<Action>, n: nat, k: nat) returns (i: nat)
    requires Run(states, actions) && n < |states| && k < |states[n].io| && Reporting(states[n].io[k])
    ensures i < n && k < |states[i].io| && states[i].io[k].ReportCopy?
    ensures forall j :: i < j <= n ==> k < |states[j].io| && Reporting(states[j].io[k])
    ensures ListedSoFar(states[n].io[k], states[i].sh)
    ensures states[n].sh.active == states[i].sh.active && states[n].sh.completed == states[i].sh.completed
  {
    assert n > 0;
    RunInv(states, actions, n - 1);
    ReportCameFrom(states[n - 1], actions[n - 1], k);
    i := n - 1;
    if !states[n - 1].io[k].ReportCopy? {
      i := ReportCut(states, actions, n - 1, k);
    }
    ReportStep(states[n - 1], actions[n - 1], k, states[i].sh);
  }

  /** The ids of a sequence are pairwise different. */
  ghost predicate NoRepeats(s: seq<Job>) {
    forall i, j :: 0 <= i < j < |s| ==> s[i].id != s[j].id
  }

  lemma {:induction false} ReverseContents(s: seq<Job>)
    ensures multiset(Reverse(s)) == multiset(s)
  {
    if s != [] {
      ReverseContents(s[1..]);
      assert s == [s[0]] + s[1..];
    }
  }

  lemma RecentContents(finished: seq<Job>, x: Job)
    ensures multiset(Recent(finished))[x] <= multiset(finished)[x]
  {
    if |finished| > COMPLETED_CAPACITY {
      assert finished == finished[..|finished| - COMPLETED_CAPACITY] + Recent(finished);
    }
  }

  /** All jobs a report would list. */
  function Listed(s: State): seq<Job> {
    Snapshot(s.sh).queued + Snapshot(s.sh).active + Snapshot(s.sh).completed
  }

  lemma ListedInPlaces(s: State, x: Job)
    requires Inv(s)
    ensures multiset(Listed(s))[x] <= Places(s, x)
  {
    ReverseContents(s.sh.active);
    RecentContents(s.log.finished, x);
    CountMonotone(s.workers, HasPublished(x), HasInHand(x));
    assert multiset(Listed(s))[x] == multiset(s.sh.jobs)[x] + multiset(s.sh.active)[x] + multiset(s.sh.completed)[x];
  }

  /** In every reachable state no job id is in two containers, or twice in one. */
  lemma ListsHaveNoRepeats(s: State)
    requires Inv(s)
    ensures NoRepeats(Listed(s))
  {
    var all := Listed(s);
    forall i, j | 0 <= i < j < |all|
      ensures all[i].id != all[j].id
    {
      assert all[i] in multiset(all) && all[j] in multiset(all);
      ListedInPlaces(s, all[i]);
      ListedInPlaces(s, all[j]);
      if all[i].id == all[j].id {
        IdDeterminesJob(s, all[i], all[j]);
        Twice(all, i, j);
      }
    }
  }

  lemma Twice(s: seq<Job>, i: nat, j: nat)
    requires i < j < |s| && s[i] == s[j]
    ensures multiset(s)[s[i]] >= 2
  {
    assert s == s[..j] + [s[j]] + s[j + 1..];
    assert s[i] in s[..j];
  }

  /** While a thread holds the lock of the active jobs for a report, a job in hand is
      active or not yet inserted. */
  lemma InHandIsListed(s: State, k: nat, t: nat, x: Job)
    requires Inv(s) && k < |s.io| && s.io[k].ReportCopy?
    requires t < |s.workers| && InHand(s.workers[t], x)
    ensures x in Snapshot(s.sh).active || Unlisted(s.workers[t])
  {
    assert Holds(s, IoThread(k), ActiveMutex) && Owner(s.sh, ActiveMutex) == HeldBy(IoThread(k));
    var other := PoolThread(t);
    assert Holds(s, other, ActiveMutex) ==> Owner(s.sh, ActiveMutex) == HeldBy(other);
    if !Unlisted(s.workers[t]) {
      CountUpdate(s.workers, t, Idle, HasPublished(x));
      ReverseContents(s.sh.active);
      assert x in multiset(Reverse(s.sh.active));
    }
  }

  lemma CopyIsOwnStep(s: State, a: Action, k: nat)
    requires Inv(s) && Enabled(s, a) && k < |s.io| && s.io[k].ReportCopy? && Reporting(Apply(s, a).io[k])
    ensures a == IoRun(k)
  {
    ReportCameFrom(s, a, k);
  }

  /** Every queue report is a consistent cut: its three lists are the queued jobs best
      first, the active jobs last first and the completed jobs at one instant `i`, the
      copy made for this very report; until the reply the thread does nothing but list,
      and the active and completed jobs stay as they were. No id
      is listed twice; and a job being worked on is listed as active unless it is not
      yet inserted, so a finishing job is never caught between the active and the
      completed jobs. */
  lemma ReportIsConsistentCut(states: seq<State>, actions: seq<Action>, n: nat, k: nat) 
    returns (i: nat, lists: Lists)
    requires Run(states, actions) && n < |actions| && actions[n] == IoRun(k) && states[n].io[k].ReportReply?
    ensures i < n && k < |states[i].io| && states[i].io[k].ReportCopy? && actions[i] == IoRun(k)
    ensures forall j :: i < j <= n ==> k < |states[j].io| && Reporting(states[j].io[k])
    ensures states[n].sh.active == states[i].sh.active && states[n].sh.completed == states[i].sh.completed
    ensures |states[i].workers| == |states[i].sh.busy|
    ensures states[n + 1].replies == states[n].replies + [QueueReport(lists)]
    ensures lists.queued == states[i].sh.jobs && lists.completed == states[i].sh.completed
    ensures Backwards(lists.active, states[i].sh.active)
    ensures NoRepeats(lists.queued + lists.active + lists.completed)
    ensures lists.completed == Recent(states[i].log.finished)
    ensures forall t, x | 0 <= t < |states[i].workers| && InHand(states[i].workers[t], x) ::
              x in lists.active || Unlisted(states[i].workers[t])
  {
    i := ReportCut(states, actions, n, k);
    var s := states[i];
    lists := states[n].io[k].lists;
    ReverseAt(s.sh.active);
    assert lists == Snapshot(s.sh);
    RunStep(states, actions, i);
    CopyIsOwnStep(s, actions[i], k);
    ListsHaveNoRepeats(s);
    forall t, x | 0 <= t < |s.workers| && InHand(s.workers[t], x)
      ensures x in Snapshot(s.sh).active || Unlisted(s.workers[t])
    {
      InHandIsListed(s, k, t, x);
    }
  }

  /** Whenever a report is made, queued and active jobs are in order: higher priority
      first, then smaller id; and the completed jobs are the last 128 to have finished,
      or all of them, oldest first. */
  lemma ContainersInOrder(states: seq<State>, actions: seq<Action>, n: nat)
    requires Run(states, actions) && n < |states|
    ensures
      var jobs := states[n].sh.jobs;
      forall i, j :: 0 <= i < j < |jobs| ==>
        jobs[i].priority > jobs[j].priority || (jobs[i].priority == jobs[j].priority && jobs[i].id < jobs[j].id)
    ensures
      var active := states[n].sh.active;
      forall i, j :: 0 <= i < j < |active| ==>
        || active[i].priority > active[j].priority
        || (active[i].priority == active[j].priority && active[i].id < active[j].id)
    ensures
      var completed, finished := states[n].sh.completed, states[n].log.finished;
      && |completed| == (if |finished| < 128 then |finished| else 128)
      && forall j :: 0 <= j < |completed| ==> completed[j] == finished[|finished| - |completed| + j]
  {
    RunInv(states, actions, n);
    OrderedMeans(states[n].sh.jobs);
    OrderedMeans(states[n].sh.active);
  }

  /** The thread has popped its job and not yet reached the active set. */
  predicate Unlisted(pc: Worker) {
    pc.PoppedUnlock? || pc.Scanning? || pc.AwaitInsert?
  }
}
