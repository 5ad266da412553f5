/** Progress of the scheduler: no deadlock, no endless work, and what is left when
    all work is done. */
module SchedulerProgress {
  import opened Jobs
  import opened Tally
  import opened Scheduler
  import opened SchedulerExclusion
  import opened SchedulerLedger
  import opened SchedulerContainers
  import opened SchedulerSafety

  predicate AllIdle(workers: seq<Worker>) {
    forall t :: 0 <= t < |workers| ==> workers[t].Idle?
  }

  predicate AllReady(io: seq<Io>) {
    forall k :: 0 <= k < |io| ==> io[k].Ready?
  }

  /** Nothing is left to do. */
  predicate Quiescent(s: State) {
    AllIdle(s.workers) && AllReady(s.io) && s.sh.tasks == []
  }

  function RunOf(th: Thread): Action {
    match th
    case PoolThread(t) => WorkerRun(t)
    case IoThread(k) => IoRun(k)
  }

  /** Mutexes are taken in the order jobs, active, completed: the holder of the
      last one taken is never blocked. */
  lemma HolderCanStep(s: State, th: Thread, m: Mutex)
    requires Inv(s) && Owner(s.sh, m) == HeldBy(th)
    requires m.JobsMutex? ==> s.sh.activeMutex.Free?
    requires !m.CompletedMutex? ==> s.sh.completedMutex.Free?
    ensures Enabled(s, RunOf(th))
  {
    assert Holds(s, th, m);
  }

  lemma TasksNeedDevices(s: State)
    requires Inv(s) && s.sh.tasks != []
    ensures |s.workers| > 0
  {
    var q := s.sh.tasks[0];
    assert q in multiset(s.sh.tasks);
    assert RequestPlaces(s, q) > 0;
  }

  /** No reachable state is deadlocked: while work is left, some thread can step
      without any new request. */
  lemma NoDeadlock(s: State) returns (a: Action)
    requires Inv(s) && !Quiescent(s)
    ensures !a.Begin? && Enabled(s, a)
  {
    if s.sh.completedMutex.HeldBy? {
      a := RunOf(s.sh.completedMutex.thread);
      HolderCanStep(s, s.sh.completedMutex.thread, CompletedMutex);
    } else if s.sh.activeMutex.HeldBy? {
      a := RunOf(s.sh.activeMutex.thread);
      HolderCanStep(s, s.sh.activeMutex.thread, ActiveMutex);
    } else if s.sh.jobsMutex.HeldBy? {
      a := RunOf(s.sh.jobsMutex.thread);
      HolderCanStep(s, s.sh.jobsMutex.thread, JobsMutex);
    } else if !AllIdle(s.workers) {
      var t :| 0 <= t < |s.workers| && !s.workers[t].Idle?;
      a := WorkerRun(t);
    } else if !AllReady(s.io) {
      var k :| 0 <= k < |s.io| && !s.io[k].Ready?;
      a := IoRun(k);
    } else {
      TasksNeedDevices(s);
      a := Take(0, 0);
    }
  }

  // ---------------------------------------------------------------- termination

  /** The steps a pool thread has left, over `n` devices. A scan only moves on. */
  function WorkerWeight(n: nat): Worker -> nat {
    (pc: Worker) =>
      match pc
      case Idle => 0
      case AwaitJobs(_) => n + 15
      case TestEmpty(_) => n + 14
      case EmptyUnlock => 1
      case PoppedUnlock(_, _) => n + 13
      case Scanning(_, _, pos) => if pos <= n then 12 + n - pos else 0
      case AwaitInsert(_, _, _) => 11
      case Inserting(_, _, _) => 10
      case Inserted(_, _, _) => 9
      case Working(_, _, _) => 8
      case Releasing(_, _) => 7
      case AwaitErase(_) => 6
      case AwaitRecord(_) => 5
      case Erasing(_) => 4
      case Recording(_) => 3
      case UnlockCompleted => 2
      case UnlockActive => 1
  }

  function TaskWeight(n: nat): nat { n + 16 }

  function IoWeight(n: nat): Io -> nat {
    (pc: Io) =>
      match pc
      case Ready => 0
      case RefuseGenerate => 1
      case RejectMissing(_) => 1
      case AwaitPush(_) => n + 20
      case TestLimit(_) => n + 19
      case OverLimit(_) => 2
      case RejectLimit(_) => 1
      case PushedUnlock(_) => n + 18
      case Posting(_) => n + 17
      case RefuseCancel => 1
      case AwaitCancel(_) => 4
      case Cancelling(_) => 3
      case CancelUnlock(_, _) => 2
      case CancelReply(_, _) => 1
      case RefuseClear => 1
      case AwaitClear => 4
      case Clearing => 3
      case ClearUnlock => 2
      case ClearReply => 1
      case ReportAwaitJobs => 10
      case ReportAwaitActive => 9
      case ReportAwaitCompleted => 8
      case ReportCopy => 7
      case ReportUnlockJobs(_) => 6
      case ReportListActive(_) => 5
      case ReportListCompleted(_, _) => 4
      case ReportReply(_) => 3
      case ReportUnlockCompleted => 2
      case ReportUnlockActive => 1
  }

  /** An upper bound on the steps left without new requests. */
  function Measure(s: State): nat {
    var n := s.cfg.devices;
    |s.sh.tasks| * TaskWeight(n) + Sum(s.workers, WorkerWeight(n)) + Sum(s.io, IoWeight(n))
  }

  lemma WorkerDescends(me: Thread, pc: Worker, sh: Shared, log: Log)
    requires WorkerEnabled(pc, sh) && WorkerInRange(pc, |sh.busy|)
    ensures WorkerWeight(|sh.busy|)(WorkerNext(me, pc, sh, log).pc) < WorkerWeight(|sh.busy|)(pc)
  {
  }

  lemma IoDescends(cfg: Config, me: Thread, pc: Io, sh: Shared, log: Log, n: nat)
    requires IoEnabled(pc, sh)
    ensures
      var o := IoNext(cfg, me, pc, sh, log);
      && (pc.Posting? ==> o.sh.tasks == sh.tasks + [pc.job.id] && IoWeight(n)(o.pc) == 0)
      && (!pc.Posting? ==> IoWeight(n)(o.pc) < IoWeight(n)(pc))
  {
  }

  lemma MeasureDescends(s: State, a: Action)
    requires WellFormed(s) && Enabled(s, a) && !a.Begin?
    ensures Measure(Apply(s, a)) < Measure(s)
  {
    var n := s.cfg.devices;
    var r := Apply(s, a);
    match a
    case IoRun(k) =>
      SumUpdate(s.io, k, r.io[k], IoWeight(n));
      IoDescends(s.cfg, IoThread(k), s.io[k], s.sh, s.log, n);
      IoDispensesNothing(s.cfg, IoThread(k), s.io[k], s.sh, s.log);
      MoreTasks(|s.sh.tasks|, TaskWeight(n));
    case Take(t, i) =>
      SumUpdate(s.workers, t, r.workers[t], WorkerWeight(n));
      MoreTasks(|r.sh.tasks|, TaskWeight(n));
    case WorkerRun(t) =>
      SumUpdate(s.workers, t, r.workers[t], WorkerWeight(n));
      WorkerDescends(PoolThread(t), s.workers[t], s.sh, s.log);
      WorkerDispensesNothing(PoolThread(t), s.workers[t], s.sh, s.log);
  }

  lemma MoreTasks(k: nat, w: nat)
    ensures (k + 1) * w == k * w + w
  {
  }

  ghost predicate NoNewRequests(actions: seq<Action>) {
    forall i :: 0 <= i < |actions| ==> !actions[i].Begin?
  }

  lemma {:induction false} WorkEnds(states: seq<State>, actions: seq<Action>)
    requires Steps(states, actions) && NoNewRequests(actions)
    ensures |actions| + Measure(states[|actions|]) <= Measure(states[0])
    decreases |actions|
  {
    if |actions| > 0 {
      var n := |actions| - 1;
      WorkEnds(states[..|actions|], actions[..n]);
      MeasureDescends(states[n], actions[n]);
    }
  }

  /** From every state of the invariant the work in progress can be, and whatever
      the interleaving will be, carried to the end. */
  lemma {:induction false} WorkCanFinish(s: State) returns (states: seq<State>, actions: seq<Action>)
    requires Inv(s)
    ensures Steps(states, actions) && states[0] == s && NoNewRequests(actions) && Quiescent(states[|actions|])
    decreases Measure(s)
  {
    if Quiescent(s) {
      states, actions := [s], [];
    } else {
      var a := NoDeadlock(s);
      MeasureDescends(s, a);
      StepInv(s, a);
      states, actions := WorkCanFinish(Apply(s, a));
      states, actions := [s] + states, [a] + actions;
    }
  }

  /** What holds once nothing is left to do. */
  ghost predicate AllDone(s: State) {
    && s.sh.jobs == [] && s.sh.active == []
    && (forall d :: 0 <= d < |s.sh.busy| ==> !s.sh.busy[d])
    && s.sh.jobsMutex.Free? && s.sh.activeMutex.Free? && s.sh.completedMutex.Free?
    && (forall q: nat :: Count(s.replies, IsAnswer(q)) == One(1 <= q < s.sh.nextId))
    && (forall x :: x in s.log.dispensed ==> StoredPlaces(s.sh, s.log, x) == 1)
  }

  lemma QuiescentIsDone(s: State)
    requires Inv(s) && Quiescent(s)
    ensures AllDone(s)
  {
    CountNone(s.workers, BeforePop);
    CountNone(s.io, BeforePost);
    forall x
      ensures multiset(s.sh.active)[x] == 0
    {
      CountNone(s.workers, HasPublished(x));
    }
    assert multiset(s.sh.active) == multiset{};
    assert |s.sh.active| == |multiset(s.sh.active)|;
    forall d: nat | d < |s.sh.busy|
      ensures !s.sh.busy[d]
    {
      CountNone(s.workers, Claims(d));
    }
    forall th, m
      ensures Owner(s.sh, m) != HeldBy(th)
    {
      assert !Holds(s, th, m);
    }
    assert s.sh.jobsMutex == Owner(s.sh, JobsMutex);
    assert s.sh.activeMutex == Owner(s.sh, ActiveMutex);
    assert s.sh.completedMutex == Owner(s.sh, CompletedMutex);
    forall q: nat
      ensures Count(s.replies, IsAnswer(q)) == One(1 <= q < s.sh.nextId)
    {
      CountNone(s.workers, IsServing(q));
      CountNone(s.io, IsOwing(q));
      assert RequestPlaces(s, q) == One(1 <= q < s.sh.nextId);
    }
    forall x | x in s.log.dispensed
      ensures StoredPlaces(s.sh, s.log, x) == 1
    {
      CountNone(s.workers, HasInHand(x));
      CountNone(s.io, HasUnpushed(x));
      assert x in multiset(s.log.dispensed);
      IdDeterminesJob(s, x, x);
    }
  }

  /** With nothing left to do there are as many replies as there were requests, of
      whatever kind. */
  lemma AllAnswered(states: seq<State>, actions: seq<Action>)
    requires Run(states, actions) && Quiescent(states[|actions|])
    ensures |states[|actions|].replies| == Count(actions, IsBegin)
  {
    var s := states[|actions|];
    RequestsAnswered(states, actions, |actions|);
    assert actions[..|actions|] == actions;
    CountNone(s.io, OwesReply);
    CountNone(s.workers, OwesWork);
  }

  /** With nothing left to do the work of every finished job has gone to exactly one
      client, and that of no other job to any. */
  lemma FinishedWorkSentOnce(states: seq<State>, actions: seq<Action>, x: Job)
    requires Run(states, actions) && Quiescent(states[|actions|])
    ensures
      var s := states[|actions|];
      Count(s.replies, IsSent(x)) == One(x in s.log.finished)
  {
    var s := states[|actions|];
    RunInv(states, actions, |actions|);
    RunWorkSent(states, actions, |actions|);
    CountNone(s.workers, IsAfterWork(x));
    SentIsPlaced(s, x);
    assert x in s.log.finished <==> multiset(s.log.finished)[x] > 0;
  }

  /** Once no further requests come, every interleaving from any reachable state
      `n` to a state `m` takes at most `Measure` steps; if it stops, either some
      thread can still step or all work is done: nothing queued or active, all
      devices and mutexes free, every request with an id answered exactly once, and
      as many replies as requests of any kind. */
  lemma WorkTerminates(states: seq<State>, actions: seq<Action>, n: nat)
    requires Run(states, actions) && n <= |actions| && NoNewRequests(actions[n..])
    ensures |actions| - n <= Measure(states[n])
    ensures
      || (exists a: Action :: !a.Begin? && Enabled(states[|actions|], a))
      || (AllDone(states[|actions|]) && |states[|actions|].replies| == Count(actions, IsBegin))
  {
    WorkEnds(states[n..], actions[n..]);
    RunInv(states, actions, |actions|);
    var s := states[|actions|];
    if Quiescent(s) {
      QuiescentIsDone(s);
      AllAnswered(states, actions);
    } else {
      var a := NoDeadlock(s);
    }
  }
}
