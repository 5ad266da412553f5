/** Whose job a task works on: exactly when it is the job of the request that
    posted the task, a class of runs in which it always is, and a run in which it
    is not. */
module SchedulerOrder {
  import opened Jobs
  import opened Scheduler
  import opened SchedulerLedger
  import opened SchedulerSafety

  /** A task pops the job of the request that posted it exactly when that job is
      still queued and every other queued job has a lower priority, or the same and a
      larger id. */
  lemma PopsOwnJobIff(s: State, t: nat)
    requires Inv(s) && t < |s.workers| && s.workers[t].TestEmpty?
    ensures
      var owner := s.workers[t].owner;
      var next := Apply(s, WorkerRun(t)).workers[t];
      (next.PoppedUnlock? && next.job.id == owner) <==>
      exists x :: x in s.sh.jobs && x.id == owner && forall y :: y in s.sh.jobs && y != x ==>
        y.priority < x.priority || (y.priority == x.priority && y.id > x.id)
  {
    var owner := s.workers[t].owner;
    var jobs := s.sh.jobs;
    if jobs != [] {
      forall y | y in jobs && y != jobs[0]
        ensures RanksBelow(y, jobs[0])
      {
        var j :| 0 <= j < |jobs| && jobs[j] == y;
      }
      forall x | x in jobs && x.id == owner && forall y :: y in jobs && y != x ==> RanksBelow(y, x)
        ensures x == jobs[0]
      {
        if x != jobs[0] {
          ComparatorIsStrictOrder(x, jobs[0], x);
        }
      }
    }
  }

  // ---------------------------------------------------- requests one at a time

  function JobIds(jobs: seq<Job>): seq<nat> {
    if jobs == [] then [] else [jobs[0].id] + JobIds(jobs[1..])
  }

  lemma {:induction false} InsertAtEnd(jobs: seq<Job>, job: Job)
    requires forall y :: y in jobs ==> !RanksBelow(y, job)
    ensures Insert(jobs, job) == jobs + [job]
  {
    if jobs != [] {
      assert jobs[0] in jobs;
      InsertAtEnd(jobs[1..], job);
      assert jobs + [job] == [jobs[0]] + (jobs[1..] + [job]);
    }
  }

  lemma {:induction false} JobIdsAppend(jobs: seq<Job>, job: Job)
    ensures JobIds(jobs + [job]) == JobIds(jobs) + [job.id]
  {
    if jobs == [] {
      assert jobs + [job] == [job];
    } else {
      assert (jobs + [job])[1..] == jobs[1..] + [job];
      JobIdsAppend(jobs[1..], job);
    }
  }

  /** The thread carries a job on its way into the queue or to its task. */
  predicate Carrying(pc: Io) {
    pc.AwaitPush? || pc.TestLimit? || BeforePost(pc)
  }

  /** One device, no priorities, first-in first-out tasks, no cancel, no clear, and
      a work request only while no other one is being submitted. */
  predicate SerialAction(s: State, a: Action) {
    match a
    case Begin(_, request) =>
      && (request.Generate? ==> forall k :: 0 <= k < |s.io| ==> !Carrying(s.io[k]))
      && !request.Cancel? && !request.Clear?
    case Take(_, i) => i == 0
    case _ => true
  }

  predicate SerialConfig(cfg: Config) {
    cfg.devices == 1 && !cfg.allowPrioritization
  }

  predicate Removing(pc: Io) {
    pc.AwaitCancel? || pc.Cancelling? || pc.AwaitClear? || pc.Clearing?
  }

  /** The task the pool thread has taken and not yet used. */
  function Taken(pc: Worker): seq<nat> {
    if BeforePop(pc) then [pc.owner] else []
  }

  predicate OwnJob(pc: Worker) {
    match pc
    case PoppedUnlock(owner, job) => job.id == owner
    case Scanning(owner, job, _) => job.id == owner
    case AwaitInsert(owner, job, _) => job.id == owner
    case Inserting(owner, job, _) => job.id == owner
    case Inserted(owner, job, _) => job.id == owner
    case Working(owner, job, _) => job.id == owner
    case _ => true
  }

  predicate OwnReply(reply: Reply) {
    (reply.WorkDone? ==> reply.job.id == reply.owner) && !reply.NoJobsAvailable?
  }

  ghost predicate IoSerial(s: State) {
    && (forall k :: 0 <= k < |s.io| ==> !Removing(s.io[k]))
    && (forall j, k :: 0 <= j < |s.io| && 0 <= k < |s.io| && Carrying(s.io[j]) && Carrying(s.io[k]) ==> j == k)
    && (forall k :: 0 <= k < |s.io| && (s.io[k].AwaitPush? || s.io[k].TestLimit?) ==>
          s.io[k].job.priority == 0 && forall y :: y in s.sh.jobs ==> y.id < s.io[k].job.id)
  }

  /** The queue holds the jobs of the tasks still to pop, in task order. */
  ghost predicate InLine(s: State)
    requires |s.workers| == 1
  {
    && (forall y :: y in s.sh.jobs ==> y.priority == 0)
    && ((forall k :: 0 <= k < |s.io| ==> !BeforePost(s.io[k])) ==>
          JobIds(s.sh.jobs) == Taken(s.workers[0]) + s.sh.tasks)
    && (forall k :: 0 <= k < |s.io| && BeforePost(s.io[k]) ==>
          JobIds(s.sh.jobs) == Taken(s.workers[0]) + s.sh.tasks + [s.io[k].job.id])
  }

  ghost predicate Serial(s: State) {
    && SerialConfig(s.cfg) && |s.workers| == 1
    && IoSerial(s) && InLine(s) && OwnJob(s.workers[0])
    && (forall r :: r in s.replies ==> OwnReply(r))
  }

  lemma QueuedIdsBelowNext(s: State, y: Job)
    requires IdsDispensed(s) && JobsConserved(s) && y in s.sh.jobs
    ensures y.id < s.sh.nextId
  {
    assert y in multiset(s.sh.jobs);
    assert Places(s, y) > 0;
    assert Places(s, y) == multiset(s.log.dispensed)[y];
    DispensedOnce(s.log.dispensed, y);
  }

  lemma SerialBegin(s: State, k: nat, request: Request)
    requires Inv(s) && Serial(s) && Enabled(s, Begin(k, request)) && SerialAction(s, Begin(k, request))
    ensures Serial(Apply(s, Begin(k, request)))
  {
    forall y | y in s.sh.jobs
      ensures y.id < s.sh.nextId
    {
      QueuedIdsBelowNext(s, y);
    }
    var r := Apply(s, Begin(k, request));
    assert forall j :: 0 <= j < |s.io| && j != k ==> r.io[j] == s.io[j];
    assert !BeforePost(r.io[k]) && !BeforePost(s.io[k]);
  }

  lemma PushAtEnd(jobs: seq<Job>, job: Job)
    requires job.priority == 0 && forall y :: y in jobs ==> y.priority == 0 && y.id < job.id
    ensures JobIds(Insert(jobs, job)) == JobIds(jobs) + [job.id]
    ensures forall y :: y in Insert(jobs, job) ==> y == job || y in jobs
  {
    InsertAtEnd(jobs, job);
    JobIdsAppend(jobs, job);
  }

  lemma OnlyCarrier(s: State, k: nat)
    requires IoSerial(s) && k < |s.io| && Carrying(s.io[k])
    ensures forall j :: 0 <= j < |s.io| && j != k ==> !Carrying(s.io[j]) && !BeforePost(s.io[j])
  {
  }

  lemma PushKeepsLine(s: State, k: nat)
    requires WellFormed(s) && Serial(s) && k < |s.io| && s.io[k].TestLimit?
    ensures InLine(Apply(s, IoRun(k)))
  {
    OnlyCarrier(s, k);
    if |s.sh.jobs| < s.cfg.requestLimit {
      PushAtEnd(s.sh.jobs, s.io[k].job);
      assert BeforePost(Apply(s, IoRun(k)).io[k]);
    }
  }

  lemma SerialPush(s: State, k: nat)
    requires Inv(s) && Serial(s) && k < |s.io| && s.io[k].TestLimit?
    ensures Serial(Apply(s, IoRun(k)))
  {
    OnlyCarrier(s, k);
    PushKeepsLine(s, k);
  }

  lemma SerialPost(s: State, k: nat)
    requires Inv(s) && Serial(s) && k < |s.io| && s.io[k].Posting?
    ensures Serial(Apply(s, IoRun(k)))
  {
    var r := Apply(s, IoRun(k));
    assert forall j :: 0 <= j < |s.io| && j != k ==> r.io[j] == s.io[j] && !Carrying(s.io[j]);
    assert Taken(s.workers[0]) + s.sh.tasks + [s.io[k].job.id] == Taken(s.workers[0]) + r.sh.tasks;
  }

  lemma SerialIo(s: State, k: nat)
    requires Inv(s) && Serial(s) && Enabled(s, IoRun(k)) && !s.io[k].TestLimit? && !s.io[k].Posting?
    ensures Serial(Apply(s, IoRun(k)))
  {
    var pc := s.io[k];
    var r := Apply(s, IoRun(k));
    IoSerialNext(s.cfg, IoThread(k), pc, s.sh, s.log);
    assert r.sh.jobs == s.sh.jobs && r.workers == s.workers;
    assert forall j :: 0 <= j < |s.io| && j != k ==> r.io[j] == s.io[j];
    assert BeforePost(r.io[k]) == BeforePost(pc);
  }

  lemma IoSerialNext(cfg: Config, me: Thread, pc: Io, sh: Shared, log: Log)
    requires IoEnabled(pc, sh) && !pc.TestLimit? && !Removing(pc)
    ensures
      var o := IoNext(cfg, me, pc, sh, log);
      && o.sh.jobs == sh.jobs && !Removing(o.pc) && !o.pc.AwaitPush?
      && (o.sh.tasks == if pc.Posting? then sh.tasks + [pc.job.id] else sh.tasks)
      && (o.pc.TestLimit? ==> pc.AwaitPush? && o.pc.job == pc.job)
      && (BeforePost(o.pc) <==> pc.PushedUnlock?) && (pc.PushedUnlock? ==> o.pc.job == pc.job)
      && (o.says.Says? ==> OwnReply(o.says.reply))
  {
  }

  lemma SerialTake(s: State, t: nat)
    requires Inv(s) && Serial(s) && Enabled(s, Take(t, 0))
    ensures Serial(Apply(s, Take(t, 0)))
  {
    assert s.sh.tasks == [s.sh.tasks[0]] + s.sh.tasks[1..];
    assert s.sh.tasks[..0] + s.sh.tasks[1..] == s.sh.tasks[1..];
  }

  /** The first job in line is the one of the task about to pop. */
  lemma PopInLine(s: State, rest: seq<nat>)
    requires |s.workers| == 1 && s.workers[0].TestEmpty?
    requires JobIds(s.sh.jobs) == Taken(s.workers[0]) + rest
    ensures s.sh.jobs != [] && s.sh.jobs[0].id == s.workers[0].owner && JobIds(s.sh.jobs[1..]) == rest
  {
    assert JobIds(s.sh.jobs)[0] == s.workers[0].owner;
    assert JobIds(s.sh.jobs)[1..] == rest;
  }

  lemma SerialPop(s: State)
    requires Inv(s) && Serial(s) && s.workers[0].TestEmpty?
    ensures s.sh.jobs != [] && s.sh.jobs[0].id == s.workers[0].owner
    ensures (forall k :: 0 <= k < |s.io| ==> !BeforePost(s.io[k])) ==> JobIds(s.sh.jobs[1..]) == s.sh.tasks
    ensures forall k :: 0 <= k < |s.io| && BeforePost(s.io[k]) ==>
              JobIds(s.sh.jobs[1..]) == s.sh.tasks + [s.io[k].job.id]
  {
    if k :| 0 <= k < |s.io| && BeforePost(s.io[k]) {
      var line, id := Taken(s.workers[0]), s.io[k].job.id;
      assert line + s.sh.tasks + [id] == line + (s.sh.tasks + [id]);
      PopInLine(s, s.sh.tasks + [s.io[k].job.id]);
      assert forall j :: 0 <= j < |s.io| && BeforePost(s.io[j]) ==> Carrying(s.io[j]) && j == k;
    } else {
      PopInLine(s, s.sh.tasks);
    }
  }

  lemma SerialWorker(s: State, t: nat)
    requires Inv(s) && Serial(s) && Enabled(s, WorkerRun(t))
    ensures Serial(Apply(s, WorkerRun(t)))
  {
    var pc := s.workers[t];
    var r := Apply(s, WorkerRun(t));
    if pc.TestEmpty? {
      SerialPop(s);
      assert forall y :: y in s.sh.jobs[1..] ==> y in s.sh.jobs;
    }
    WorkerSerialNext(PoolThread(t), pc, s.sh, s.log);
  }

  lemma WorkerSerialNext(me: Thread, pc: Worker, sh: Shared, log: Log)
    requires WorkerEnabled(pc, sh) && WorkerInRange(pc, |sh.busy|) && OwnJob(pc)
    requires pc.TestEmpty? ==> sh.jobs != [] && sh.jobs[0].id == pc.owner
    ensures
      var o := WorkerNext(me, pc, sh, log);
      && OwnJob(o.pc) && o.sh.tasks == sh.tasks
      && (pc.TestEmpty? ==> o.sh.jobs == sh.jobs[1..] && Taken(o.pc) == [])
      && (!pc.TestEmpty? ==> o.sh.jobs == sh.jobs && Taken(o.pc) == Taken(pc))
      && (o.says.Says? ==> OwnReply(o.says.reply))
  {
  }

  lemma SerialStep(s: State, a: Action)
    requires Inv(s) && Serial(s) && Enabled(s, a) && SerialAction(s, a)
    ensures Serial(Apply(s, a))
  {
    match a
    case Begin(k, request) => SerialBegin(s, k, request);
    case IoRun(k) =>
      if s.io[k].TestLimit? {
        SerialPush(s, k);
      } else if s.io[k].Posting? {
        SerialPost(s, k);
      } else {
        SerialIo(s, k);
      }
    case Take(t, _) => SerialTake(s, t);
    case WorkerRun(t) => SerialWorker(s, t);
  }

  ghost predicate SerialRun(states: seq<State>, actions: seq<Action>) {
    && Run(states, actions) && SerialConfig(states[0].cfg)
    && forall i :: 0 <= i < |actions| ==> SerialAction(states[i], actions[i])
  }

  lemma {:induction false} SerialSteps(states: seq<State>, actions: seq<Action>)
    requires Steps(states, actions) && Inv(states[0]) && Serial(states[0])
    requires forall i :: 0 <= i < |actions| ==> SerialAction(states[i], actions[i])
    ensures Inv(states[|actions|]) && Serial(states[|actions|])
    decreases |actions|
  {
    if |actions| > 0 {
      var n := |actions| - 1;
      SerialSteps(states[..|actions|], actions[..n]);
      StepInv(states[n], actions[n]);
      SerialStep(states[n], actions[n]);
    }
  }

  lemma SerialInv(states: seq<State>, actions: seq<Action>, n: nat)
    requires SerialRun(states, actions) && n < |states|
    ensures Serial(states[n])
  {
    InitInv(states[0]);
    SerialSteps(states[..n + 1], actions[..n]);
  }

  /** With requests one at a time every client gets the work of its own request. */
  lemma SerialRepliesMatch(states: seq<State>, actions: seq<Action>, n: nat)
    requires SerialRun(states, actions) && n < |states|
    ensures forall r :: r in states[n].replies && r.WorkDone? ==> r.job.id == r.owner
    ensures forall r :: r in states[n].replies ==> !r.NoJobsAvailable?
  {
    SerialInv(states, actions, n);
  }

  // ------------------------------------------------------------ other requests

  /** Work requests and nothing else arrive. */
  predicate OnlySubmits(actions: seq<Action>) {
    actions == [] || (Submits(actions[|actions| - 1]) && OnlySubmits(actions[..|actions| - 1]))
  }

  predicate Submits(a: Action) {
    a.Begin? ==> a.request.Generate?
  }

  lemma Extend(states: seq<State>, actions: seq<Action>, a: Action) returns (states': seq<State>, actions': seq<Action>)
    requires Run(states, actions) && Enabled(states[|actions|], a)
    ensures Run(states', actions') && states'[|actions'|] == Apply(states[|actions|], a)
    ensures Submits(a) && OnlySubmits(actions) ==> OnlySubmits(actions')
  {
    states', actions' := states + [Apply(states[|actions|], a)], actions + [a];
    assert actions'[..|actions|] == actions;
  }

  /** A work request up to its lock. */
  lemma LockToPush(states: seq<State>, actions: seq<Action>, job: Job)
    returns (states': seq<State>, actions': seq<Action>)
    requires Run(states, actions)
    requires
      var s := states[|actions|];
      && s.io == [Ready] && s.sh.jobsMutex.Free? && s.cfg.devices > 0
      && job.id == s.sh.nextId && (!s.cfg.allowPrioritization ==> job.priority == 0)
    ensures Run(states', actions') && (OnlySubmits(actions) ==> OnlySubmits(actions'))
    ensures
      var s := states[|actions|];
      states'[|actions'|] == s.(
        io := [TestLimit(job)],
        sh := s.sh.(jobsMutex := HeldBy(IoThread(0)), nextId := s.sh.nextId + 1),
        log := s.log.(dispensed := s.log.dispensed + [job]))
  {
    states', actions' := Extend(states, actions, Begin(0, Generate(job.hash, job.priority)));
    states', actions' := Extend(states', actions', IoRun(0));
    assert states'[|actions'|].io == [TestLimit(job)];
  }

  /** From the lock, with room in the queue, to the post. */
  lemma PushAndUnlock(states: seq<State>, actions: seq<Action>, job: Job)
    returns (states': seq<State>, actions': seq<Action>)
    requires Run(states, actions)
    requires states[|actions|].io == [TestLimit(job)]
    requires |states[|actions|].sh.jobs| < states[|actions|].cfg.requestLimit
    ensures Run(states', actions') && (OnlySubmits(actions) ==> OnlySubmits(actions'))
    ensures
      var s := states[|actions|];
      states'[|actions'|] == s.(
        io := [Posting(job)],
        sh := s.sh.(jobs := Insert(s.sh.jobs, job), jobsMutex := Free))
  {
    states', actions' := Extend(states, actions, IoRun(0));
    states', actions' := Extend(states', actions', IoRun(0));
    assert states'[|actions'|].io == [Posting(job)];
  }

  /** An uninterrupted accepted work request. */
  lemma SubmitRun(states: seq<State>, actions: seq<Action>, job: Job)
    returns (states': seq<State>, actions': seq<Action>)
    requires Run(states, actions)
    requires
      var s := states[|actions|];
      && s.io == [Ready] && s.sh.jobsMutex.Free? && |s.sh.jobs| < s.cfg.requestLimit && s.cfg.devices > 0
      && job.id == s.sh.nextId && (!s.cfg.allowPrioritization ==> job.priority == 0)
    ensures Run(states', actions') && (OnlySubmits(actions) ==> OnlySubmits(actions'))
    ensures
      var s := states[|actions|];
      states'[|actions'|] == s.(
        sh := s.sh.(jobs := Insert(s.sh.jobs, job), tasks := s.sh.tasks + [job.id], nextId := s.sh.nextId + 1),
        log := s.log.(dispensed := s.log.dispensed + [job]))
  {
    states', actions' := LockToPush(states, actions, job);
    states', actions' := PushAndUnlock(states', actions', job);
    states', actions' := Extend(states', actions', IoRun(0));
    assert states'[|actions'|].io == [Ready];
  }

  lemma LockToCancel(states: seq<State>, actions: seq<Action>, hash: nat)
    returns (states': seq<State>, actions': seq<Action>)
    requires Run(states, actions) && states[|actions|].io == [Ready] && states[|actions|].sh.jobsMutex.Free?
    ensures Run(states', actions')
    ensures
      var s := states[|actions|];
      states'[|actions'|] == s.(io := [Cancelling(hash)], sh := s.sh.(jobsMutex := HeldBy(IoThread(0))))
  {
    states', actions' := Extend(states, actions, Begin(0, Cancel(hash)));
    states', actions' := Extend(states', actions', IoRun(0));
    assert states'[|actions'|].io == [Cancelling(hash)];
  }

  /** An uninterrupted cancellation. */
  lemma CancelRun(states: seq<State>, actions: seq<Action>, hash: nat)
    returns (states': seq<State>, actions': seq<Action>)
    requires Run(states, actions) && states[|actions|].io == [Ready] && states[|actions|].sh.jobsMutex.Free?
    requires Matching(states[|actions|].sh.jobs, hash) != []
    ensures Run(states', actions')
    ensures
      var s := states[|actions|];
      states'[|actions'|] == s.(
        sh := s.sh.(jobs := Remove(s.sh.jobs, hash)),
        log := s.log.(cancelled := s.log.cancelled + Matching(s.sh.jobs, hash)),
        replies := s.replies + [Cancelled(hash)])
  {
    states', actions' := LockToCancel(states, actions, hash);
    states', actions' := Extend(states', actions', IoRun(0));
    states', actions' := Extend(states', actions', IoRun(0));
    states', actions' := Extend(states', actions', IoRun(0));
    assert states'[|actions'|].io == [Ready];
  }

  /** The single pool thread answers the first task while nothing else happens. */
  lemma ServeRun(states: seq<State>, actions: seq<Action>)
    returns (states': seq<State>, actions': seq<Action>)
    requires Run(states, actions)
    requires
      var s := states[|actions|];
      && s.workers == [Idle] && s.sh.busy == [false] && s.sh.tasks != [] && s.sh.jobs != []
      && s.sh.jobsMutex.Free? && s.sh.activeMutex.Free? && s.sh.completedMutex.Free?
    ensures Run(states', actions') && (OnlySubmits(actions) ==> OnlySubmits(actions'))
    ensures
      var s, r := states[|actions|], states'[|actions'|];
      r.replies == s.replies + [WorkDone(s.sh.tasks[0], s.sh.jobs[0])] && r.cfg == s.cfg
  {
    var s := states[|actions|];
    states', actions' := Extend(states, actions, Take(0, 0));
    assert s.sh.tasks[..0] + s.sh.tasks[1..] == s.sh.tasks[1..];
    states', actions' := Extend(states', actions', WorkerRun(0));
    states', actions' := Extend(states', actions', WorkerRun(0));
    states', actions' := Extend(states', actions', WorkerRun(0));
    states', actions' := Extend(states', actions', WorkerRun(0));
    states', actions' := AnswerRun(states', actions');
  }

  /** From a claimed device to the reply. */
  lemma AnswerRun(states: seq<State>, actions: seq<Action>)
    returns (states': seq<State>, actions': seq<Action>)
    requires Run(states, actions)
    requires |states[|actions|].workers| == 1 && states[|actions|].workers[0].AwaitInsert?
    requires states[|actions|].sh.activeMutex.Free?
    ensures Run(states', actions') && (OnlySubmits(actions) ==> OnlySubmits(actions'))
    ensures
      var s, r := states[|actions|], states'[|actions'|];
      r.replies == s.replies + [WorkDone(s.workers[0].owner, s.workers[0].job)] && r.cfg == s.cfg
  {
    states', actions' := Extend(states, actions, WorkerRun(0));
    states', actions' := Extend(states', actions', WorkerRun(0));
    states', actions' := Extend(states', actions', WorkerRun(0));
    states', actions' := Extend(states', actions', WorkerRun(0));
  }

  function Fresh(cfg: Config): State
    requires cfg.devices == 1
  {
    State(cfg, Shared([], Free, [], Free, [], Free, [false], [], 1), [Idle], [Ready], Log([], [], [], [], []), [])
  }

  /** With priorities the second request overtakes the first in the queue but not
      among the tasks: the first client is sent the second client's work. */
  lemma PriorityMismatch() returns (states: seq<State>, actions: seq<Action>)
    ensures Run(states, actions) && WorkDone(1, Job(2, 5, 200)) in states[|actions|].replies
    ensures OnlySubmits(actions)
  {
    states, actions := [Fresh(Config(1, 10, true, false))], [];
    states, actions := SubmitRun(states, actions, Job(1, 0, 100));
    assert states[|actions|].sh.jobs == [Job(1, 0, 100)];
    states, actions := SubmitRun(states, actions, Job(2, 5, 200));
    assert states[|actions|].sh.jobs == [Job(2, 5, 200), Job(1, 0, 100)];
    states, actions := ServeRun(states, actions);
    var replies := states[|actions|].replies;
    assert replies[|replies| - 1] == WorkDone(1, Job(2, 5, 200));
  }

  lemma TwoJobs()
    ensures Insert([Job(1, 0, 100)], Job(2, 0, 200)) == [Job(1, 0, 100), Job(2, 0, 200)]
    ensures Matching([Job(1, 0, 100), Job(2, 0, 200)], 100) == [Job(1, 0, 100)]
    ensures Remove([Job(1, 0, 100), Job(2, 0, 200)], 100) == [Job(2, 0, 200)]
  {
    assert [Job(1, 0, 100), Job(2, 0, 200)][1..] == [Job(2, 0, 200)];
  }

  /** Without priorities a cancellation is enough: the client whose request was
      cancelled is sent the work of the other client's request. */
  lemma CancelMismatch() returns (states: seq<State>, actions: seq<Action>)
    ensures Run(states, actions) && SerialConfig(states[|actions|].cfg)
    ensures WorkDone(1, Job(2, 0, 200)) in states[|actions|].replies
  {
    TwoJobs();
    states, actions := [Fresh(Config(1, 10, false, false))], [];
    states, actions := SubmitRun(states, actions, Job(1, 0, 100));
    states, actions := SubmitRun(states, actions, Job(2, 0, 200));
    assert states[|actions|].sh.jobs == [Job(1, 0, 100), Job(2, 0, 200)];
    states, actions := CancelRun(states, actions, 100);
    states, actions := ServeRun(states, actions);
    var replies := states[|actions|].replies;
    assert replies[|replies| - 1] == WorkDone(1, Job(2, 0, 200));
  }
}
