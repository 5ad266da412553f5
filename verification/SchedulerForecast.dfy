/** One device: which client will be sent which work is settled by the order of the
    tasks and the order of the queued jobs, as soon as submissions, cancellations and
    clears cease. */
module SchedulerForecast {
  import opened Jobs
  import opened Tally
  import opened Scheduler
  import opened SchedulerExclusion
  import opened SchedulerLedger
  import opened SchedulerSafety
  import opened SchedulerProgress
  import opened SchedulerOrder

  /** The client of request `owner` is sent the work of job `id`. */
  datatype Delivery = Delivery(owner: nat, id: nat)

  function DeliveryOf(reply: Reply): seq<Delivery> {
    if reply.WorkDone? then [Delivery(reply.owner, reply.job.id)] else []
  }

  /** The work sent so far. */
  function Delivered(replies: seq<Reply>): seq<Delivery> {
    if replies == [] then [] else Delivered(replies[..|replies| - 1]) + DeliveryOf(replies[|replies| - 1])
  }

  function Ahead(pc: Worker): seq<Delivery> {
    match pc
    case PoppedUnlock(owner, job) => [Delivery(owner, job.id)]
    case Scanning(owner, job, _) => [Delivery(owner, job.id)]
    case AwaitInsert(owner, job, _) => [Delivery(owner, job.id)]
    case Inserting(owner, job, _) => [Delivery(owner, job.id)]
    case Inserted(owner, job, _) => [Delivery(owner, job.id)]
    case Working(owner, job, _) => [Delivery(owner, job.id)]
    case _ => []
  }

  /** Tasks and jobs in order; tasks left over find no job. */
  function Pair(tasks: seq<nat>, jobs: seq<Job>): seq<Delivery> {
    if tasks == [] || jobs == [] then [] else [Delivery(tasks[0], jobs[0].id)] + Pair(tasks[1..], jobs[1..])
  }

  /** The tasks still to pop, in order. */
  function Line(s: State): seq<nat>
    requires |s.workers| == 1
  {
    Taken(s.workers[0]) + s.sh.tasks
  }

  /** The work still to be sent. */
  function Forecast(s: State): seq<Delivery>
    requires |s.workers| == 1
  {
    Ahead(s.workers[0]) + Pair(Line(s), s.sh.jobs)
  }

  /** The thread will change neither the queue nor the tasks. */
  predicate Passive(pc: Io) {
    !pc.AwaitPush? && !pc.TestLimit? && !BeforePost(pc) && !Removing(pc)
  }

  ghost predicate Calm(s: State) {
    |s.workers| == 1 && forall k :: 0 <= k < |s.io| ==> Passive(s.io[k])
  }

  predicate CalmAction(a: Action) {
    match a
    case Begin(_, request) => !request.Generate? && !request.Cancel? && !request.Clear?
    case Take(_, i) => i == 0
    case _ => true
  }

  predicate ShowsNoWork(says: Says) {
    says.Says? ==> !says.reply.WorkDone?
  }

  lemma DeliveredAppend(replies: seq<Reply>, says: Says)
    ensures
      Delivered(Replied(replies, says)) ==
      Delivered(replies) + Sent(says)
  {
  }

  lemma IoPassive(cfg: Config, me: Thread, pc: Io, sh: Shared, log: Log)
    requires IoEnabled(pc, sh) && Passive(pc)
    ensures
      var o := IoNext(cfg, me, pc, sh, log);
      Passive(o.pc) && o.sh.jobs == sh.jobs && o.sh.tasks == sh.tasks && ShowsNoWork(o.says)
  {
  }

  function Sent(says: Says): seq<Delivery> {
    if says.Says? then DeliveryOf(says.reply) else []
  }

  /** A step of the pool thread keeps what it has ahead, or delivers it. */
  lemma WorkerDelivers(me: Thread, pc: Worker, sh: Shared, log: Log)
    requires WorkerEnabled(pc, sh) && WorkerInRange(pc, |sh.busy|) && Position(pc) < |sh.busy|
    requires !pc.TestEmpty?
    ensures
      var o := WorkerNext(me, pc, sh, log);
      && o.sh.tasks == sh.tasks && o.sh.jobs == sh.jobs && Taken(o.pc) == Taken(pc)
      && Sent(o.says) + Ahead(o.pc) == Ahead(pc)
  {
  }

  /** A pop pairs the next task with the next job. */
  lemma PopPairs(owner: nat, tasks: seq<nat>, jobs: seq<Job>)
    ensures
      Pair([owner] + tasks, jobs) ==
      if jobs == [] then [] else [Delivery(owner, jobs[0].id)] + Pair(tasks, jobs[1..])
  {
    assert ([owner] + tasks)[1..] == tasks;
  }

  lemma PopForecast(me: Thread, owner: nat, sh: Shared, log: Log)
    ensures
      var o := WorkerNext(me, TestEmpty(owner), sh, log);
      && o.sh.tasks == sh.tasks && Taken(o.pc) == [] && Sent(o.says) == []
      && Ahead(o.pc) + Pair(sh.tasks, o.sh.jobs) == Pair([owner] + sh.tasks, sh.jobs)
  {
    PopPairs(owner, sh.tasks, sh.jobs);
  }

  lemma WorkerForecast(me: Thread, pc: Worker, sh: Shared, log: Log)
    requires WorkerEnabled(pc, sh) && WorkerInRange(pc, |sh.busy|) && Position(pc) < |sh.busy|
    ensures
      var o := WorkerNext(me, pc, sh, log);
      && Sent(o.says) + (Ahead(o.pc) + Pair(Taken(o.pc) + o.sh.tasks, o.sh.jobs))
         == Ahead(pc) + Pair(Taken(pc) + sh.tasks, sh.jobs)
  {
    var o := WorkerNext(me, pc, sh, log);
    if pc.TestEmpty? {
      PopForecast(me, pc.owner, sh, log);
      assert [] + sh.tasks == sh.tasks;
    } else {
      WorkerDelivers(me, pc, sh, log);
      var rest := Pair(Taken(pc) + sh.tasks, sh.jobs);
      assert Sent(o.says) + (Ahead(o.pc) + rest) == Sent(o.says) + Ahead(o.pc) + rest;
    }
  }

  lemma IoForecastStep(s: State, k: nat)
    requires WellFormed(s) && Calm(s) && Enabled(s, IoRun(k))
    ensures
      var r := Apply(s, IoRun(k));
      Calm(r) && Delivered(r.replies) == Delivered(s.replies) && Forecast(r) == Forecast(s)
  {
    var o := IoNext(s.cfg, IoThread(k), s.io[k], s.sh, s.log);
    IoPassive(s.cfg, IoThread(k), s.io[k], s.sh, s.log);
    DeliveredAppend(s.replies, o.says);
  }

  lemma TakeForecastStep(s: State)
    requires WellFormed(s) && Calm(s) && Enabled(s, Take(0, 0))
    ensures
      var r := Apply(s, Take(0, 0));
      Calm(r) && Delivered(r.replies) == Delivered(s.replies) && Forecast(r) == Forecast(s)
  {
    var r := Apply(s, Take(0, 0));
    assert s.sh.tasks[..0] + s.sh.tasks[1..] == s.sh.tasks[1..];
    assert Line(r) == [s.sh.tasks[0]] + s.sh.tasks[1..] == Line(s);
  }

  lemma WorkerStepShape(s: State)
    requires WellFormed(s) && Calm(s) && Enabled(s, WorkerRun(0))
    ensures
      var r, o := Apply(s, WorkerRun(0)), WorkerNext(PoolThread(0), s.workers[0], s.sh, s.log);
      && Calm(r) && Delivered(r.replies) == Delivered(s.replies) + Sent(o.says)
      && Forecast(r) == Ahead(o.pc) + Pair(Taken(o.pc) + o.sh.tasks, o.sh.jobs)
  {
    var o := WorkerNext(PoolThread(0), s.workers[0], s.sh, s.log);
    DeliveredAppend(s.replies, o.says);
  }

  lemma Regroup(before: seq<Delivery>, sent: seq<Delivery>, later: seq<Delivery>, now: seq<Delivery>)
    requires sent + later == now
    ensures before + sent + later == before + now
  {
  }

  lemma WorkerForecastStep(s: State)
    requires WellFormed(s) && ScanRoom(s) && Calm(s) && Enabled(s, WorkerRun(0))
    ensures
      var r := Apply(s, WorkerRun(0));
      Calm(r) && Delivered(r.replies) + Forecast(r) == Delivered(s.replies) + Forecast(s)
  {
    var r, o := Apply(s, WorkerRun(0)), WorkerNext(PoolThread(0), s.workers[0], s.sh, s.log);
    ScanFindsDevice(s, 0);
    WorkerStepShape(s);
    WorkerForecast(PoolThread(0), s.workers[0], s.sh, s.log);
    Regroup(Delivered(s.replies), Sent(o.says), Forecast(r), Forecast(s));
  }

  lemma ForecastStep(s: State, a: Action)
    requires WellFormed(s) && ScanRoom(s) && Calm(s) && Enabled(s, a) && CalmAction(a)
    ensures
      var r := Apply(s, a);
      Calm(r) && Delivered(r.replies) + Forecast(r) == Delivered(s.replies) + Forecast(s)
  {
    match a
    case Begin(_, _) =>
    case IoRun(k) => IoForecastStep(s, k);
    case Take(_, _) => TakeForecastStep(s);
    case WorkerRun(_) => WorkerForecastStep(s);
  }

  /** From `n` on nothing is submitted, cancelled or cleared, and tasks are taken in
      order. */
  ghost predicate CalmFrom(states: seq<State>, actions: seq<Action>, n: nat)
    requires n <= |actions| < |states|
  {
    Calm(states[n]) && forall i :: n <= i < |actions| ==> CalmAction(actions[i])
  }

  /** What has been sent, followed by the forecast, stays the same. */
  lemma {:induction false} ForecastHolds(states: seq<State>, actions: seq<Action>)
    requires Steps(states, actions) && Inv(states[0]) && CalmFrom(states, actions, 0)
    ensures Inv(states[|actions|]) && Calm(states[|actions|])
    ensures
      var s, r := states[0], states[|actions|];
      Delivered(r.replies) + Forecast(r) == Delivered(s.replies) + Forecast(s)
    decreases |actions|
  {
    if |actions| > 0 {
      var n := |actions| - 1;
      ForecastHolds(states[..|actions|], actions[..n]);
      StepInv(states[n], actions[n]);
      ForecastStep(states[n], actions[n]);
    }
  }

  lemma ForecastAtEnd(states: seq<State>, actions: seq<Action>)
    requires Steps(states, actions) && Inv(states[0]) && CalmFrom(states, actions, 0) && Quiescent(states[|actions|])
    ensures Delivered(states[|actions|].replies) == Delivered(states[0].replies) + Forecast(states[0])
  {
    ForecastHolds(states, actions);
    assert Forecast(states[|actions|]) == [];
  }

  lemma RunSuffix(states: seq<State>, actions: seq<Action>, n: nat)
    requires Run(states, actions) && n <= |actions|
    ensures Steps(states[n..], actions[n..]) && Inv(states[n])
  {
    RunInv(states, actions, n);
  }

  /** At the end exactly the forecast has been sent. */
  lemma ForecastComesTrue(states: seq<State>, actions: seq<Action>, n: nat)
    requires Run(states, actions) && n <= |actions| && CalmFrom(states, actions, n) && Quiescent(states[|actions|])
    ensures Delivered(states[|actions|].replies) == Delivered(states[n].replies) + Forecast(states[n])
  {
    RunSuffix(states, actions, n);
    ForecastAtEnd(states[n..], actions[n..]);
  }

  // ------------------------------------------------------------- own work or not

  predicate AllOwn(deliveries: seq<Delivery>) {
    deliveries == [] || (deliveries[0].owner == deliveries[0].id && AllOwn(deliveries[1..]))
  }

  lemma {:induction false} AllOwnAppend(a: seq<Delivery>, b: seq<Delivery>)
    ensures AllOwn(a + b) <==> AllOwn(a) && AllOwn(b)
  {
    if a == [] {
      assert a + b == b;
    } else {
      assert (a + b)[1..] == a[1..] + b;
      AllOwnAppend(a[1..], b);
    }
  }

  lemma {:induction false} PairOwnIff(tasks: seq<nat>, jobs: seq<Job>)
    requires |jobs| <= |tasks|
    ensures AllOwn(Pair(tasks, jobs)) <==> JobIds(jobs) <= tasks
  {
    if jobs != [] {
      PairOwnIff(tasks[1..], jobs[1..]);
      assert Pair(tasks, jobs)[1..] == Pair(tasks[1..], jobs[1..]);
      PrefixStep(jobs[0].id, JobIds(jobs[1..]), tasks);
    }
  }

  lemma PrefixStep(id: nat, ids: seq<nat>, tasks: seq<nat>)
    requires tasks != []
    ensures [id] + ids <= tasks <==> id == tasks[0] && ids <= tasks[1..]
  {
    assert tasks == [tasks[0]] + tasks[1..];
    assert ([id] + ids)[1..] == ids;
    if [id] + ids <= tasks {
      assert [id] + ids == tasks[..|ids| + 1];
      assert tasks[..|ids| + 1][1..] == tasks[1..][..|ids|];
    }
  }

  lemma AheadOwnIff(pc: Worker)
    ensures AllOwn(Ahead(pc)) <==> OwnJob(pc)
  {
  }

  lemma JobsWithinLine(s: State)
    requires Inv(s) && Calm(s)
    ensures |s.sh.jobs| <= |Line(s)|
  {
    CountNone(s.io, BeforePost);
    assert Count(s.workers, BeforePop) == |Taken(s.workers[0])|;
  }

  /** With one device and tasks taken in order, once nothing is submitted, cancelled or
      cleared any more: all work still to be sent goes to its own requester exactly
      when the thread has its requester's job in hand, if any, and the queued jobs in
      queue order are those of the next tasks in task order. */
  lemma OwnWorkIff(states: seq<State>, actions: seq<Action>, n: nat)
    requires Run(states, actions) && n <= |actions| && CalmFrom(states, actions, n) && Quiescent(states[|actions|])
    ensures Delivered(states[n].replies) <= Delivered(states[|actions|].replies)
    ensures
      AllOwn(Delivered(states[|actions|].replies)[|Delivered(states[n].replies)|..]) <==>
      OwnJob(states[n].workers[0]) && JobIds(states[n].sh.jobs) <= Line(states[n])
  {
    var s := states[n];
    ForecastComesTrue(states, actions, n);
    RunInv(states, actions, n);
    JobsWithinLine(s);
    PairOwnIff(Line(s), s.sh.jobs);
    AllOwnAppend(Ahead(s.workers[0]), Pair(Line(s), s.sh.jobs));
    AheadOwnIff(s.workers[0]);
  }
}
