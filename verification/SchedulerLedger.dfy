/** The ledgers of the scheduler: where every job is, where every request is, and
    the balance between tasks and queued jobs. */
module SchedulerLedger {
  import opened Jobs
  import opened Tally
  import opened Scheduler
  import opened SchedulerExclusion

  // ------------------------------------------------------------ where jobs are

  /** A pool thread has `x` in hand from popping it until it records it as completed. */
  predicate InHand(pc: Worker, x: Job) {
    match pc
    case PoppedUnlock(_, job) => job == x
    case Scanning(_, job, _) => job == x
    case AwaitInsert(_, job, _) => job == x
    case Inserting(_, job, _) => job == x
    case Inserted(_, job, _) => job == x
    case Working(_, job, _) => job == x
    case Releasing(job, _) => job == x
    case AwaitErase(job) => job == x
    case AwaitRecord(job) => job == x
    case Erasing(job) => job == x
    case Recording(job) => job == x
    case _ => false
  }

  /** A request thread has constructed `x` and neither pushed nor refused it. */
  predicate Unpushed(pc: Io, x: Job) {
    match pc
    case RejectMissing(job) => job == x
    case AwaitPush(job) => job == x
    case TestLimit(job) => job == x
    case OverLimit(job) => job == x
    case RejectLimit(job) => job == x
    case _ => false
  }

  function HasInHand(x: Job): Worker -> bool { (pc: Worker) => InHand(pc, x) }

  function HasUnpushed(x: Job): Io -> bool { (pc: Io) => Unpushed(pc, x) }

  /** The places of job `x` outside the threads. */
  function StoredPlaces(sh: Shared, log: Log, x: Job): nat {
    multiset(log.rejected)[x] + multiset(sh.jobs)[x] + multiset(log.finished)[x]
    + multiset(log.cancelled)[x] + multiset(log.cleared)[x]
  }

  /** In how many places job `x` is. */
  function Places(s: State, x: Job): nat {
    Count(s.io, HasUnpushed(x)) + Count(s.workers, HasInHand(x)) + StoredPlaces(s.sh, s.log, x)
  }

  /** Ids are dispensed in order, starting from 1. */
  ghost predicate IdsDispensed(s: State) {
    && s.sh.nextId == |s.log.dispensed| + 1
    && forall i :: 0 <= i < |s.log.dispensed| ==> s.log.dispensed[i].id == i + 1
  }

  /** Jobs are neither lost nor duplicated: each is in as many places as it was
      dispensed, which is one. */
  ghost predicate JobsConserved(s: State) {
    forall x :: Places(s, x) == multiset(s.log.dispensed)[x]
  }

  lemma WorkerDispensesNothing(me: Thread, pc: Worker, sh: Shared, log: Log)
    requires WorkerEnabled(pc, sh) && WorkerInRange(pc, |sh.busy|)
    ensures
      var o := WorkerNext(me, pc, sh, log);
      o.log.dispensed == log.dispensed && o.sh.nextId == sh.nextId && o.sh.tasks == sh.tasks
  {
  }

  lemma IoDispensesNothing(cfg: Config, me: Thread, pc: Io, sh: Shared, log: Log)
    requires IoEnabled(pc, sh)
    ensures
      var o := IoNext(cfg, me, pc, sh, log);
      o.log.dispensed == log.dispensed && o.sh.nextId == sh.nextId && (pc.Posting? || o.sh.tasks == sh.tasks)
  {
  }

  lemma WorkerLeavesStores(me: Thread, pc: Worker, sh: Shared, log: Log, x: Job)
    requires WorkerEnabled(pc, sh) && WorkerInRange(pc, |sh.busy|) && Position(pc) < |sh.busy|
    requires !pc.TestEmpty? && !pc.Recording?
    ensures
      var o := WorkerNext(me, pc, sh, log);
      o.sh.jobs == sh.jobs && o.log == log && InHand(o.pc, x) == InHand(pc, x)
  {
  }

  lemma WorkerKeepsPlaces(me: Thread, pc: Worker, sh: Shared, log: Log, x: Job)
    requires WorkerEnabled(pc, sh) && WorkerInRange(pc, |sh.busy|) && Position(pc) < |sh.busy|
    ensures
      var o := WorkerNext(me, pc, sh, log);
      StoredPlaces(o.sh, o.log, x) + One(InHand(o.pc, x)) == StoredPlaces(sh, log, x) + One(InHand(pc, x))
  {
    if !pc.TestEmpty? && !pc.Recording? {
      WorkerLeavesStores(me, pc, sh, log, x);
    } else if pc.TestEmpty? && sh.jobs != [] {
      assert sh.jobs == [sh.jobs[0]] + sh.jobs[1..];
    }
  }

  lemma PushKeepsPlaces(cfg: Config, me: Thread, job: Job, sh: Shared, log: Log, x: Job)
    ensures
      var o := IoNext(cfg, me, TestLimit(job), sh, log);
      StoredPlaces(o.sh, o.log, x) + One(Unpushed(o.pc, x)) == StoredPlaces(sh, log, x) + One(job == x)
  {
    InsertMultiplicity(sh.jobs, job, x);
  }

  lemma CancelKeepsPlaces(cfg: Config, me: Thread, hash: nat, sh: Shared, log: Log, x: Job)
    ensures
      var o := IoNext(cfg, me, Cancelling(hash), sh, log);
      StoredPlaces(o.sh, o.log, x) == StoredPlaces(sh, log, x)
  {
    RemoveMultiplicity(sh.jobs, hash, x);
  }

  lemma RefuseKeepsPlaces(cfg: Config, me: Thread, pc: Io, sh: Shared, log: Log, x: Job)
    requires pc.RejectMissing? || pc.RejectLimit? || pc.Clearing?
    ensures
      var o := IoNext(cfg, me, pc, sh, log);
      StoredPlaces(o.sh, o.log, x) + One(Unpushed(o.pc, x)) == StoredPlaces(sh, log, x) + One(Unpushed(pc, x))
  {
  }

  lemma IoLeavesStores(cfg: Config, me: Thread, pc: Io, sh: Shared, log: Log, x: Job)
    requires IoEnabled(pc, sh)
    requires !pc.TestLimit? && !pc.Cancelling? && !pc.Clearing? && !pc.RejectMissing? && !pc.RejectLimit?
    ensures
      var o := IoNext(cfg, me, pc, sh, log);
      o.sh.jobs == sh.jobs && o.log == log && Unpushed(o.pc, x) == Unpushed(pc, x)
  {
  }

  lemma IoKeepsPlaces(cfg: Config, me: Thread, pc: Io, sh: Shared, log: Log, x: Job)
    requires IoEnabled(pc, sh)
    ensures
      var o := IoNext(cfg, me, pc, sh, log);
      StoredPlaces(o.sh, o.log, x) + One(Unpushed(o.pc, x)) == StoredPlaces(sh, log, x) + One(Unpushed(pc, x))
  {
    if pc.TestLimit? {
      PushKeepsPlaces(cfg, me, pc.job, sh, log, x);
    } else if pc.Cancelling? {
      CancelKeepsPlaces(cfg, me, pc.hash, sh, log, x);
    } else if pc.RejectMissing? || pc.RejectLimit? || pc.Clearing? {
      RefuseKeepsPlaces(cfg, me, pc, sh, log, x);
    } else {
      IoLeavesStores(cfg, me, pc, sh, log, x);
    }
  }

  lemma BeginKeepsPlaces(cfg: Config, request: Request, sh: Shared, log: Log, x: Job)
    ensures
      var o := IoBegin(cfg, request, sh, log);
      && StoredPlaces(o.sh, o.log, x) == StoredPlaces(sh, log, x)
      && multiset(o.log.dispensed)[x] == multiset(log.dispensed)[x] + One(Unpushed(o.pc, x))
  {
  }

  lemma IdsDispensedStep(s: State, a: Action)
    requires WellFormed(s) && Enabled(s, a) && IdsDispensed(s)
    ensures IdsDispensed(Apply(s, a))
  {
    match a
    case Begin(k, request) =>
    case IoRun(k) => IoDispensesNothing(s.cfg, IoThread(k), s.io[k], s.sh, s.log);
    case Take(t, _) =>
    case WorkerRun(t) => WorkerDispensesNothing(PoolThread(t), s.workers[t], s.sh, s.log);
  }

  lemma IoJobPlaces(s: State, k: nat, x: Job)
    requires WellFormed(s) && Enabled(s, IoRun(k))
    ensures Places(Apply(s, IoRun(k)), x) == Places(s, x)
    ensures Apply(s, IoRun(k)).log.dispensed == s.log.dispensed
  {
    CountUpdate(s.io, k, IoNext(s.cfg, IoThread(k), s.io[k], s.sh, s.log).pc, HasUnpushed(x));
    IoDispensesNothing(s.cfg, IoThread(k), s.io[k], s.sh, s.log);
    IoKeepsPlaces(s.cfg, IoThread(k), s.io[k], s.sh, s.log, x);
  }

  lemma WorkerJobPlaces(s: State, t: nat, x: Job)
    requires WellFormed(s) && Enabled(s, WorkerRun(t)) && ScanRoom(s)
    ensures Places(Apply(s, WorkerRun(t)), x) == Places(s, x)
    ensures Apply(s, WorkerRun(t)).log.dispensed == s.log.dispensed
  {
    ScanFindsDevice(s, t);
    CountUpdate(s.workers, t, WorkerNext(PoolThread(t), s.workers[t], s.sh, s.log).pc, HasInHand(x));
    WorkerDispensesNothing(PoolThread(t), s.workers[t], s.sh, s.log);
    WorkerKeepsPlaces(PoolThread(t), s.workers[t], s.sh, s.log, x);
  }

  lemma JobPlacesStep(s: State, a: Action, x: Job)
    requires WellFormed(s) && Enabled(s, a) && ScanRoom(s) && Places(s, x) == multiset(s.log.dispensed)[x]
    ensures Places(Apply(s, a), x) == multiset(Apply(s, a).log.dispensed)[x]
  {
    match a
    case Begin(k, request) =>
      CountUpdate(s.io, k, IoBegin(s.cfg, request, s.sh, s.log).pc, HasUnpushed(x));
      BeginKeepsPlaces(s.cfg, request, s.sh, s.log, x);
    case IoRun(k) => IoJobPlaces(s, k, x);
    case Take(t, i) => CountUpdate(s.workers, t, AwaitJobs(s.sh.tasks[i]), HasInHand(x));
    case WorkerRun(t) => WorkerJobPlaces(s, t, x);
  }

  lemma JobsConservedStep(s: State, a: Action)
    requires WellFormed(s) && Enabled(s, a) && ScanRoom(s) && JobsConserved(s)
    ensures JobsConserved(Apply(s, a))
  {
    forall x
      ensures Places(Apply(s, a), x) == multiset(Apply(s, a).log.dispensed)[x]
    {
      JobPlacesStep(s, a, x);
    }
  }

  lemma {:induction false} DispensedOnce(dispensed: seq<Job>, x: Job)
    requires forall i :: 0 <= i < |dispensed| ==> dispensed[i].id == i + 1
    ensures multiset(dispensed)[x] <= 1
    ensures x in multiset(dispensed) ==> 1 <= x.id <= |dispensed| && dispensed[x.id - 1] == x
  {
    if dispensed != [] {
      var n := |dispensed| - 1;
      assert dispensed == dispensed[..n] + [dispensed[n]];
      DispensedOnce(dispensed[..n], x);
    }
  }

  /** No two jobs anywhere carry the same id. */
  lemma IdDeterminesJob(s: State, x: Job, y: Job)
    requires IdsDispensed(s) && JobsConserved(s) && Places(s, x) > 0 && Places(s, y) > 0 && x.id == y.id
    ensures x == y && Places(s, x) == 1
  {
    assert Places(s, x) == multiset(s.log.dispensed)[x] && Places(s, y) == multiset(s.log.dispensed)[y];
    DispensedOnce(s.log.dispensed, x);
    DispensedOnce(s.log.dispensed, y);
  }

  // -------------------------------------------------------- where requests are

  /** A pool thread has a task of request `q` and has not answered it. */
  predicate Serving(pc: Worker, q: nat) {
    match pc
    case AwaitJobs(owner) => owner == q
    case TestEmpty(owner) => owner == q
    case PoppedUnlock(owner, _) => owner == q
    case Scanning(owner, _, _) => owner == q
    case AwaitInsert(owner, _, _) => owner == q
    case Inserting(owner, _, _) => owner == q
    case Inserted(owner, _, _) => owner == q
    case Working(owner, _, _) => owner == q
    case _ => false
  }

  /** A request thread has neither refused request `q` nor posted a task for it. */
  predicate Owing(pc: Io, q: nat) {
    match pc
    case PushedUnlock(job) => job.id == q
    case Posting(job) => job.id == q
    case RejectMissing(job) => job.id == q
    case AwaitPush(job) => job.id == q
    case TestLimit(job) => job.id == q
    case OverLimit(job) => job.id == q
    case RejectLimit(job) => job.id == q
    case _ => false
  }

  predicate Answers(reply: Reply, q: nat) {
    match reply
    case MissingHash(owner) => owner == q
    case LimitExceeded(owner) => owner == q
    case WorkDone(owner, _) => owner == q
    case NoJobsAvailable(owner) => owner == q
    case NoAvailableDevices(owner) => owner == q
    case _ => false
  }

  function IsServing(q: nat): Worker -> bool { (pc: Worker) => Serving(pc, q) }

  function IsOwing(q: nat): Io -> bool { (pc: Io) => Owing(pc, q) }

  function IsAnswer(q: nat): Reply -> bool { (reply: Reply) => Answers(reply, q) }

  /** In how many places request `q` is. */
  function RequestPlaces(s: State, q: nat): nat {
    Count(s.io, IsOwing(q)) + multiset(s.sh.tasks)[q] + Count(s.workers, IsServing(q)) + Count(s.replies, IsAnswer(q))
  }

  /** Every request with a dispensed id is in one place: still with its request
      thread, posted, being served, or answered. */
  ghost predicate RequestsConserved(s: State) {
    forall q: nat :: RequestPlaces(s, q) == One(1 <= q < s.sh.nextId)
  }

  predicate SaysAnswer(says: Says, q: nat) {
    says.Says? && Answers(says.reply, q)
  }

  lemma RepliedCount(replies: seq<Reply>, says: Says, p: Reply -> bool)
    ensures Count(Replied(replies, says), p) == Count(replies, p) + One(says.Says? && p(says.reply))
  {
    if says.Says? {
      CountAppend(replies, says.reply, p);
    }
  }

  lemma WorkerKeepsRequests(me: Thread, pc: Worker, sh: Shared, log: Log, q: nat)
    requires WorkerEnabled(pc, sh) && WorkerInRange(pc, |sh.busy|)
    ensures
      var o := WorkerNext(me, pc, sh, log);
      One(Serving(pc, q)) == One(Serving(o.pc, q)) + One(SaysAnswer(o.says, q))
  {
  }

  lemma IoKeepsRequests(cfg: Config, me: Thread, pc: Io, sh: Shared, log: Log, q: nat)
    requires IoEnabled(pc, sh) && !pc.Posting?
    ensures
      var o := IoNext(cfg, me, pc, sh, log);
      One(Owing(pc, q)) == One(Owing(o.pc, q)) + One(SaysAnswer(o.says, q))
  {
  }

  lemma BeginKeepsRequests(cfg: Config, request: Request, sh: Shared, log: Log, q: nat)
    ensures
      var o := IoBegin(cfg, request, sh, log);
      && o.sh.tasks == sh.tasks && o.says == Silent
      && One(Owing(o.pc, q)) == One(sh.nextId <= q < o.sh.nextId)
  {
  }

  lemma IoRequestPlaces(s: State, k: nat, q: nat)
    requires WellFormed(s) && Enabled(s, IoRun(k))
    ensures RequestPlaces(Apply(s, IoRun(k)), q) == RequestPlaces(s, q)
  {
    var o := IoNext(s.cfg, IoThread(k), s.io[k], s.sh, s.log);
    CountUpdate(s.io, k, o.pc, IsOwing(q));
    RepliedCount(s.replies, o.says, IsAnswer(q));
    IoDispensesNothing(s.cfg, IoThread(k), s.io[k], s.sh, s.log);
    if s.io[k].Posting? {
      assert multiset(o.sh.tasks) == multiset(s.sh.tasks) + multiset{s.io[k].job.id};
    } else {
      IoKeepsRequests(s.cfg, IoThread(k), s.io[k], s.sh, s.log, q);
    }
  }

  lemma WorkerRequestPlaces(s: State, t: nat, q: nat)
    requires WellFormed(s) && Enabled(s, WorkerRun(t))
    ensures RequestPlaces(Apply(s, WorkerRun(t)), q) == RequestPlaces(s, q)
  {
    var o := WorkerNext(PoolThread(t), s.workers[t], s.sh, s.log);
    CountUpdate(s.workers, t, o.pc, IsServing(q));
    RepliedCount(s.replies, o.says, IsAnswer(q));
    WorkerDispensesNothing(PoolThread(t), s.workers[t], s.sh, s.log);
    WorkerKeepsRequests(PoolThread(t), s.workers[t], s.sh, s.log, q);
  }

  lemma TakeTask(tasks: seq<nat>, i: nat, q: nat)
    requires i < |tasks|
    ensures multiset(tasks)[q] == multiset(tasks[..i] + tasks[i + 1..])[q] + One(tasks[i] == q)
  {
    assert tasks == tasks[..i] + [tasks[i]] + tasks[i + 1..];
  }

  lemma BeginRequestPlaces(s: State, k: nat, request: Request, q: nat)
    requires WellFormed(s) && Enabled(s, Begin(k, request))
    ensures
      var r := Apply(s, Begin(k, request));
      RequestPlaces(r, q) == RequestPlaces(s, q) + One(s.sh.nextId <= q < r.sh.nextId)
  {
    CountUpdate(s.io, k, Apply(s, Begin(k, request)).io[k], IsOwing(q));
    BeginKeepsRequests(s.cfg, request, s.sh, s.log, q);
  }

  lemma TakeRequestPlaces(s: State, t: nat, i: nat, q: nat)
    requires WellFormed(s) && Enabled(s, Take(t, i))
    ensures RequestPlaces(Apply(s, Take(t, i)), q) == RequestPlaces(s, q)
  {
    CountUpdate(s.workers, t, AwaitJobs(s.sh.tasks[i]), IsServing(q));
    TakeTask(s.sh.tasks, i, q);
  }

  lemma RequestPlacesStep(s: State, a: Action, q: nat)
    requires WellFormed(s) && Enabled(s, a) && s.sh.nextId >= 1 && RequestPlaces(s, q) == One(1 <= q < s.sh.nextId)
    ensures RequestPlaces(Apply(s, a), q) == One(1 <= q < Apply(s, a).sh.nextId)
  {
    match a
    case Begin(k, request) => BeginRequestPlaces(s, k, request, q);
    case IoRun(k) =>
      IoRequestPlaces(s, k, q);
      IoDispensesNothing(s.cfg, IoThread(k), s.io[k], s.sh, s.log);
    case Take(t, i) => TakeRequestPlaces(s, t, i, q);
    case WorkerRun(t) =>
      WorkerRequestPlaces(s, t, q);
      WorkerDispensesNothing(PoolThread(t), s.workers[t], s.sh, s.log);
  }

  lemma RequestsConservedStep(s: State, a: Action)
    requires WellFormed(s) && Enabled(s, a) && RequestsConserved(s) && s.sh.nextId >= 1
    ensures RequestsConserved(Apply(s, a))
  {
    forall q: nat
      ensures RequestPlaces(Apply(s, a), q) == One(1 <= q < Apply(s, a).sh.nextId)
    {
      RequestPlacesStep(s, a, q);
    }
  }

  // -------------------------------------------------------------- work that was sent

  /** The work of job `x` was sent to some client. */
  function IsSent(x: Job): Reply -> bool { (reply: Reply) => reply.WorkDone? && reply.job == x }

  /** The thread has sent the work of `x` and not yet recorded it as completed. */
  predicate AfterWork(pc: Worker, x: Job) {
    match pc
    case Releasing(job, _) => job == x
    case AwaitErase(job) => job == x
    case AwaitRecord(job) => job == x
    case Erasing(job) => job == x
    case Recording(job) => job == x
    case _ => false
  }

  function IsAfterWork(x: Job): Worker -> bool { (pc: Worker) => AfterWork(pc, x) }

  /** Work was sent once for each job that is past its reply or finished. */
  ghost predicate WorkSent(s: State) {
    forall x :: Count(s.replies, IsSent(x)) == Count(s.workers, IsAfterWork(x)) + multiset(s.log.finished)[x]
  }

  lemma WorkerKeepsSent(me: Thread, pc: Worker, sh: Shared, log: Log, x: Job)
    requires WorkerEnabled(pc, sh) && WorkerInRange(pc, |sh.busy|)
    ensures
      var o := WorkerNext(me, pc, sh, log);
      One(o.says.Says? && IsSent(x)(o.says.reply)) + One(AfterWork(pc, x)) + multiset(log.finished)[x]
      == One(AfterWork(o.pc, x)) + multiset(o.log.finished)[x]
  {
  }

  lemma IoSendsNoWork(cfg: Config, me: Thread, pc: Io, sh: Shared, log: Log)
    requires IoEnabled(pc, sh)
    ensures
      var o := IoNext(cfg, me, pc, sh, log);
      (o.says.Says? ==> !o.says.reply.WorkDone?) && o.log.finished == log.finished
  {
  }

  lemma WorkSentOne(s: State, a: Action, x: Job)
    requires WellFormed(s) && Enabled(s, a)
    requires Count(s.replies, IsSent(x)) == Count(s.workers, IsAfterWork(x)) + multiset(s.log.finished)[x]
    ensures
      var r := Apply(s, a);
      Count(r.replies, IsSent(x)) == Count(r.workers, IsAfterWork(x)) + multiset(r.log.finished)[x]
  {
    match a
    case Begin(_, _) =>
    case IoRun(k) =>
      var o := IoNext(s.cfg, IoThread(k), s.io[k], s.sh, s.log);
      IoSendsNoWork(s.cfg, IoThread(k), s.io[k], s.sh, s.log);
      RepliedCount(s.replies, o.says, IsSent(x));
    case Take(t, i) =>
      CountUpdate(s.workers, t, AwaitJobs(s.sh.tasks[i]), IsAfterWork(x));
    case WorkerRun(t) =>
      var o := WorkerNext(PoolThread(t), s.workers[t], s.sh, s.log);
      WorkerKeepsSent(PoolThread(t), s.workers[t], s.sh, s.log, x);
      RepliedCount(s.replies, o.says, IsSent(x));
      CountUpdate(s.workers, t, o.pc, IsAfterWork(x));
  }

  lemma WorkSentStep(s: State, a: Action)
    requires WellFormed(s) && Enabled(s, a) && WorkSent(s)
    ensures WorkSent(Apply(s, a))
  {
    forall x
      ensures
        var r := Apply(s, a);
        Count(r.replies, IsSent(x)) == Count(r.workers, IsAfterWork(x)) + multiset(r.log.finished)[x]
    {
      WorkSentOne(s, a, x);
    }
  }

  // -------------------------------------------------------------- all the replies

  /** The thread serves a request it has neither answered nor passed on. */
  predicate OwesReply(pc: Io) {
    !pc.Ready? && !pc.ReportUnlockCompleted? && !pc.ReportUnlockActive?
  }

  predicate OwesWork(pc: Worker) {
    || pc.AwaitJobs? || pc.TestEmpty? || pc.PoppedUnlock? || pc.Scanning?
    || pc.AwaitInsert? || pc.Inserting? || pc.Inserted? || pc.Working?
  }

  /** The requests in progress, of whatever kind. */
  function Unanswered(s: State): nat {
    Count(s.io, OwesReply) + |s.sh.tasks| + Count(s.workers, OwesWork)
  }

  predicate IsBegin(a: Action) { a.Begin? }

  lemma WorkerAnswersOnce(me: Thread, pc: Worker, sh: Shared, log: Log)
    requires WorkerEnabled(pc, sh) && WorkerInRange(pc, |sh.busy|)
    ensures
      var o := WorkerNext(me, pc, sh, log);
      One(OwesWork(o.pc)) + One(o.says.Says?) == One(OwesWork(pc))
  {
  }

  lemma IoAnswersOnce(cfg: Config, me: Thread, pc: Io, sh: Shared, log: Log)
    requires IoEnabled(pc, sh)
    ensures
      var o := IoNext(cfg, me, pc, sh, log);
      One(OwesReply(o.pc)) + One(o.says.Says?) + |o.sh.tasks| == One(OwesReply(pc)) + |sh.tasks|
  {
  }

  lemma BeginOwes(cfg: Config, request: Request, sh: Shared, log: Log)
    ensures
      var o := IoBegin(cfg, request, sh, log);
      OwesReply(o.pc) && o.says.Silent? && o.sh.tasks == sh.tasks
  {
  }

  /** A step answers a request, passes it on or leaves it; only an arrival adds one. */
  lemma AnswersStep(s: State, a: Action)
    requires WellFormed(s) && Enabled(s, a)
    ensures
      var r := Apply(s, a);
      |r.replies| + Unanswered(r) == |s.replies| + Unanswered(s) + One(IsBegin(a))
  {
    match a
    case Begin(k, request) =>
      var o := IoBegin(s.cfg, request, s.sh, s.log);
      CountUpdate(s.io, k, o.pc, OwesReply);
      BeginOwes(s.cfg, request, s.sh, s.log);
    case IoRun(k) =>
      var o := IoNext(s.cfg, IoThread(k), s.io[k], s.sh, s.log);
      CountUpdate(s.io, k, o.pc, OwesReply);
      IoAnswersOnce(s.cfg, IoThread(k), s.io[k], s.sh, s.log);
    case Take(t, i) =>
      CountUpdate(s.workers, t, AwaitJobs(s.sh.tasks[i]), OwesWork);
    case WorkerRun(t) =>
      var o := WorkerNext(PoolThread(t), s.workers[t], s.sh, s.log);
      CountUpdate(s.workers, t, o.pc, OwesWork);
      WorkerAnswersOnce(PoolThread(t), s.workers[t], s.sh, s.log);
      WorkerDispensesNothing(PoolThread(t), s.workers[t], s.sh, s.log);
  }

  // ------------------------------------------------------ tasks and queued jobs

  /** The thread has a task with which it has not yet looked at the queue. */
  predicate BeforePop(pc: Worker) { pc.AwaitJobs? || pc.TestEmpty? }

  /** The thread has pushed a job and not yet posted the task. */
  predicate BeforePost(pc: Io) { pc.PushedUnlock? || pc.Posting? }

  predicate SaysNoJobs(reply: Reply) { reply.NoJobsAvailable? }

  /** The tasks still to pop, counting a request between its push and its post. */
  function ToPop(s: State): nat {
    |s.sh.tasks| + Count(s.workers, BeforePop) + Count(s.io, BeforePost)
  }

  function Removals(log: Log): nat { |log.cancelled| + |log.cleared| }

  /** Every removal from the queue leaves one task without a job, and every such
      task says so once. */
  ghost predicate TasksBalanced(s: State) {
    && ToPop(s) + Count(s.replies, SaysNoJobs) == |s.sh.jobs| + Removals(s.log)
    && ToPop(s) >= |s.sh.jobs|
  }

  lemma WorkerKeepsBalance(me: Thread, pc: Worker, sh: Shared, log: Log)
    requires WorkerEnabled(pc, sh) && WorkerInRange(pc, |sh.busy|)
    ensures
      var o := WorkerNext(me, pc, sh, log);
      var noJobs := o.says.Says? && SaysNoJobs(o.says.reply);
      && One(BeforePop(o.pc)) + One(noJobs) + |sh.jobs| == One(BeforePop(pc)) + |o.sh.jobs|
      && Removals(o.log) == Removals(log)
      && (noJobs ==> o.sh.jobs == [])
  {
  }

  lemma IoKeepsBalance(cfg: Config, me: Thread, pc: Io, sh: Shared, log: Log)
    requires IoEnabled(pc, sh)
    ensures
      var o := IoNext(cfg, me, pc, sh, log);
      && |o.sh.tasks| + One(BeforePost(o.pc)) + |sh.jobs| + Removals(log)
         == |sh.tasks| + One(BeforePost(pc)) + |o.sh.jobs| + Removals(o.log)
      && Removals(log) <= Removals(o.log)
      && !(o.says.Says? && SaysNoJobs(o.says.reply))
  {
    if pc.TestLimit? {
      InsertContents(sh.jobs, pc.job);
    } else if pc.Cancelling? {
      RemoveContents(sh.jobs, pc.hash);
    }
  }

  lemma IoTasksBalanced(s: State, k: nat)
    requires WellFormed(s) && Enabled(s, IoRun(k)) && TasksBalanced(s)
    ensures TasksBalanced(Apply(s, IoRun(k)))
  {
    var o := IoNext(s.cfg, IoThread(k), s.io[k], s.sh, s.log);
    CountUpdate(s.io, k, o.pc, BeforePost);
    RepliedCount(s.replies, o.says, SaysNoJobs);
    IoKeepsBalance(s.cfg, IoThread(k), s.io[k], s.sh, s.log);
  }

  lemma WorkerTasksBalanced(s: State, t: nat)
    requires WellFormed(s) && Enabled(s, WorkerRun(t)) && TasksBalanced(s)
    ensures TasksBalanced(Apply(s, WorkerRun(t)))
  {
    var o := WorkerNext(PoolThread(t), s.workers[t], s.sh, s.log);
    CountUpdate(s.workers, t, o.pc, BeforePop);
    RepliedCount(s.replies, o.says, SaysNoJobs);
    WorkerKeepsBalance(PoolThread(t), s.workers[t], s.sh, s.log);
    WorkerDispensesNothing(PoolThread(t), s.workers[t], s.sh, s.log);
  }

  lemma TasksBalancedStep(s: State, a: Action)
    requires WellFormed(s) && Enabled(s, a) && TasksBalanced(s)
    ensures TasksBalanced(Apply(s, a))
  {
    match a
    case Begin(k, _) => CountUpdate(s.io, k, Apply(s, a).io[k], BeforePost);
    case IoRun(k) => IoTasksBalanced(s, k);
    case Take(t, _) => CountUpdate(s.workers, t, Apply(s, a).workers[t], BeforePop);
    case WorkerRun(t) => WorkerTasksBalanced(s, t);
  }
}
