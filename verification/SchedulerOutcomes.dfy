/** What each request comes to: which reply it gets, what it does to the queue, and
    that the containers change only under their locks. */
module SchedulerOutcomes {
  import opened Jobs
  import opened Tally
  import opened Scheduler
  import opened SchedulerExclusion
  import opened SchedulerLedger
  import opened SchedulerContainers
  import opened SchedulerSafety

  /** The job of an accepted work request. */
  predicate IsJobOf(cfg: Config, hash: nat, priority: nat, id: nat, job: Job) {
    job.hash == hash && job.id == id && job.priority == (if cfg.allowPrioritization then priority else 0)
  }

  /** Exactly the jobs with this hash are gone, and `found` tells whether there were any. */
  ghost predicate TakenOut(hash: nat, found: bool, before: seq<Job>, after: seq<Job>) {
    && (forall x: Job :: multiset(after)[x] == if x.hash == hash then 0 else multiset(before)[x])
    && (found <==> exists x :: x in before && x.hash == hash)
  }

  /** Which reply a request gets from its own thread. `before` and `after` are the
      shared state around its critical step. An accepted work request gets none here:
      it is answered from the pool. */
  ghost predicate RightReply(cfg: Config, request: Request, id: nat, before: Shared, after: Shared, reply: Reply) {
    match request
    case Generate(_, _) =>
      if cfg.devices == 0 then reply == NoDeviceConfigured
      else reply == LimitExceeded(id) && |before.jobs| >= cfg.requestLimit && after.jobs == before.jobs
    case MalformedGenerate => reply == if cfg.devices == 0 then NoDeviceConfigured else MissingHash(id)
    case Cancel(hash) =>
      || (reply == Cancelled(hash) && TakenOut(hash, true, before.jobs, after.jobs))
      || (reply == HashNotFound(hash) && TakenOut(hash, false, before.jobs, after.jobs))
    case MalformedCancel => reply == CancelMissingHash
    case Clear =>
      if cfg.allowControl then reply == QueueCleared && after.jobs == [] else reply == ControlDenied
    case Report => reply.QueueReport?
  }

  /** The job of an accepted work request has been put in the queue, which had room. */
  ghost predicate Accepted(cfg: Config, request: Request, id: nat, before: Shared, after: Shared) {
    && request.Generate? && cfg.devices > 0 && |before.jobs| < cfg.requestLimit
    && exists job :: IsJobOf(cfg, request.hash, request.priority, id, job)
                  && multiset(after.jobs) == multiset(before.jobs) + multiset{job}
  }

  /** The steps at which a request reads or changes the queue. */
  predicate Critical(pc: Io) {
    pc.TestLimit? || pc.Cancelling? || pc.Clearing?
  }

  /** A thread at `pc` is serving `request`, and what its position says is true of the
      shared state around its critical step. */
  ghost predicate Serves(cfg: Config, request: Request, id: nat, before: Shared, after: Shared, pc: Io) {
    match pc
    case Ready => false
    case RefuseGenerate => cfg.devices == 0 && (request.Generate? || request.MalformedGenerate?)
    case RejectMissing(job) => cfg.devices > 0 && request.MalformedGenerate? && job.id == id
    case AwaitPush(job) => InSubmission(cfg, request, id, job)
    case TestLimit(job) => InSubmission(cfg, request, id, job)
    case OverLimit(job) =>
      InSubmission(cfg, request, id, job) && RightReply(cfg, request, id, before, after, LimitExceeded(id))
    case RejectLimit(job) =>
      InSubmission(cfg, request, id, job) && RightReply(cfg, request, id, before, after, LimitExceeded(id))
    case PushedUnlock(job) => InSubmission(cfg, request, id, job) && Accepted(cfg, request, id, before, after)
    case Posting(job) => InSubmission(cfg, request, id, job) && Accepted(cfg, request, id, before, after)
    case RefuseCancel => request.MalformedCancel?
    case AwaitCancel(hash) => request == Cancel(hash)
    case Cancelling(hash) => request == Cancel(hash)
    case CancelUnlock(hash, found) => request == Cancel(hash) && TakenOut(hash, found, before.jobs, after.jobs)
    case CancelReply(hash, found) => request == Cancel(hash) && TakenOut(hash, found, before.jobs, after.jobs)
    case RefuseClear => request.Clear? && !cfg.allowControl
    case AwaitClear => request.Clear? && cfg.allowControl
    case Clearing => request.Clear? && cfg.allowControl
    case ClearUnlock => request.Clear? && cfg.allowControl && after.jobs == []
    case ClearReply => request.Clear? && cfg.allowControl && after.jobs == []
    case ReportAwaitJobs => request.Report?
    case ReportAwaitActive => request.Report?
    case ReportAwaitCompleted => request.Report?
    case ReportCopy => request.Report?
    case ReportUnlockJobs(_) => request.Report?
    case ReportListActive(_) => request.Report?
    case ReportListCompleted(_, _) => request.Report?
    case ReportReply(_) => request.Report?
    case ReportUnlockCompleted => request.Report?
    case ReportUnlockActive => request.Report?
  }

  predicate InSubmission(cfg: Config, request: Request, id: nat, job: Job) {
    cfg.devices > 0 && request.Generate? && IsJobOf(cfg, request.hash, request.priority, id, job)
  }

  lemma BeginServes(cfg: Config, request: Request, sh: Shared, log: Log, before: Shared, after: Shared)
    ensures
      var o := IoBegin(cfg, request, sh, log);
      Serves(cfg, request, sh.nextId, before, after, o.pc) && o.says.Silent? && o.sh.jobs == sh.jobs
  {
  }

  lemma {:induction false} MatchingIff(jobs: seq<Job>, hash: nat)
    ensures Matching(jobs, hash) != [] <==> exists x :: x in jobs && x.hash == hash
  {
    if jobs != [] {
      MatchingIff(jobs[1..], hash);
      assert jobs == [jobs[0]] + jobs[1..];
    }
  }

  lemma RemoveTakesOut(jobs: seq<Job>, hash: nat)
    ensures TakenOut(hash, Matching(jobs, hash) != [], jobs, Remove(jobs, hash))
  {
    MatchingIff(jobs, hash);
    forall x: Job
      ensures multiset(Remove(jobs, hash))[x] == if x.hash == hash then 0 else multiset(jobs)[x]
    {
      RemoveMultiplicity(jobs, hash, x);
    }
  }

  lemma CancelTakesOut(cfg: Config, me: Thread, hash: nat, sh: Shared, log: Log)
    ensures
      var o := IoNext(cfg, me, Cancelling(hash), sh, log);
      o.pc.CancelUnlock? && o.pc.hash == hash && TakenOut(hash, o.pc.found, sh.jobs, o.sh.jobs)
  {
    RemoveTakesOut(sh.jobs, hash);
  }

  lemma LimitDecides(cfg: Config, me: Thread, request: Request, id: nat, job: Job, sh: Shared, log: Log)
    requires InSubmission(cfg, request, id, job)
    ensures
      var o := IoNext(cfg, me, TestLimit(job), sh, log);
      Serves(cfg, request, id, sh, o.sh, o.pc)
  {
    InsertContents(sh.jobs, job);
  }

  /** At a critical step the shared state around it is the current one. */
  lemma CriticalServes(cfg: Config, me: Thread, request: Request, id: nat, pc: Io, sh: Shared, log: Log,
                       before: Shared, after: Shared)
    requires IoEnabled(pc, sh) && Serves(cfg, request, id, before, after, pc) && Critical(pc)
    ensures
      var o := IoNext(cfg, me, pc, sh, log);
      Serves(cfg, request, id, sh, o.sh, o.pc) && o.says.Silent?
  {
    if pc.TestLimit? {
      LimitDecides(cfg, me, request, id, pc.job, sh, log);
    } else if pc.Cancelling? {
      CancelTakesOut(cfg, me, pc.hash, sh, log);
    }
  }

  /** Any other step goes on with the request or ends it, and then rightly. */
  lemma StepServes(cfg: Config, me: Thread, request: Request, id: nat, pc: Io, sh: Shared, log: Log,
                   before: Shared, after: Shared)
    requires IoEnabled(pc, sh) && Serves(cfg, request, id, before, after, pc) && !Critical(pc)
    ensures
      var o := IoNext(cfg, me, pc, sh, log);
      && (!o.pc.Ready? ==> Serves(cfg, request, id, before, after, o.pc))
      && (o.says.Says? ==> RightReply(cfg, request, id, before, after, o.says.reply))
      && (o.pc.Ready? && o.says.Silent? ==> pc.Posting? || pc.ReportUnlockActive?)
      && (pc.Posting? ==> o.says.Silent? && o.sh.tasks == sh.tasks + [id])
  {
  }

  /** Which step a position behind a critical step came by. */
  predicate CameBy(pc: Io, critical: Io) {
    match pc
    case OverLimit(_) => critical.TestLimit?
    case RejectLimit(_) => critical.TestLimit?
    case PushedUnlock(_) => critical.TestLimit?
    case Posting(_) => critical.TestLimit?
    case CancelUnlock(_, _) => critical.Cancelling?
    case CancelReply(_, _) => critical.Cancelling?
    case ClearUnlock => critical.Clearing?
    case ClearReply => critical.Clearing?
    case _ => true
  }

  lemma StepCameBy(cfg: Config, me: Thread, pc: Io, sh: Shared, log: Log, critical: Io)
    requires IoEnabled(pc, sh) && CameBy(pc, critical)
    ensures CameBy(IoNext(cfg, me, pc, sh, log).pc, if Critical(pc) then pc else critical)
  {
  }

  lemma BeginCameBy(cfg: Config, request: Request, sh: Shared, log: Log, critical: Io)
    ensures CameBy(IoBegin(cfg, request, sh, log).pc, critical)
  {
  }

  /** Thread `k` at instant `n` serves the request that arrived at `b`; `i` is its
      critical step, or still `b`. */
  ghost predicate Story(states: seq<State>, actions: seq<Action>, b: nat, i: nat, n: nat, k: nat)
    requires b <= i < n < |states| && n <= |actions|
  {
    && k < |states[b].io| && k < |states[i].io| && k < |states[n].io|
    && actions[b].Begin? && actions[b].k == k && (i > b ==> actions[i] == IoRun(k))
    && CameBy(states[n].io[k], states[i].io[k])
    && Serves(states[n].cfg, actions[b].request, states[b].sh.nextId, states[i].sh, states[i + 1].sh, states[n].io[k])
  }

  lemma StoryStarts(states: seq<State>, actions: seq<Action>, n: nat, k: nat)
    requires Run(states, actions) && n < |actions| && actions[n].Begin? && actions[n].k == k
    ensures Story(states, actions, n, n, n + 1, k)
  {
    var s, request := states[n], actions[n].request;
    assert Enabled(s, actions[n]) && states[n + 1] == Apply(s, actions[n]);
    BeginServes(s.cfg, request, s.sh, s.log, states[n].sh, states[n + 1].sh);
    BeginCameBy(s.cfg, request, s.sh, s.log, s.io[k]);
  }

  lemma StoryGoesOn(states: seq<State>, actions: seq<Action>, b: nat, i: nat, n: nat, k: nat)
    requires Run(states, actions) && b <= i < n < |actions| && Story(states, actions, b, i, n, k)
    requires k < |states[n + 1].io| && !states[n + 1].io[k].Ready?
    ensures
      var i' := if actions[n] == IoRun(k) && Critical(states[n].io[k]) then n else i;
      Story(states, actions, b, i', n + 1, k)
  {
    var s, r, pc := states[n], states[n + 1], states[n].io[k];
    assert Enabled(s, actions[n]) && r == Apply(s, actions[n]);
    if actions[n] == IoRun(k) {
      var request, id := actions[b].request, states[b].sh.nextId;
      StepCameBy(s.cfg, IoThread(k), pc, s.sh, s.log, states[i].io[k]);
      if Critical(pc) {
        CriticalServes(s.cfg, IoThread(k), request, id, pc, s.sh, s.log, states[i].sh, states[i + 1].sh);
      } else {
        StepServes(s.cfg, IoThread(k), request, id, pc, s.sh, s.log, states[i].sh, states[i + 1].sh);
      }
    } else {
      assert r.io[k] == pc;
    }
  }

  lemma StoryStep(states: seq<State>, actions: seq<Action>, b: nat, i: nat, n: nat, k: nat) returns (i': nat)
    requires Run(states, actions) && b <= i < n < |actions| && Story(states, actions, b, i, n, k)
    requires k < |states[n + 1].io| && !states[n + 1].io[k].Ready?
    ensures b <= i' <= n && Story(states, actions, b, i', n + 1, k)
  {
    StoryGoesOn(states, actions, b, i, n, k);
    i' := if actions[n] == IoRun(k) && Critical(states[n].io[k]) then n else i;
  }

  /** Thread `k` has been busy since the arrival `b`. */
  ghost predicate BusySince(states: seq<State>, actions: seq<Action>, b: nat, n: nat, k: nat)
    requires b < n < |states| && n <= |actions|
  {
    && actions[b].Begin? && actions[b].k == k
    && forall j :: b < j <= n ==> k < |states[j].io| && !states[j].io[k].Ready?
  }

  lemma {:induction false} Arrival(states: seq<State>, actions: seq<Action>, n: nat, k: nat) returns (b: nat)
    requires Run(states, actions) && n < |states| && k < |states[n].io| && !states[n].io[k].Ready?
    ensures b < n && BusySince(states, actions, b, n, k)
  {
    assert n > 0;
    var a := actions[n - 1];
    if a.Begin? && a.k == k {
      b := n - 1;
    } else {
      assert Enabled(states[n - 1], a) && states[n] == Apply(states[n - 1], a);
      NotReadyBefore(states[n - 1], a, k);
      b := Arrival(states, actions, n - 1, k);
    }
  }

  lemma NotReadyBefore(s: State, a: Action, k: nat)
    requires WellFormed(s) && Enabled(s, a) && k < |s.io| && !Apply(s, a).io[k].Ready?
    requires !(a.Begin? && a.k == k)
    ensures !s.io[k].Ready?
  {
  }

  lemma {:induction false} StorySince(states: seq<State>, actions: seq<Action>, b: nat, n: nat, k: nat) returns (i: nat)
    requires Run(states, actions) && b < n < |states| && BusySince(states, actions, b, n, k)
    ensures b <= i < n && Story(states, actions, b, i, n, k)
    decreases n
  {
    if n == b + 1 {
      i := b;
      StoryStarts(states, actions, b, k);
    } else {
      i := StorySince(states, actions, b, n - 1, k);
      i := StoryStep(states, actions, b, i, n - 1, k);
    }
  }

  /** Every thread that is not ready has a story. */
  lemma StoryOf(states: seq<State>, actions: seq<Action>, n: nat, k: nat) returns (b: nat, i: nat)
    requires Run(states, actions) && n < |states| && k < |states[n].io| && !states[n].io[k].Ready?
    ensures b <= i < n && Story(states, actions, b, i, n, k) && BusySince(states, actions, b, n, k)
  {
    b := Arrival(states, actions, n, k);
    i := StorySince(states, actions, b, n, k);
  }

  /** Each request gets the reply that is right for it: `b` is its arrival and `i` its
      own critical step, where it has one, after the arrival and before the reply. */
  lemma RequestGetsItsReply(states: seq<State>, actions: seq<Action>, n: nat, k: nat)
    returns (b: nat, i: nat, reply: Reply)
    requires Run(states, actions) && n < |actions| && actions[n] == IoRun(k)
    requires states[n + 1].replies != states[n].replies
    ensures b <= i < n && BusySince(states, actions, b, n, k)
    ensures states[n + 1].replies == states[n].replies + [reply]
    ensures RightReply(states[n].cfg, actions[b].request, states[b].sh.nextId, states[i].sh, states[i + 1].sh, reply)
    ensures reply.LimitExceeded? || reply.Cancelled? || reply.HashNotFound? || reply.QueueCleared? ==>
              b < i && actions[i] == IoRun(k) && Settles(states[i].io[k], reply)
  {
    var s, pc := states[n], states[n].io[k];
    assert Enabled(s, actions[n]) && states[n + 1] == Apply(s, actions[n]);
    b, i := StoryOf(states, actions, n, k);
    var o := IoNext(s.cfg, IoThread(k), pc, s.sh, s.log);
    var request, id := actions[b].request, states[b].sh.nextId;
    CriticalGoesOn(s.cfg, IoThread(k), pc, s.sh, s.log);
    StepServes(s.cfg, IoThread(k), request, id, pc, s.sh, s.log, states[i].sh, states[i + 1].sh);
    reply := o.says.reply;
    assert Enabled(states[b], actions[b]);
    ReplyCameBy(s.cfg, IoThread(k), pc, s.sh, s.log, states[i].io[k]);
  }

  /** The critical step that decides on a reply. */
  predicate Settles(critical: Io, reply: Reply) {
    match reply
    case LimitExceeded(_) => critical.TestLimit?
    case Cancelled(_) => critical.Cancelling?
    case HashNotFound(_) => critical.Cancelling?
    case QueueCleared => critical.Clearing?
    case _ => true
  }

  lemma ReplyCameBy(cfg: Config, me: Thread, pc: Io, sh: Shared, log: Log, critical: Io)
    requires IoEnabled(pc, sh) && CameBy(pc, critical)
    ensures
      var o := IoNext(cfg, me, pc, sh, log);
      o.says.Says? ==> Settles(critical, o.says.reply)
  {
  }

  lemma CriticalGoesOn(cfg: Config, me: Thread, pc: Io, sh: Shared, log: Log)
    requires IoEnabled(pc, sh)
    ensures
      var o := IoNext(cfg, me, pc, sh, log);
      Critical(pc) ==> o.says.Silent? && !o.pc.Ready?
  {
  }

  /** An accepted work request has been put in the queue by its own step `i`, within
      the limit, and now posts the task with its id; it is answered from the pool. */
  lemma AcceptedIsPosted(states: seq<State>, actions: seq<Action>, n: nat, k: nat) returns (b: nat, i: nat)
    requires Run(states, actions) && n < |actions| && actions[n] == IoRun(k)
    requires k < |states[n].io| && states[n].io[k].Posting?
    ensures b < i < n && BusySince(states, actions, b, n, k)
    ensures actions[i] == IoRun(k) && states[i].io[k].TestLimit?
    ensures Accepted(states[n].cfg, actions[b].request, states[b].sh.nextId, states[i].sh, states[i + 1].sh)
    ensures states[n + 1].sh.tasks == states[n].sh.tasks + [states[b].sh.nextId]
    ensures states[n + 1].replies == states[n].replies
  {
    var s, pc := states[n], states[n].io[k];
    assert Enabled(s, actions[n]) && states[n + 1] == Apply(s, actions[n]);
    b, i := StoryOf(states, actions, n, k);
    assert Enabled(states[b], actions[b]);
    var request, id := actions[b].request, states[b].sh.nextId;
    StepServes(s.cfg, IoThread(k), request, id, pc, s.sh, s.log, states[i].sh, states[i + 1].sh);
  }

  /** A thread becomes ready again by a reply, after the reply of a report, or by
      posting the task of an accepted work request: nothing is passed over in silence. */
  lemma NothingPassedOver(states: seq<State>, actions: seq<Action>, n: nat, k: nat)
    requires Run(states, actions) && n < |actions| && actions[n] == IoRun(k)
    requires k < |states[n + 1].io| && states[n + 1].io[k].Ready?
    ensures k < |states[n].io|
    ensures
      || states[n + 1].replies != states[n].replies
      || states[n].io[k].Posting? || states[n].io[k].ReportUnlockActive?
  {
    var s, pc := states[n], states[n].io[k];
    assert Enabled(s, actions[n]) && states[n + 1] == Apply(s, actions[n]);
    var b, i := StoryOf(states, actions, n, k);
    CriticalGoesOn(s.cfg, IoThread(k), pc, s.sh, s.log);
    var request, id := actions[b].request, states[b].sh.nextId;
    StepServes(s.cfg, IoThread(k), request, id, pc, s.sh, s.log, states[i].sh, states[i + 1].sh);
  }

  // ------------------------------------------------------------------- clearing

  /** Whoever has cleared the queue has emptied it by its own step `i`, of exactly the
      jobs then queued, and was allowed to. */
  lemma ClearEmpties(states: seq<State>, actions: seq<Action>, n: nat, k: nat) returns (i: nat)
    requires Run(states, actions) && n < |states| && k < |states[n].io|
    requires states[n].io[k].ClearUnlock? || states[n].io[k].ClearReply?
    ensures states[n].cfg.allowControl
    ensures i < n && actions[i] == IoRun(k) && k < |states[i].io| && states[i].io[k].Clearing?
    ensures states[i + 1].sh.jobs == []
    ensures states[i + 1].log.cleared == states[i].log.cleared + states[i].sh.jobs
  {
    var b;
    b, i := StoryOf(states, actions, n, k);
    assert Enabled(states[b], actions[b]);
    assert states[i + 1] == Apply(states[i], actions[i]);
  }

  lemma IoClearsOnlyClearing(cfg: Config, me: Thread, pc: Io, sh: Shared, log: Log)
    requires IoEnabled(pc, sh)
    ensures
      var o := IoNext(cfg, me, pc, sh, log);
      && (!pc.Clearing? ==> o.log.cleared == log.cleared)
      && (o.says.Says? && o.says.reply.QueueCleared? ==> pc.ClearReply?)
  {
  }

  ghost predicate NeverCleared(s: State) {
    s.log.cleared == [] && QueueCleared !in s.replies
  }

  /** Without permission nothing is ever cleared and nobody is told so. */
  lemma {:induction false} ControlIsNeeded(states: seq<State>, actions: seq<Action>, n: nat)
    requires Run(states, actions) && n < |states| && !states[n].cfg.allowControl
    ensures NeverCleared(states[n])
  {
    if n > 0 {
      assert Enabled(states[n - 1], actions[n - 1]) && states[n] == Apply(states[n - 1], actions[n - 1]);
      ControlIsNeeded(states, actions, n - 1);
      NeverClearedStep(states, actions, n - 1);
    }
  }

  lemma NeverClearedStep(states: seq<State>, actions: seq<Action>, n: nat)
    requires Run(states, actions) && n < |actions| && !states[n].cfg.allowControl && NeverCleared(states[n])
    ensures NeverCleared(states[n + 1])
  {
    var s, a := states[n], actions[n];
    assert Enabled(s, a) && states[n + 1] == Apply(s, a);
    match a
    case Begin(_, _) =>
    case Take(_, _) =>
    case WorkerRun(_) =>
    case IoRun(k) =>
      var b, i := StoryOf(states, actions, n, k);
      IoClearsOnlyClearing(s.cfg, IoThread(k), s.io[k], s.sh, s.log);
  }

  // ------------------------------------------------------------------ pool tasks

  /** A pool thread at `pc` has the task of request `owner`; if it has a job, that was
      the first in the queue at its pop. */
  predicate OnTask(owner: nat, before: Shared, after: Shared, pc: Worker) {
    match pc
    case AwaitJobs(q) => q == owner
    case TestEmpty(q) => q == owner
    case PoppedUnlock(q, job) => q == owner && Popped(job, before, after)
    case Scanning(q, job, _) => q == owner && Popped(job, before, after)
    case AwaitInsert(q, job, _) => q == owner && Popped(job, before, after)
    case Inserting(q, job, _) => q == owner && Popped(job, before, after)
    case Inserted(q, job, _) => q == owner && Popped(job, before, after)
    case Working(q, job, _) => q == owner && Popped(job, before, after)
    case _ => false
  }

  predicate Popped(job: Job, before: Shared, after: Shared) {
    before.jobs != [] && before.jobs[0] == job && after.jobs == before.jobs[1..]
  }

  lemma TaskGoesOn(me: Thread, owner: nat, pc: Worker, sh: Shared, log: Log, before: Shared, after: Shared)
    requires WorkerEnabled(pc, sh) && WorkerInRange(pc, |sh.busy|) && OnTask(owner, before, after, pc)
    ensures
      var o := WorkerNext(me, pc, sh, log);
      OwesWork(o.pc) ==> if pc.TestEmpty? then OnTask(owner, sh, o.sh, o.pc) else OnTask(owner, before, after, o.pc)
  {
  }

  lemma OwesWorkBefore(me: Thread, pc: Worker, sh: Shared, log: Log)
    requires WorkerEnabled(pc, sh) && WorkerInRange(pc, |sh.busy|) && OwesWork(WorkerNext(me, pc, sh, log).pc)
    ensures OwesWork(pc)
  {
  }

  /** Thread `t` at instant `n` works on the task it took at `b`; `i` is its pop, or
      still `b`. */
  ghost predicate TaskStory(states: seq<State>, actions: seq<Action>, b: nat, i: nat, n: nat, t: nat)
    requires b <= i < n < |states| && n <= |actions|
  {
    && t < |states[n].workers| && actions[b].Take? && actions[b].t == t && actions[b].i < |states[b].sh.tasks|
    && (i > b ==> actions[i] == WorkerRun(t))
    && (i == b ==> states[n].workers[t].AwaitJobs? || states[n].workers[t].TestEmpty?)
    && OnTask(states[b].sh.tasks[actions[b].i], states[i].sh, states[i + 1].sh, states[n].workers[t])
  }

  lemma TaskStarts(states: seq<State>, actions: seq<Action>, n: nat, t: nat)
    requires Run(states, actions) && n < |actions| && actions[n].Take? && actions[n].t == t
    ensures TaskStory(states, actions, n, n, n + 1, t)
  {
    assert Enabled(states[n], actions[n]) && states[n + 1] == Apply(states[n], actions[n]);
  }

  lemma TaskStep(states: seq<State>, actions: seq<Action>, b: nat, i: nat, n: nat, t: nat) returns (i': nat)
    requires Run(states, actions) && b <= i < n < |actions| && TaskStory(states, actions, b, i, n, t)
    requires t < |states[n + 1].workers| && OwesWork(states[n + 1].workers[t])
    ensures b <= i' <= n && TaskStory(states, actions, b, i', n + 1, t)
  {
    var s, pc := states[n], states[n].workers[t];
    assert Enabled(s, actions[n]) && states[n + 1] == Apply(s, actions[n]);
    i' := i;
    if actions[n] == WorkerRun(t) {
      var owner := states[b].sh.tasks[actions[b].i];
      TaskGoesOn(PoolThread(t), owner, pc, s.sh, s.log, states[i].sh, states[i + 1].sh);
      if pc.TestEmpty? {
        i' := n;
      }
    }
  }

  lemma OwedBefore(s: State, a: Action, t: nat)
    requires WellFormed(s) && Enabled(s, a) && t < |s.workers| && OwesWork(Apply(s, a).workers[t])
    requires !(a.Take? && a.t == t)
    ensures OwesWork(s.workers[t])
  {
    if a == WorkerRun(t) {
      OwesWorkBefore(PoolThread(t), s.workers[t], s.sh, s.log);
    }
  }

  /** Thread `t` has been on the task it took at `b`. */
  ghost predicate OnTaskSince(states: seq<State>, actions: seq<Action>, b: nat, n: nat, t: nat)
    requires b < n < |states| && n <= |actions|
  {
    && actions[b].Take? && actions[b].t == t
    && forall j :: b < j <= n ==> t < |states[j].workers| && OwesWork(states[j].workers[t])
  }

  lemma {:induction false} Taking(states: seq<State>, actions: seq<Action>, n: nat, t: nat) returns (b: nat)
    requires Run(states, actions) && n < |states| && t < |states[n].workers| && OwesWork(states[n].workers[t])
    ensures b < n && OnTaskSince(states, actions, b, n, t)
  {
    assert n > 0;
    var a := actions[n - 1];
    if a.Take? && a.t == t {
      b := n - 1;
    } else {
      assert Enabled(states[n - 1], a) && states[n] == Apply(states[n - 1], a);
      OwedBefore(states[n - 1], a, t);
      b := Taking(states, actions, n - 1, t);
    }
  }

  lemma {:induction false} TaskSince(states: seq<State>, actions: seq<Action>, b: nat, n: nat, t: nat) returns (i: nat)
    requires Run(states, actions) && b < n < |states| && OnTaskSince(states, actions, b, n, t)
    ensures b <= i < n && TaskStory(states, actions, b, i, n, t)
    decreases n
  {
    if n == b + 1 {
      i := b;
      TaskStarts(states, actions, b, t);
    } else {
      i := TaskSince(states, actions, b, n - 1, t);
      i := TaskStep(states, actions, b, i, n - 1, t);
    }
  }

  lemma TaskOf(states: seq<State>, actions: seq<Action>, n: nat, t: nat) returns (b: nat, i: nat)
    requires Run(states, actions) && n < |states| && t < |states[n].workers| && OwesWork(states[n].workers[t])
    ensures b <= i < n && TaskStory(states, actions, b, i, n, t)
  {
    b := Taking(states, actions, n, t);
    i := TaskSince(states, actions, b, n, t);
  }

  /** Which reply a task gives: to the request whose task it is, either the work of the
      job it popped, first in the queue at its own step `i`, with the job among the
      active ones and a device held before and after the reply; or that there are no
      jobs, and then the queue is empty. */
  lemma TaskGivesItsReply(states: seq<State>, actions: seq<Action>, n: nat, t: nat)
    returns (b: nat, i: nat, dev: nat, reply: Reply)
    requires Run(states, actions) && n < |actions| && actions[n] == WorkerRun(t)
    requires states[n + 1].replies != states[n].replies
    ensures b <= i < n && actions[b].Take? && actions[b].t == t && actions[b].i < |states[b].sh.tasks|
    ensures states[n + 1].replies == states[n].replies + [reply]
    ensures
      var owner := states[b].sh.tasks[actions[b].i];
      || (reply == NoJobsAvailable(owner) && states[n].sh.jobs == [])
      || (&& reply.WorkDone? && reply.owner == owner && i > b && actions[i] == WorkerRun(t)
          && Popped(reply.job, states[i].sh, states[i + 1].sh)
          && reply.job in states[n].sh.active
          && dev < |states[n].sh.busy| == |states[n + 1].sh.busy|
          && Claims(dev)(states[n].workers[t]) && Claims(dev)(states[n + 1].workers[t])
          && states[n].sh.busy[dev] && states[n + 1].sh.busy[dev])
  {
    RunStep(states, actions, n);
    var s, pc := states[n], states[n].workers[t];
    WorkerAnswersOnce(PoolThread(t), pc, s.sh, s.log);
    b, i := TaskOf(states, actions, n, t);
    reply := WorkerNext(PoolThread(t), pc, s.sh, s.log).says.reply;
    dev := ReplyHolds(s, t);
  }

  /** What holds while work is sent. */
  lemma ReplyHolds(s: State, t: nat) returns (dev: nat)
    requires Inv(s) && Enabled(s, WorkerRun(t)) && Apply(s, WorkerRun(t)).replies != s.replies
    ensures s.workers[t].TestEmpty? || s.workers[t].Working?
    ensures s.workers[t].TestEmpty? ==> s.sh.jobs == []
    ensures s.workers[t].Working? ==>
              && s.workers[t].job in s.sh.active
              && dev < |s.sh.busy| == |Apply(s, WorkerRun(t)).sh.busy|
              && Claims(dev)(s.workers[t]) && Claims(dev)(Apply(s, WorkerRun(t)).workers[t])
              && s.sh.busy[dev] && Apply(s, WorkerRun(t)).sh.busy[dev]
  {
    var pc := s.workers[t];
    ScanFindsDevice(s, t);
    dev := 0;
    if pc.Working? {
      dev := pc.dev;
      CountUpdate(s.workers, t, Idle, Claims(dev));
      CountUpdate(s.workers, t, Idle, HasPublished(pc.job));
      assert pc.job in multiset(s.sh.active);
    }
  }

  // ---------------------------------------------------------------------- locks

  function Actor(a: Action): Thread {
    match a
    case Begin(k, _) => IoThread(k)
    case IoRun(k) => IoThread(k)
    case Take(t, _) => PoolThread(t)
    case WorkerRun(t) => PoolThread(t)
  }

  lemma WorkerUnderLock(me: Thread, pc: Worker, sh: Shared, log: Log)
    requires WorkerEnabled(pc, sh) && WorkerInRange(pc, |sh.busy|)
    ensures
      var o := WorkerNext(me, pc, sh, log);
      && (o.sh.jobs != sh.jobs ==> WorkerHolds(pc, JobsMutex))
      && (o.sh.active != sh.active ==> WorkerHolds(pc, ActiveMutex))
      && (o.sh.completed != sh.completed ==> WorkerHolds(pc, ActiveMutex) && WorkerHolds(pc, CompletedMutex))
      && (o.says.Says? && o.says.reply.NoJobsAvailable? ==> WorkerHolds(pc, JobsMutex))
  {
  }

  lemma IoUnderLock(cfg: Config, me: Thread, pc: Io, sh: Shared, log: Log)
    requires IoEnabled(pc, sh)
    ensures
      var o := IoNext(cfg, me, pc, sh, log);
      && (o.sh.jobs != sh.jobs || Critical(pc) || pc.ReportCopy? ==> IoHolds(pc, JobsMutex))
      && o.sh.active == sh.active && o.sh.completed == sh.completed
  {
  }

  /** In every run a container changes only under its lock, held by the thread that
      changes it; and the queue is found empty, or the limit reached, under the lock. */
  lemma ChangesUnderLock(states: seq<State>, actions: seq<Action>, n: nat)
    requires Run(states, actions) && n < |actions|
    ensures
      var s, r, me := states[n], states[n + 1], HeldBy(Actor(actions[n]));
      && (r.sh.jobs != s.sh.jobs ==> s.sh.jobsMutex == me)
      && (r.sh.active != s.sh.active ==> s.sh.activeMutex == me)
      && (r.sh.completed != s.sh.completed ==> s.sh.activeMutex == me && s.sh.completedMutex == me)
      && (Count(r.replies, SaysNoJobs) > Count(s.replies, SaysNoJobs) ==> s.sh.jobsMutex == me && s.sh.jobs == [])
  {
    RunStep(states, actions, n);
    UnderLock(states[n], actions[n]);
  }

  lemma UnderLock(s: State, a: Action)
    requires Inv(s) && Enabled(s, a)
    ensures
      var r, me := Apply(s, a), HeldBy(Actor(a));
      && (r.sh.jobs != s.sh.jobs ==> s.sh.jobsMutex == me)
      && (r.sh.active != s.sh.active ==> s.sh.activeMutex == me)
      && (r.sh.completed != s.sh.completed ==> s.sh.activeMutex == me && s.sh.completedMutex == me)
      && (Count(r.replies, SaysNoJobs) > Count(s.replies, SaysNoJobs) ==> s.sh.jobsMutex == me && s.sh.jobs == [])
  {
    assert forall m :: Holds(s, Actor(a), m) ==> Owner(s.sh, m) == HeldBy(Actor(a));
    assert s.sh.jobsMutex == Owner(s.sh, JobsMutex) && s.sh.activeMutex == Owner(s.sh, ActiveMutex);
    assert s.sh.completedMutex == Owner(s.sh, CompletedMutex);
    match a
    case Begin(_, _) =>
    case Take(_, _) =>
    case IoRun(k) =>
      IoUnderLock(s.cfg, IoThread(k), s.io[k], s.sh, s.log);
      IoKeepsBalance(s.cfg, IoThread(k), s.io[k], s.sh, s.log);
      RepliedCount(s.replies, IoNext(s.cfg, IoThread(k), s.io[k], s.sh, s.log).says, SaysNoJobs);
    case WorkerRun(t) =>
      WorkerUnderLock(PoolThread(t), s.workers[t], s.sh, s.log);
      WorkerKeepsBalance(PoolThread(t), s.workers[t], s.sh, s.log);
      RepliedCount(s.replies, WorkerNext(PoolThread(t), s.workers[t], s.sh, s.log).says, SaysNoJobs);
  }
}
