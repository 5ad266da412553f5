/** The three job containers: their order, their bounds and their contents. */
module SchedulerContainers {
  import opened Jobs
  import opened Tally
  import opened Scheduler
  import opened SchedulerExclusion
  import opened SchedulerLedger

  // ---------------------------------------------------------------------- queue

  ghost predicate QueueOrdered(s: State) {
    Ordered(s.sh.jobs) && |s.sh.jobs| <= s.cfg.requestLimit
  }

  /** A job about to be pushed has a key no queued job has. */
  lemma PushIsFresh(s: State, k: nat)
    requires IdsDispensed(s) && JobsConserved(s) && k < |s.io| && s.io[k].TestLimit?
    ensures forall y :: y in s.sh.jobs ==> !SameKey(y, s.io[k].job)
  {
    var job := s.io[k].job;
    CountUpdate(s.io, k, s.io[k], HasUnpushed(job));
    forall y | y in s.sh.jobs
      ensures !SameKey(y, job)
    {
      assert y in multiset(s.sh.jobs);
      if y.id == job.id {
        IdDeterminesJob(s, y, job);
      }
    }
  }

  lemma QueueOrderedStep(s: State, a: Action)
    requires WellFormed(s) && Enabled(s, a) && IdsDispensed(s) && JobsConserved(s) && QueueOrdered(s)
    ensures QueueOrdered(Apply(s, a))
  {
    match a
    case Begin(_, _) =>
    case IoRun(k) =>
      var pc := s.io[k];
      if pc.TestLimit? {
        PushIsFresh(s, k);
        InsertOrdered(s.sh.jobs, pc.job);
        InsertContents(s.sh.jobs, pc.job);
      } else if pc.Cancelling? {
        RemoveOrdered(s.sh.jobs, pc.hash);
        RemoveContents(s.sh.jobs, pc.hash);
      }
    case Take(_, _) =>
    case WorkerRun(t) =>
  }

  // ----------------------------------------------------------------- active set

  /** The thread's job has been inserted in the active set and not yet erased. */
  predicate Published(pc: Worker, x: Job) {
    match pc
    case Inserted(_, job, _) => job == x
    case Working(_, job, _) => job == x
    case Releasing(job, _) => job == x
    case AwaitErase(job) => job == x
    case AwaitRecord(job) => job == x
    case Erasing(job) => job == x
    case _ => false
  }

  function HasPublished(x: Job): Worker -> bool { (pc: Worker) => Published(pc, x) }

  /** The active set holds exactly the jobs of the threads between insert and erase. */
  ghost predicate ActiveExact(s: State) {
    && Ordered(s.sh.active)
    && forall x :: multiset(s.sh.active)[x] == Count(s.workers, HasPublished(x))
  }

  lemma {:induction false} EraseMultiplicity(active: seq<Job>, job: Job, x: Job)
    ensures multiset(ActiveErase(active, job))[x] == if SameKey(x, job) then 0 else multiset(active)[x]
  {
    if active != [] {
      var head, rest := active[0], active[1..];
      EraseMultiplicity(rest, job, x);
      assert active == [head] + rest;
      assert multiset(active)[x] == multiset([head])[x] + multiset(rest)[x];
      assert multiset(ActiveErase(active, job))[x]
          == multiset(if SameKey(head, job) then [] else [head])[x] + multiset(ActiveErase(rest, job))[x];
    }
  }

  lemma {:induction false} EraseOrdered(active: seq<Job>, job: Job)
    requires Ordered(active)
    ensures Ordered(ActiveErase(active, job))
  {
    if active != [] {
      var rest := ActiveErase(active[1..], job);
      EraseOrdered(active[1..], job);
      forall j | 0 <= j < |rest|
        ensures RanksBelow(rest[j], active[0])
      {
        EraseMultiplicity(active[1..], job, rest[j]);
        assert rest[j] in multiset(rest);
        assert rest[j] in active[1..];
      }
    }
  }

  /** An active job with the key of the job thread `t` has in hand is that job, and
      it is there only if `t` put it there. */
  lemma ActiveKeyIsOwn(s: State, t: nat, job: Job, y: Job)
    requires IdsDispensed(s) && JobsConserved(s) && ActiveExact(s)
    requires t < |s.workers| && InHand(s.workers[t], job)
    requires y in s.sh.active && SameKey(y, job)
    ensures y == job && Published(s.workers[t], job) && multiset(s.sh.active)[job] == 1
  {
    var others := s.workers[t := Idle];
    CountUpdate(s.workers, t, Idle, HasInHand(job));
    CountUpdate(s.workers, t, Idle, HasPublished(job));
    assert y in multiset(s.sh.active);
    assert Count(s.workers, HasPublished(y)) > 0;
    CountMonotone(s.workers, HasPublished(y), HasInHand(y));
    IdDeterminesJob(s, y, job);
    CountMonotone(others, HasPublished(job), HasInHand(job));
  }

  lemma InsertKeepsActive(s: State, t: nat)
    requires WellFormed(s) && IdsDispensed(s) && JobsConserved(s) && ActiveExact(s)
    requires t < |s.workers| && s.workers[t].Inserting?
    ensures ActiveExact(Apply(s, WorkerRun(t)))
    ensures Apply(s, WorkerRun(t)).sh.active == Insert(s.sh.active, s.workers[t].job)
  {
    var job := s.workers[t].job;
    var r := Apply(s, WorkerRun(t));
    forall y | y in s.sh.active
      ensures !SameKey(y, job)
    {
      if SameKey(y, job) {
        ActiveKeyIsOwn(s, t, job, y);
      }
    }
    InsertOrdered(s.sh.active, job);
    forall x
      ensures multiset(r.sh.active)[x] == Count(r.workers, HasPublished(x))
    {
      InsertMultiplicity(s.sh.active, job, x);
      CountUpdate(s.workers, t, r.workers[t], HasPublished(x));
    }
  }

  /** What the erase does to one job. */
  lemma EraseOne(s: State, t: nat, job: Job, x: Job)
    requires IdsDispensed(s) && JobsConserved(s) && ActiveExact(s)
    requires t < |s.workers| && s.workers[t] == Erasing(job)
    ensures multiset(s.sh.active)[x] == Count(s.workers[t := Recording(job)], HasPublished(x)) + One(x == job)
    ensures multiset(ActiveErase(s.sh.active, job))[x] == multiset(s.sh.active)[x] - One(x == job)
  {
    CountUpdate(s.workers, t, Recording(job), HasPublished(x));
    EraseMultiplicity(s.sh.active, job, x);
    if SameKey(x, job) && x in multiset(s.sh.active) {
      ActiveKeyIsOwn(s, t, job, x);
    }
  }

  lemma EraseKeepsActive(s: State, t: nat)
    requires WellFormed(s) && IdsDispensed(s) && JobsConserved(s) && ActiveExact(s)
    requires t < |s.workers| && s.workers[t].Erasing?
    ensures ActiveExact(Apply(s, WorkerRun(t)))
    ensures multiset(Apply(s, WorkerRun(t)).sh.active) == multiset(s.sh.active) - multiset{s.workers[t].job}
  {
    var job := s.workers[t].job;
    var r := Apply(s, WorkerRun(t));
    assert r.sh.active == ActiveErase(s.sh.active, job) && r.workers == s.workers[t := Recording(job)];
    EraseOrdered(s.sh.active, job);
    forall x
      ensures multiset(r.sh.active)[x] == Count(r.workers, HasPublished(x))
      ensures multiset(r.sh.active)[x] == (multiset(s.sh.active) - multiset{job})[x]
    {
      EraseOne(s, t, job, x);
    }
  }

  lemma WorkerLeavesActive(me: Thread, pc: Worker, sh: Shared, log: Log, x: Job)
    requires WorkerEnabled(pc, sh) && WorkerInRange(pc, |sh.busy|) && !pc.Inserting? && !pc.Erasing?
    ensures
      var o := WorkerNext(me, pc, sh, log);
      o.sh.active == sh.active && Published(o.pc, x) == Published(pc, x)
  {
  }

  lemma IoLeavesActive(cfg: Config, me: Thread, pc: Io, sh: Shared, log: Log)
    requires IoEnabled(pc, sh)
    ensures
      var o := IoNext(cfg, me, pc, sh, log);
      o.sh.active == sh.active && o.sh.completed == sh.completed && o.log.finished == log.finished
  {
  }

  lemma ActiveExactStep(s: State, a: Action)
    requires WellFormed(s) && Enabled(s, a) && IdsDispensed(s) && JobsConserved(s) && ActiveExact(s)
    ensures ActiveExact(Apply(s, a))
  {
    var r := Apply(s, a);
    match a
    case Begin(_, _) =>
    case IoRun(k) => IoLeavesActive(s.cfg, IoThread(k), s.io[k], s.sh, s.log);
    case Take(t, _) =>
      forall x
        ensures multiset(r.sh.active)[x] == Count(r.workers, HasPublished(x))
      {
        CountUpdate(s.workers, t, r.workers[t], HasPublished(x));
      }
    case WorkerRun(t) =>
      if s.workers[t].Inserting? {
        InsertKeepsActive(s, t);
      } else if s.workers[t].Erasing? {
        EraseKeepsActive(s, t);
      } else {
        forall x
          ensures multiset(r.sh.active)[x] == Count(r.workers, HasPublished(x)) && r.sh.active == s.sh.active
        {
          WorkerLeavesActive(PoolThread(t), s.workers[t], s.sh, s.log, x);
          CountUpdate(s.workers, t, r.workers[t], HasPublished(x));
        }
        WorkerLeavesActive(PoolThread(t), s.workers[t], s.sh, s.log, Job(0, 0, 0));
      }
  }

  /** One job a thread at most: a bag of published jobs is no larger than the pool. */
  lemma {:induction false} PublishedBound(bag: multiset<Job>, workers: seq<Worker>)
    requires forall x :: bag[x] <= Count(workers, HasPublished(x))
    ensures |bag| <= |workers|
  {
    if workers == [] {
      assert bag == multiset{};
    } else if job :| Published(workers[0], job) && job in bag {
      var rest := bag - multiset{job};
      assert forall x :: HasPublished(x)(workers[0]) ==> x == job;
      assert |bag| == |rest| + 1;
      PublishedBound(rest, workers[1..]);
    } else {
      forall x
        ensures bag[x] <= Count(workers[1..], HasPublished(x))
      {
        assert x in bag ==> !HasPublished(x)(workers[0]);
      }
      PublishedBound(bag, workers[1..]);
    }
  }

  /** There are never more active jobs than pool threads. */
  lemma ActiveBound(s: State)
    requires ActiveExact(s)
    ensures |s.sh.active| <= |s.workers|
  {
    PublishedBound(multiset(s.sh.active), s.workers);
    assert |multiset(s.sh.active)| == |s.sh.active|;
  }

  // ------------------------------------------------------------- completed jobs

  /** The last jobs to have finished, oldest first. */
  function Recent(finished: seq<Job>): seq<Job> {
    if |finished| <= COMPLETED_CAPACITY then finished else finished[|finished| - COMPLETED_CAPACITY..]
  }

  ghost predicate RingRecent(s: State) {
    s.sh.completed == Recent(s.log.finished)
  }

  lemma RingPushIsRecent(finished: seq<Job>, job: Job)
    ensures RingPush(Recent(finished), job) == Recent(finished + [job])
  {
  }

  lemma RingRecentStep(s: State, a: Action)
    requires WellFormed(s) && Enabled(s, a) && RingRecent(s)
    ensures RingRecent(Apply(s, a))
  {
    match a
    case Begin(_, _) =>
    case IoRun(k) => IoLeavesActive(s.cfg, IoThread(k), s.io[k], s.sh, s.log);
    case Take(t, _) =>
    case WorkerRun(t) =>
      if s.workers[t].Recording? {
        RingPushIsRecent(s.log.finished, s.workers[t].job);
      }
  }
}
