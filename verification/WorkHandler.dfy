/** The work handler as it is written: the shared members updated in place, with
    the queue a binary heap. Every method is proved against the step system. */
module WorkHandlers {
  import opened Jobs
  import opened JobQueues
  import opened Scheduler

  lemma SortedSize(c: seq<Job>)
    ensures |SortJobs(c)| == |c|
  {
    SortedIsOrdered(c);
    assert |SortJobs(c)| == |multiset(SortJobs(c))| == |c|;
  }

  lemma MatchingExists(c: seq<Job>, hash: nat)
    ensures Matching(SortJobs(c), hash) != [] <==> exists x :: x in multiset(c) && x.hash == hash
  {
    var list := SortJobs(c);
    SortedIsOrdered(c);
    RemoveContents(list, hash);
    if Matching(list, hash) != [] {
      assert Matching(list, hash)[0] in multiset(Matching(list, hash));
    }
  }

  class WorkHandler {
    const cfg: Config
    const jobs: JobQueue
    const busy: array<bool>
    var jobsMutex: Holder
    var active: seq<Job>
    var activeMutex: Holder
    var completed: seq<Job>
    var completedMutex: Holder
    var tasks: seq<nat>
    var nextId: nat

    ghost predicate Valid()
      reads this, jobs
    {
      jobs.Valid() && DistinctKeys(jobs.Contents())
    }

    /** The shared state of the step system this object stands for. */
    ghost function View(): Shared
      reads this, jobs, busy
    {
      Shared(jobs.List(), jobsMutex, active, activeMutex, completed, completedMutex, busy[..], tasks, nextId)
    }

    /** Registers one idle device per configured device. */
    constructor (cfg: Config)
      ensures this.cfg == cfg && Valid() && fresh(jobs) && fresh(busy)
      ensures busy.Length == cfg.devices && forall d :: 0 <= d < busy.Length ==> !busy[d]
      ensures View() == Shared([], Free, [], Free, [], Free, busy[..], [], 1)
    {
      this.cfg := cfg;
      jobs := new JobQueue();
      var flags := new bool[cfg.devices];
      busy := flags;
      jobsMutex, activeMutex, completedMutex := Free, Free, Free;
      active, completed, tasks, nextId := [], [], [], 1;
      new;
      for d := 0 to cfg.devices
        modifies busy
        invariant forall i :: 0 <= i < d ==> !busy[i]
      {
        busy[d] := false;
      }
    }

    // ---------------------------------------------------------------- devices

    method TryAcquire(d: nat) returns (wasBusy: bool)
      requires d < busy.Length
      modifies busy
      ensures wasBusy == old(busy[d]) && busy[..] == old(busy[..])[d := true]
    {
      wasBusy := busy[d];
      busy[d] := true;
    }

    method Release(d: nat) returns (wasBusy: bool)
      requires d < busy.Length
      modifies busy
      ensures wasBusy == old(busy[d]) && busy[..] == old(busy[..])[d := false]
    {
      wasBusy := busy[d];
      busy[d] := false;
    }

    /** The scan for a device with nothing in between its exchanges: it takes the
        first idle device, and fails only if all are busy. */
    method AcquireFirstAvailableDevice() returns (found: Option<nat>)
      modifies busy
      ensures found.Some? ==>
                && found.value < busy.Length && !old(busy[found.value])
                && (forall i :: 0 <= i < found.value ==> old(busy[i]))
                && busy[..] == old(busy[..])[found.value := true]
      ensures found.None? ==> busy[..] == old(busy[..]) && forall i :: 0 <= i < busy.Length ==> busy[i]
    {
      var d := 0;
      while d < busy.Length
        invariant 0 <= d <= busy.Length && busy[..] == old(busy[..])
        invariant forall i :: 0 <= i < d ==> busy[i]
      {
        var wasBusy := TryAcquire(d);
        if !wasBusy {
          return Some(d);
        }
        assert old(busy[..])[d := true] == old(busy[..]);
        d := d + 1;
      }
      return None;
    }

    // ------------------------------------------------------------- whole calls

    method PushJob(job: Job)
      requires Valid() && jobsMutex.Free?
      modifies jobs
      ensures jobs.Valid() && jobs.Contents() == old(jobs.Contents()) + multiset{job}
      ensures DistinctKeys(jobs.Contents()) ==> View() == old(View()).(jobs := Insert(old(View()).jobs, job))
    {
      jobs.Push(job);
    }

    method PopJob() returns (job: Option<Job>)
      requires Valid() && jobsMutex.Free?
      modifies jobs
      ensures Valid()
      ensures old(View()).jobs == [] ==> job == None && View() == old(View())
      ensures old(View()).jobs != [] ==>
                && job == Some(old(View()).jobs[0])
                && View() == old(View()).(jobs := old(View()).jobs[1..])
    {
      SortedSize(jobs.c);
      if jobs.c != [] {
        var top := jobs.Top();
        job := Some(top);
        jobs.Pop();
      } else {
        job := None;
      }
    }

    method RemoveJob(hash: nat) returns (removed: bool)
      requires Valid() && jobsMutex.Free?
      modifies jobs
      ensures Valid()
      ensures View() == old(View()).(jobs := Remove(old(View()).jobs, hash))
      ensures removed <==> Matching(old(View()).jobs, hash) != []
    {
      MatchingExists(jobs.c, hash);
      removed := jobs.RemoveHash(hash);
    }

    /** The active jobs in the order the set iterates over them, lowest first. */
    method ListActive() returns (listed: seq<Job>)
      ensures listed == Reverse(active)
      ensures |listed| == |active| && forall j :: 0 <= j < |listed| ==> listed[j] == active[|active| - 1 - j]
    {
      listed := [];
      var i := |active|;
      while i > 0
        invariant 0 <= i <= |active| && listed == Reverse(active[i..])
        invariant |listed| == |active| - i
        invariant forall j :: 0 <= j < |listed| ==> listed[j] == active[|active| - 1 - j]
      {
        i := i - 1;
        listed := listed + [active[i]];
        assert active[i..][1..] == active[i + 1..];
      }
    }

    // ------------------------------------------------------ one step of a thread

    /** One step of a pool thread's task, up to claiming a device. */
    method StepTask(me: Thread, pc: Worker, ghost log: Log) returns (next: Worker, says: Says)
      requires Valid() && WorkerEnabled(pc, View()) && WorkerInRange(pc, busy.Length)
      requires pc.AwaitJobs? || pc.TestEmpty? || pc.EmptyUnlock? || pc.PoppedUnlock? || pc.Scanning?
      modifies this`jobsMutex, jobs, busy
      ensures Valid()
      ensures WorkerOutcome(next, View(), log, says) == WorkerNext(me, pc, old(View()), log)
    {
      says := Silent;
      match pc
      case AwaitJobs(owner) =>
        jobsMutex := HeldBy(me);
        next := TestEmpty(owner);
      case TestEmpty(owner) =>
        SortedSize(jobs.c);
        if jobs.c != [] {
          var job := jobs.Top();
          jobs.Pop();
          next := PoppedUnlock(owner, job);
        } else {
          next, says := EmptyUnlock, Says(NoJobsAvailable(owner));
        }
      case EmptyUnlock =>
        jobsMutex := Free;
        next := Idle;
      case PoppedUnlock(owner, job) =>
        jobsMutex := Free;
        next := Scanning(owner, job, 0);
      case Scanning(owner, job, pos) =>
        if pos == busy.Length {
          next, says := Idle, Says(NoAvailableDevices(owner));
        } else {
          var wasBusy := TryAcquire(pos);
          assert wasBusy ==> old(busy[..])[pos := true] == old(busy[..]);
          next := if wasBusy then Scanning(owner, job, pos + 1) else AwaitInsert(owner, job, pos);
        }
    }

    /** One step of a pool thread's task, from a claimed device on. */
    method StepJob(me: Thread, pc: Worker, ghost log: Log) returns (next: Worker, says: Says, ghost log': Log)
      requires Valid() && WorkerEnabled(pc, View()) && WorkerInRange(pc, busy.Length)
      requires !pc.AwaitJobs? && !pc.TestEmpty? && !pc.EmptyUnlock? && !pc.PoppedUnlock? && !pc.Scanning?
      modifies this`active, this`activeMutex, this`completed, this`completedMutex, busy
      ensures Valid()
      ensures WorkerOutcome(next, View(), log', says) == WorkerNext(me, pc, old(View()), log)
    {
      says, log' := Silent, log;
      match pc
      case AwaitInsert(owner, job, dev) =>
        activeMutex := HeldBy(me);
        next := Inserting(owner, job, dev);
      case Inserting(owner, job, dev) =>
        active := ActiveInsert(active, job);
        next := Inserted(owner, job, dev);
      case Inserted(owner, job, dev) =>
        activeMutex := Free;
        next := Working(owner, job, dev);
      case Working(owner, job, dev) =>
        next, says := Releasing(job, dev), Says(WorkDone(owner, job));
      case Releasing(job, dev) =>
        var wasBusy := Release(dev);
        next := AwaitErase(job);
      case AwaitErase(job) =>
        activeMutex := HeldBy(me);
        next := AwaitRecord(job);
      case AwaitRecord(job) =>
        completedMutex := HeldBy(me);
        next := Erasing(job);
      case Erasing(job) =>
        active := ActiveErase(active, job);
        next := Recording(job);
      case Recording(job) =>
        if |completed| >= COMPLETED_CAPACITY {
          completed := completed[1..];
        }
        completed := completed + [job];
        log' := log.(finished := log.finished + [job]);
        next := UnlockCompleted;
      case UnlockCompleted =>
        completedMutex := Free;
        next := UnlockActive;
      case UnlockActive =>
        activeMutex := Free;
        next := Idle;
    }

    /** A request arrives. */
    method BeginRequest(request: Request, ghost log: Log) returns (next: Io, ghost log': Log)
      modifies this`nextId
      ensures IoOutcome(next, View(), log', Silent) == IoBegin(cfg, request, old(View()), log)
      ensures unchanged(jobs)
    {
      log' := log;
      match request
      case Generate(hash, priority) =>
        if cfg.devices == 0 {
          next := RefuseGenerate;
        } else {
          var job := Job(nextId, if cfg.allowPrioritization then priority else 0, hash);
          nextId := nextId + 1;
          log' := log.(dispensed := log.dispensed + [job]);
          next := AwaitPush(job);
        }
      case MalformedGenerate =>
        if cfg.devices == 0 {
          next := RefuseGenerate;
        } else {
          var job := Job(nextId, 0, 0);
          nextId := nextId + 1;
          log' := log.(dispensed := log.dispensed + [job]);
          next := RejectMissing(job);
        }
      case Cancel(hash) => next := AwaitCancel(hash);
      case MalformedCancel => next := RefuseCancel;
      case Clear => next := if cfg.allowControl then AwaitClear else RefuseClear;
      case Report => next := ReportAwaitJobs;
    }

    /** One step of a work request; a pushed job needs a key of its own, which the
        dispenser guarantees. */
    method StepGenerate(me: Thread, pc: Io, ghost log: Log) returns (next: Io, says: Says, ghost log': Log)
      requires Valid() && IoEnabled(pc, View())
      requires IsGenerate(pc)
      requires pc.TestLimit? ==> forall y :: y in jobs.Contents() ==> !SameKey(y, pc.job)
      modifies this`jobsMutex, this`tasks, jobs
      ensures Valid()
      ensures IoOutcome(next, View(), log', says) == IoNext(cfg, me, pc, old(View()), log)
    {
      says, log' := Silent, log;
      match pc
      case RefuseGenerate => next, says := Ready, Says(NoDeviceConfigured);
      case RejectMissing(job) =>
        log' := log.(rejected := log.rejected + [job]);
        next, says := Ready, Says(MissingHash(job.id));
      case AwaitPush(job) =>
        jobsMutex := HeldBy(me);
        next := TestLimit(job);
      case TestLimit(job) =>
        SortedSize(jobs.c);
        if |jobs.c| < cfg.requestLimit {
          DistinctJoin(jobs.Contents(), job);
          jobs.Push(job);
          next := PushedUnlock(job);
        } else {
          next := OverLimit(job);
        }
      case OverLimit(job) =>
        jobsMutex := Free;
        next := RejectLimit(job);
      case RejectLimit(job) =>
        log' := log.(rejected := log.rejected + [job]);
        next, says := Ready, Says(LimitExceeded(job.id));
      case PushedUnlock(job) =>
        jobsMutex := Free;
        next := Posting(job);
      case Posting(job) =>
        tasks := tasks + [job.id];
        next := Ready;
    }

    /** One step of a cancellation or of clearing the queue. */
    method StepControl(me: Thread, pc: Io, ghost log: Log) returns (next: Io, says: Says, ghost log': Log)
      requires Valid() && IoEnabled(pc, View())
      requires IsControl(pc)
      modifies this`jobsMutex, jobs
      ensures Valid()
      ensures IoOutcome(next, View(), log', says) == IoNext(cfg, me, pc, old(View()), log)
    {
      says, log' := Silent, log;
      match pc
      case RefuseCancel => next, says := Ready, Says(CancelMissingHash);
      case AwaitCancel(hash) =>
        jobsMutex := HeldBy(me);
        next := Cancelling(hash);
      case Cancelling(hash) =>
        MatchingExists(jobs.c, hash);
        log' := log.(cancelled := log.cancelled + Matching(jobs.List(), hash));
        var removed := jobs.RemoveHash(hash);
        next := CancelUnlock(hash, removed);
      case CancelUnlock(hash, found) =>
        jobsMutex := Free;
        next := CancelReply(hash, found);
      case CancelReply(hash, found) =>
        next, says := Ready, Says(if found then Cancelled(hash) else HashNotFound(hash));
      case RefuseClear => next, says := Ready, Says(ControlDenied);
      case AwaitClear =>
        jobsMutex := HeldBy(me);
        next := Clearing;
      case Clearing =>
        log' := log.(cleared := log.cleared + jobs.List());
        jobs.c := [];
        next := ClearUnlock;
      case ClearUnlock =>
        jobsMutex := Free;
        next := ClearReply;
      case ClearReply => next, says := Ready, Says(QueueCleared);
    }

    /** One step of a queue report. */
    method StepReport(me: Thread, pc: Io, ghost log: Log) returns (next: Io, says: Says)
      requires Valid() && IoEnabled(pc, View())
      requires !pc.Ready? && !IsGenerate(pc) && !IsControl(pc)
      modifies this`jobsMutex, this`activeMutex, this`completedMutex
      ensures Valid()
      ensures IoOutcome(next, View(), log, says) == IoNext(cfg, me, pc, old(View()), log)
    {
      says := Silent;
      match pc
      case ReportAwaitJobs =>
        jobsMutex := HeldBy(me);
        next := ReportAwaitActive;
      case ReportAwaitActive =>
        activeMutex := HeldBy(me);
        next := ReportAwaitCompleted;
      case ReportAwaitCompleted =>
        completedMutex := HeldBy(me);
        next := ReportCopy;
      case ReportCopy =>
        var queued := jobs.Drained();
        next := ReportUnlockJobs(queued);
      case ReportUnlockJobs(queued) =>
        jobsMutex := Free;
        next := ReportListActive(queued);
      case ReportListActive(queued) =>
        var listed := ListActive();
        next := ReportListCompleted(queued, listed);
      case ReportListCompleted(queued, listed) =>
        next := ReportReply(Lists(queued, listed, completed));
      case ReportReply(lists) =>
        next, says := ReportUnlockCompleted, Says(QueueReport(lists));
      case ReportUnlockCompleted =>
        completedMutex := Free;
        next := ReportUnlockActive;
      case ReportUnlockActive =>
        activeMutex := Free;
        next := Ready;
    }
  }
}
