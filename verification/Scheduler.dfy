/** The work scheduler as a step system. Every mutex operation, every atomic
    exchange, every container operation and every reply is one step of one
    thread; the steps of all threads interleave freely. */
module Scheduler {
  import opened Jobs

  /** `devices` is both the number of devices and the size of the thread pool. */
  datatype Config = Config(devices: nat, requestLimit: nat, allowPrioritization: bool, allowControl: bool)

  const COMPLETED_CAPACITY: nat := 128

  datatype Thread = PoolThread(t: nat) | IoThread(k: nat)

  datatype Holder = Free | HeldBy(thread: Thread)

  /** The members of `work_handler` that threads share, the task queue of the
      pool and the job id dispenser. `active` is kept best job first, the reverse
      of the iteration order of the `std::set`. A task is the id of the request
      that posted it. */
  datatype Shared = Shared(
    jobs: seq<Job>, jobsMutex: Holder,
    active: seq<Job>, activeMutex: Holder,
    completed: seq<Job>, completedMutex: Holder,
    busy: seq<bool>,
    tasks: seq<nat>,
    nextId: nat)

  datatype Lists = Lists(queued: seq<Job>, active: seq<Job>, completed: seq<Job>)

  datatype Reply =
    | NoDeviceConfigured
    | MissingHash(owner: nat)
    | LimitExceeded(owner: nat)
    | WorkDone(owner: nat, job: Job)
    | NoJobsAvailable(owner: nat)
    | NoAvailableDevices(owner: nat)
    | CancelMissingHash
    | Cancelled(hash: nat)
    | HashNotFound(hash: nat)
    | QueueCleared
    | ControlDenied
    | QueueReport(lists: Lists)

  /** What has happened so far: every job ever constructed, where the jobs that
      left the containers went. */
  datatype Log = Log(
    dispensed: seq<Job>,
    rejected: seq<Job>,
    cancelled: seq<Job>,
    cleared: seq<Job>,
    finished: seq<Job>)

  /** Where a pool thread is. `owner` is the request that posted its task. */
  datatype Worker =
    | Idle
    | AwaitJobs(owner: nat)
    | TestEmpty(owner: nat)
    | EmptyUnlock
    | PoppedUnlock(owner: nat, job: Job)
    | Scanning(owner: nat, job: Job, pos: nat)
    | AwaitInsert(owner: nat, job: Job, dev: nat)
    | Inserting(owner: nat, job: Job, dev: nat)
    | Inserted(owner: nat, job: Job, dev: nat)
    | Working(owner: nat, job: Job, dev: nat)
    | Releasing(job: Job, dev: nat)
    | AwaitErase(job: Job)
    | AwaitRecord(job: Job)
    | Erasing(job: Job)
    | Recording(job: Job)
    | UnlockCompleted
    | UnlockActive

  /** Where a thread serving a client request is. */
  datatype Io =
    | Ready
    | RefuseGenerate
    | RejectMissing(job: Job)
    | AwaitPush(job: Job)
    | TestLimit(job: Job)
    | OverLimit(job: Job)
    | RejectLimit(job: Job)
    | PushedUnlock(job: Job)
    | Posting(job: Job)
    | RefuseCancel
    | AwaitCancel(hash: nat)
    | Cancelling(hash: nat)
    | CancelUnlock(hash: nat, found: bool)
    | CancelReply(hash: nat, found: bool)
    | RefuseClear
    | AwaitClear
    | Clearing
    | ClearUnlock
    | ClearReply
    | ReportAwaitJobs
    | ReportAwaitActive
    | ReportAwaitCompleted
    | ReportCopy
    | ReportUnlockJobs(queued: seq<Job>)
    | ReportListActive(queued: seq<Job>)
    | ReportListCompleted(queued: seq<Job>, active: seq<Job>)
    | ReportReply(lists: Lists)
    | ReportUnlockCompleted
    | ReportUnlockActive

  /** A parsed request; the malformed ones lack the hash or carry an unreadable one. */
  datatype Request =
    | Generate(hash: nat, priority: nat)
    | MalformedGenerate
    | Cancel(hash: nat)
    | MalformedCancel
    | Clear
    | Report

  datatype State = State(cfg: Config, sh: Shared, workers: seq<Worker>, io: seq<Io>, log: Log, replies: seq<Reply>)

  /** What a step hands to the response handler. */
  datatype Says = Silent | Says(reply: Reply)

  /** The result of a step: the new position, the new shared state, and the reply. */
  datatype WorkerOutcome = WorkerOutcome(pc: Worker, sh: Shared, log: Log, says: Says)
  datatype IoOutcome = IoOutcome(pc: Io, sh: Shared, log: Log, says: Says)

  // ---------------------------------------------------- operations on the data

  /** `std::set::insert`: a job equivalent to one already present is not added. */
  function ActiveInsert(active: seq<Job>, job: Job): seq<Job> {
    if exists i :: 0 <= i < |active| && SameKey(active[i], job) then active else Insert(active, job)
  }

  /** `std::set::erase`: takes out whatever is equivalent to the job. */
  function ActiveErase(active: seq<Job>, job: Job): seq<Job> {
    if active == [] then []
    else (if SameKey(active[0], job) then [] else [active[0]]) + ActiveErase(active[1..], job)
  }

  /** `circular_buffer::push_back`: a full buffer forgets its oldest element. */
  function RingPush(ring: seq<Job>, job: Job): seq<Job> {
    if |ring| < COMPLETED_CAPACITY then ring + [job] else ring[1..] + [job]
  }

  function Reverse(s: seq<Job>): seq<Job> {
    if s == [] then [] else Reverse(s[1..]) + [s[0]]
  }

  /** The three containers as a report lists them, read at one instant. */
  function Snapshot(sh: Shared): Lists {
    Lists(sh.jobs, Reverse(sh.active), sh.completed)
  }

  function Replied(replies: seq<Reply>, says: Says): seq<Reply> {
    if says.Says? then replies + [says.reply] else replies
  }

  // --------------------------------------------------------------- pool threads

  /** A thread can step unless it waits for a task or for a held mutex. */
  predicate WorkerEnabled(pc: Worker, sh: Shared) {
    match pc
    case Idle => false
    case AwaitJobs(_) => sh.jobsMutex.Free?
    case AwaitInsert(_, _, _) => sh.activeMutex.Free?
    case AwaitErase(_) => sh.activeMutex.Free?
    case AwaitRecord(_) => sh.completedMutex.Free?
    case _ => true
  }

  /** Device positions stay within the device vector; a scan may reach its end. */
  predicate WorkerInRange(pc: Worker, devices: nat) {
    match pc
    case Scanning(_, _, pos) => pos <= devices
    case AwaitInsert(_, _, dev) => dev < devices
    case Inserting(_, _, dev) => dev < devices
    case Inserted(_, _, dev) => dev < devices
    case Working(_, _, dev) => dev < devices
    case Releasing(_, dev) => dev < devices
    case _ => true
  }

  function WorkerNext(me: Thread, pc: Worker, sh: Shared, log: Log): (o: WorkerOutcome)
    requires WorkerEnabled(pc, sh) && WorkerInRange(pc, |sh.busy|)
    ensures |o.sh.busy| == |sh.busy| && WorkerInRange(o.pc, |sh.busy|)
  {
    match pc
    case AwaitJobs(owner) =>
      WorkerOutcome(TestEmpty(owner), sh.(jobsMutex := HeldBy(me)), log, Silent)
    case TestEmpty(owner) =>
      if sh.jobs != [] then
        WorkerOutcome(PoppedUnlock(owner, sh.jobs[0]), sh.(jobs := sh.jobs[1..]), log, Silent)
      else
        WorkerOutcome(EmptyUnlock, sh, log, Says(NoJobsAvailable(owner)))
    case EmptyUnlock =>
      WorkerOutcome(Idle, sh.(jobsMutex := Free), log, Silent)
    case PoppedUnlock(owner, job) =>
      WorkerOutcome(Scanning(owner, job, 0), sh.(jobsMutex := Free), log, Silent)
    case Scanning(owner, job, pos) =>
      if pos == |sh.busy| then
        WorkerOutcome(Idle, sh, log, Says(NoAvailableDevices(owner)))
      else if sh.busy[pos] then
        WorkerOutcome(Scanning(owner, job, pos + 1), sh, log, Silent)
      else
        WorkerOutcome(AwaitInsert(owner, job, pos), sh.(busy := sh.busy[pos := true]), log, Silent)
    case AwaitInsert(owner, job, dev) =>
      WorkerOutcome(Inserting(owner, job, dev), sh.(activeMutex := HeldBy(me)), log, Silent)
    case Inserting(owner, job, dev) =>
      WorkerOutcome(Inserted(owner, job, dev), sh.(active := ActiveInsert(sh.active, job)), log, Silent)
    case Inserted(owner, job, dev) =>
      WorkerOutcome(Working(owner, job, dev), sh.(activeMutex := Free), log, Silent)
    case Working(owner, job, dev) =>
      WorkerOutcome(Releasing(job, dev), sh, log, Says(WorkDone(owner, job)))
    case Releasing(job, dev) =>
      WorkerOutcome(AwaitErase(job), sh.(busy := sh.busy[dev := false]), log, Silent)
    case AwaitErase(job) =>
      WorkerOutcome(AwaitRecord(job), sh.(activeMutex := HeldBy(me)), log, Silent)
    case AwaitRecord(job) =>
      WorkerOutcome(Erasing(job), sh.(completedMutex := HeldBy(me)), log, Silent)
    case Erasing(job) =>
      WorkerOutcome(Recording(job), sh.(active := ActiveErase(sh.active, job)), log, Silent)
    case Recording(job) =>
      WorkerOutcome(UnlockCompleted,
                    sh.(completed := RingPush(sh.completed, job)),
                    log.(finished := log.finished + [job]), Silent)
    case UnlockCompleted =>
      WorkerOutcome(UnlockActive, sh.(completedMutex := Free), log, Silent)
    case UnlockActive =>
      WorkerOutcome(Idle, sh.(activeMutex := Free), log, Silent)
  }

  // ----------------------------------------------------------------- io threads

  predicate IoEnabled(pc: Io, sh: Shared) {
    match pc
    case Ready => false
    case AwaitPush(_) => sh.jobsMutex.Free?
    case AwaitCancel(_) => sh.jobsMutex.Free?
    case AwaitClear => sh.jobsMutex.Free?
    case ReportAwaitJobs => sh.jobsMutex.Free?
    case ReportAwaitActive => sh.activeMutex.Free?
    case ReportAwaitCompleted => sh.completedMutex.Free?
    case _ => true
  }

  /** The steps of a work request, and those of a cancellation or a clear. */
  predicate IsGenerate(pc: Io) {
    || pc.RefuseGenerate? || pc.RejectMissing? || pc.AwaitPush? || pc.TestLimit? || pc.OverLimit?
    || pc.RejectLimit? || pc.PushedUnlock? || pc.Posting?
  }

  predicate IsControl(pc: Io) {
    || pc.RefuseCancel? || pc.AwaitCancel? || pc.Cancelling? || pc.CancelUnlock? || pc.CancelReply?
    || pc.RefuseClear? || pc.AwaitClear? || pc.Clearing? || pc.ClearUnlock? || pc.ClearReply?
  }

  /** A request arrives. Constructing a job takes an id from the dispenser, also
      for a request that is refused afterwards. */
  function IoBegin(cfg: Config, request: Request, sh: Shared, log: Log): IoOutcome {
    match request
    case Generate(hash, priority) =>
      if cfg.devices == 0 then IoOutcome(RefuseGenerate, sh, log, Silent)
      else
        var job := Job(sh.nextId, if cfg.allowPrioritization then priority else 0, hash);
        Dispense(job, AwaitPush(job), sh, log)
    case MalformedGenerate =>
      if cfg.devices == 0 then IoOutcome(RefuseGenerate, sh, log, Silent)
      else
        var job := Job(sh.nextId, 0, 0);
        Dispense(job, RejectMissing(job), sh, log)
    case Cancel(hash) => IoOutcome(AwaitCancel(hash), sh, log, Silent)
    case MalformedCancel => IoOutcome(RefuseCancel, sh, log, Silent)
    case Clear => IoOutcome(if cfg.allowControl then AwaitClear else RefuseClear, sh, log, Silent)
    case Report => IoOutcome(ReportAwaitJobs, sh, log, Silent)
  }

  /** The job constructor: takes the next id. */
  function Dispense(job: Job, pc: Io, sh: Shared, log: Log): IoOutcome {
    IoOutcome(pc, sh.(nextId := sh.nextId + 1), log.(dispensed := log.dispensed + [job]), Silent)
  }

  function IoNext(cfg: Config, me: Thread, pc: Io, sh: Shared, log: Log): (o: IoOutcome)
    requires IoEnabled(pc, sh)
    ensures o.sh.busy == sh.busy
  {
    match pc
    case RefuseGenerate => IoOutcome(Ready, sh, log, Says(NoDeviceConfigured))
    case RejectMissing(job) =>
      IoOutcome(Ready, sh, log.(rejected := log.rejected + [job]), Says(MissingHash(job.id)))
    // work_generate
    case AwaitPush(job) => IoOutcome(TestLimit(job), sh.(jobsMutex := HeldBy(me)), log, Silent)
    case TestLimit(job) =>
      if |sh.jobs| < cfg.requestLimit then
        IoOutcome(PushedUnlock(job), sh.(jobs := Insert(sh.jobs, job)), log, Silent)
      else
        IoOutcome(OverLimit(job), sh, log, Silent)
    case OverLimit(job) => IoOutcome(RejectLimit(job), sh.(jobsMutex := Free), log, Silent)
    case RejectLimit(job) =>
      IoOutcome(Ready, sh, log.(rejected := log.rejected + [job]), Says(LimitExceeded(job.id)))
    case PushedUnlock(job) => IoOutcome(Posting(job), sh.(jobsMutex := Free), log, Silent)
    case Posting(job) => IoOutcome(Ready, sh.(tasks := sh.tasks + [job.id]), log, Silent)
    // work_cancel
    case RefuseCancel => IoOutcome(Ready, sh, log, Says(CancelMissingHash))
    case AwaitCancel(hash) => IoOutcome(Cancelling(hash), sh.(jobsMutex := HeldBy(me)), log, Silent)
    case Cancelling(hash) =>
      IoOutcome(CancelUnlock(hash, Matching(sh.jobs, hash) != []),
              sh.(jobs := Remove(sh.jobs, hash)),
              log.(cancelled := log.cancelled + Matching(sh.jobs, hash)), Silent)
    case CancelUnlock(hash, found) => IoOutcome(CancelReply(hash, found), sh.(jobsMutex := Free), log, Silent)
    case CancelReply(hash, found) =>
      IoOutcome(Ready, sh, log, Says(if found then Cancelled(hash) else HashNotFound(hash)))
    // queue delete
    case RefuseClear => IoOutcome(Ready, sh, log, Says(ControlDenied))
    case AwaitClear => IoOutcome(Clearing, sh.(jobsMutex := HeldBy(me)), log, Silent)
    case Clearing => IoOutcome(ClearUnlock, sh.(jobs := []), log.(cleared := log.cleared + sh.jobs), Silent)
    case ClearUnlock => IoOutcome(ClearReply, sh.(jobsMutex := Free), log, Silent)
    case ClearReply => IoOutcome(Ready, sh, log, Says(QueueCleared))
    // queue report
    case ReportAwaitJobs => IoOutcome(ReportAwaitActive, sh.(jobsMutex := HeldBy(me)), log, Silent)
    case ReportAwaitActive => IoOutcome(ReportAwaitCompleted, sh.(activeMutex := HeldBy(me)), log, Silent)
    case ReportAwaitCompleted => IoOutcome(ReportCopy, sh.(completedMutex := HeldBy(me)), log, Silent)
    case ReportCopy => IoOutcome(ReportUnlockJobs(sh.jobs), sh, log, Silent)
    case ReportUnlockJobs(queued) => IoOutcome(ReportListActive(queued), sh.(jobsMutex := Free), log, Silent)
    case ReportListActive(queued) => IoOutcome(ReportListCompleted(queued, Reverse(sh.active)), sh, log, Silent)
    case ReportListCompleted(queued, active) =>
      IoOutcome(ReportReply(Lists(queued, active, sh.completed)), sh, log, Silent)
    case ReportReply(lists) => IoOutcome(ReportUnlockCompleted, sh, log, Says(QueueReport(lists)))
    case ReportUnlockCompleted => IoOutcome(ReportUnlockActive, sh.(completedMutex := Free), log, Silent)
    case ReportUnlockActive => IoOutcome(Ready, sh.(activeMutex := Free), log, Silent)
  }

  // ----------------------------------------------------------------------- runs

  datatype Action =
    | Begin(k: nat, request: Request)
    | IoRun(k: nat)
    | Take(t: nat, i: nat)
    | WorkerRun(t: nat)

  /** One pool thread per device, and device positions in range. */
  predicate WellFormed(s: State) {
    && |s.workers| == |s.sh.busy| == s.cfg.devices
    && forall t :: 0 <= t < |s.workers| ==> WorkerInRange(s.workers[t], |s.sh.busy|)
  }

  predicate Enabled(s: State, a: Action) {
    match a
    case Begin(k, _) => k < |s.io| && s.io[k].Ready?
    case IoRun(k) => k < |s.io| && IoEnabled(s.io[k], s.sh)
    case Take(t, i) => t < |s.workers| && s.workers[t].Idle? && i < |s.sh.tasks|
    case WorkerRun(t) => t < |s.workers| && WorkerEnabled(s.workers[t], s.sh)
  }

  function Apply(s: State, a: Action): (r: State)
    requires WellFormed(s) && Enabled(s, a)
    ensures WellFormed(r) && r.cfg == s.cfg && |r.io| == |s.io|
  {
    match a
    case Begin(k, request) =>
      var o := IoBegin(s.cfg, request, s.sh, s.log);
      s.(sh := o.sh, io := s.io[k := o.pc], log := o.log, replies := Replied(s.replies, o.says))
    case IoRun(k) =>
      var o := IoNext(s.cfg, IoThread(k), s.io[k], s.sh, s.log);
      s.(sh := o.sh, io := s.io[k := o.pc], log := o.log, replies := Replied(s.replies, o.says))
    case Take(t, i) =>
      s.(sh := s.sh.(tasks := s.sh.tasks[..i] + s.sh.tasks[i + 1..]),
         workers := s.workers[t := AwaitJobs(s.sh.tasks[i])])
    case WorkerRun(t) =>
      var o := WorkerNext(PoolThread(t), s.workers[t], s.sh, s.log);
      s.(sh := o.sh, workers := s.workers[t := o.pc], log := o.log, replies := Replied(s.replies, o.says))
  }

  predicate Init(s: State) {
    && |s.workers| == |s.sh.busy| == s.cfg.devices
    && (forall t :: 0 <= t < |s.workers| ==> s.workers[t].Idle?)
    && (forall d :: 0 <= d < |s.sh.busy| ==> !s.sh.busy[d])
    && (forall k :: 0 <= k < |s.io| ==> s.io[k].Ready?)
    && s.sh == Shared([], Free, [], Free, [], Free, s.sh.busy, [], 1)
    && s.log == Log([], [], [], [], []) && s.replies == []
  }

  /** A finite run from `states[0]`, of any interleaving. */
  ghost predicate Steps(states: seq<State>, actions: seq<Action>) {
    && |states| == |actions| + 1
    && (forall i :: 0 <= i < |states| ==> WellFormed(states[i]))
    && (forall i :: 0 <= i < |actions| ==>
          Enabled(states[i], actions[i]) && states[i + 1] == Apply(states[i], actions[i]))
  }

  ghost predicate Run(states: seq<State>, actions: seq<Action>) {
    Steps(states, actions) && Init(states[0])
  }
}
