# Nano PoW server: a verified model

The server accepts proof-of-work requests over HTTP and WebSockets, queues them by
priority, and works on them with one pool thread per configured device. This project
models its scheduler, its job queue, the session state machines of its web server and
its fixed-width integer and multiplier arithmetic in Dafny, and proves what they
promise.

`dafny verify dfyconfig.toml` checks everything.

## The modules

| file | models |
|---|---|
| `Jobs.dfy`, `JobQueue.dfy`, `QueueRuns.dfy` | the comparator, the queue as an ordered list, as a binary heap in a vector, and whole histories of queue operations |
| `Tally.dfy` | counting and summing over threads |
| `Scheduler.dfy` | `work_handler` as a step system: a program counter per thread, one step per mutex operation, atomic exchange, container operation and reply |
| `SchedulerExclusion.dfy`, `SchedulerLedger.dfy`, `SchedulerContainers.dfy` | the parts of the inductive invariant |
| `SchedulerSafety.dfy`, `SchedulerProgress.dfy` | what follows for every run: safety and progress |
| `SchedulerOrder.dfy`, `SchedulerForecast.dfy` | who is sent which work |
| `SchedulerOutcomes.dfy` | what each request and each pool task comes to, and that data change only under their locks |
| `WorkHandler.dfy`, `Server.dfy` | `work_handler` as a class updated in place, every method proved against the step system; and with all its threads, keeping the whole invariant |
| `HttpPipeline.dfy`, `HttpEndings.dfy`, `HttpReplies.dfy` | the HTTP response pipeline and its reads and writes, as steps and as a class; how a session ends; and handlers that reply late or from another thread |
| `SendQueue.dfy`, `Keepalive.dfy`, `WebSocketSession.dfy` | the WebSocket send queue and keepalive, as steps and as a class |
| `BigInt.dfy` | `bigint` as a class over a byte array |
| `Rounding.dfy`, `DoubleRounding.dfy`, `Multiplier.dfy` | round to nearest even (section 4.3.1 of IEEE 754-2019), once and twice, and the two multiplier conversions |

In the scheduler, `WorkerNext` is the pool task (`src/workserver/work_handler.cpp:218-300`),
one branch per step; `IoBegin` and `IoNext` are the request handlers
(`src/workserver/work_handler.cpp:44-127` and `160-213`, `346-373`); `Apply` lets any thread
step at any time, and `Take` lets an idle pool thread start any posted task, whatever its
position. A run is any finite sequence of such steps with any number of devices and of
request threads; requests arrive whenever a request thread is ready. The log in the state
records where jobs went; no step depends on it.

## What the code does against what is said about it

* The comment above the constructor speaks of a single-thread pool; the pool has as many
  threads as there are devices (`src/workserver/work_handler.cpp:17-21`). The model follows the
  code.
* The API description promises that a correlation id matches a response with its request. A
  task, however, works on whatever job is on top of the queue: `SchedulerOrder.PopsOwnJobIff`
  says for one pop when that is the job of the requester, `PriorityMismatch` and `CancelMismatch`
  are runs in which it is not, and `SerialRepliesMatch` covers a class of runs in which it always
  is. With one device `SchedulerForecast.OwnWorkIff` says for whole runs exactly when all
  outstanding work goes to its own requesters.
* The comment that a driver will be available whenever the pool handler is called is true in
  every interleaving (`SchedulerSafety.DeviceAlwaysFound`), though the scan is not atomic.
* Responses need not leave in request order when handlers reply late:
  `HttpReplies.OrderIff` and `StartedOrderIff` say exactly when they do, `OvertakingHappens` is a
  run in which they do not.
* Nor is one read outstanding below the limit and none at it: `HttpReplies.ReadsIff` says exactly
  when, from an exact account of the reads; `DoubleReadIff` and `DoubleReadHappens` are about two
  concurrent reads.
* A late reply runs on a pool thread, outside the strand that protects the queue. If the strand
  works between its two halves, two writes may be started at once, or none:
  `HttpReplies.RaceOutcome` says exactly when, `TwoWritesHappen` and `StallHappens` are such runs.
* After a failed write the WebSocket send queue stops for good if messages are waiting:
  `SendQueue.StallsIff`.
* The multiplier round trip is not the identity (`Multipliers.RoundTripLosesOne`);
  `Multipliers.RoundTripSurvivesIff` says for every difficulty and base, in integer arithmetic,
  when it is.

## Assumptions

* Reply callbacks do not throw and do not call back into the work handler; logging does not
  throw.
* Job ids do not wrap: the 32-bit dispenser is an unbounded counter.
* Mutexes are exclusive, and an atomic exchange is one step; memory is sequentially consistent.
* `push_job`, which only a client of the class calls, is not part of the protocol runs; it is a
  method of `WorkHandler`.
* Calls to the response queue of an HTTP session are taken one at a time, with nothing in between
  the halves of one, in `HttpPipeline` and in the first two parts of `HttpReplies`. Its last part
  drops this for one late reply.
* The wide float has `p >= 181` significant bits and exponents are unbounded.

## Model

| member | source | states |
|---|---|---|
| Jobs.ComparatorIsStrictOrder | src/workserver/work_handler.hpp:97-107 | the comparator is a strict weak order, and two jobs are incomparable exactly when priority and id agree |
| Jobs.OrderedMeans | src/workserver/work_handler.hpp:97-107 | in the ordered list, higher priorities come first and within one priority smaller ids |
| Jobs.InsertOrdered | src/workserver/work_handler.hpp:96-107 | inserting a job with a fresh key keeps the list strictly ordered, best job first |
| Jobs.OrderedUnique | src/workserver/work_handler.hpp:40-43 | two ordered lists with the same jobs are equal, so the pop order is determined by the contents |
| Jobs.SortIsCanonical | src/workserver/work_handler.hpp:244 | however the jobs are stored, there is one ordered list of them |
| Jobs.RemoveContents | src/workserver/work_handler.hpp:187-206 | cancelling keeps every job with another hash, takes out every job with that hash, and loses none |
| Jobs.RemoveOrdered | src/workserver/work_handler.hpp:187-206 | the survivors of a cancellation are still ordered |
| Jobs.RemoveKeepsPopOrder | src/workserver/work_handler.hpp:187-206 | any two survivors pop in the relative order they had before the cancellation |
| JobQueues.RootIsBest | src/workserver/work_handler.hpp:193 | in a heap no job ranks above the root |
| JobQueues.RootIsListHead | src/workserver/work_handler.hpp:193 | the root of the heap is the head of the ordered list |
| JobQueues.DrainOrder | src/workserver/work_handler.cpp:74-82 | jobs drained best first with distinct keys come by priority descending, then id ascending |
| JobQueues.JobQueue.Top | src/workserver/work_handler.hpp:193 | no queued job has a higher priority than the top, none of its priority a smaller id; it is the head of the list |
| JobQueues.JobQueue.Push | src/workserver/work_handler.hpp:196 | the heap gains exactly the job and refines insertion into the list |
| JobQueues.JobQueue.Pop | src/workserver/work_handler.hpp:203 | the heap loses exactly the top and refines dropping the head of the list |
| JobQueues.JobQueue.RemoveHash | src/workserver/work_handler.hpp:183-207 | the rebuild loop ends with exactly the jobs of other hashes, reports whether there was a job of that hash, and keeps the pop order of the survivors |
| JobQueues.JobQueue.Drained | src/workserver/work_handler.cpp:52-82 | the drain loop on a copy lists all queued jobs by priority descending, then id ascending, and leaves the queue alone |
| QueueRuns.StepRefines | src/workserver/work_handler.hpp:173-220 | one operation of any container meeting the priority queue contract is that operation of the ordered list, with the same result |
| QueueRuns.PopsAreHeads | src/workserver/work_handler.hpp:173-220 | after any pushes, pops, cancellations and clears, in any order, pops are the heads of the ordered list |
| QueueRuns.PopsAreFifo | src/workserver/work_handler.hpp:40-43 | whatever is pushed in between, no job is popped while one of higher priority, or of the same and with a smaller id, that was queued still waits; that one has left by a pop, a cancellation or a clear |
| QueueRuns.Perform | src/workserver/work_handler.hpp:173-220 | push, pop, rebuild and clear of the heap each meet the contract of the priority queue |
| QueueRuns.Replay | src/workserver/work_handler.hpp:173-220 | over any history with fresh keys the heap pops what the ordered list pops |
| SchedulerExclusion.MutexesOwnedStep | src/workserver/work_handler.cpp:44-300 | every step keeps: a thread holds a mutex exactly when it is in a critical section of that mutex |
| SchedulerExclusion.DevicesClaimedStep | src/workserver/work_handler.hpp:137-146 | every step keeps: a busy flag is set exactly while one thread has the device |
| SchedulerExclusion.FailedTryLeavesRoom | src/workserver/work_handler.hpp:227-235 | a thread that finds device p busy still leaves room at p + 1: fewer than N - p - 1 others are past p |
| SchedulerExclusion.ScanRoomStep | src/workserver/work_handler.hpp:227-235 | every step keeps: for each i at most N - i threads scan at, or have, a device at i or beyond |
| SchedulerExclusion.ScanFindsDevice | src/workserver/work_handler.hpp:227-235 | while that holds no scan is at the end of the devices |
| SchedulerLedger.JobsConservedStep | src/workserver/work_handler.cpp:203-287 | every step keeps: each job is in as many places as it was constructed |
| SchedulerLedger.IdDeterminesJob | src/workserver/work_handler.cpp:12-15 | no two jobs in the system share an id, and each is in one place only |
| SchedulerLedger.RequestsConservedStep | src/workserver/work_handler.cpp:203-300 | every step keeps: each request with an id is with its request thread, posted, being served or answered, and in one of these only |
| SchedulerLedger.TasksBalancedStep | src/workserver/work_handler.cpp:204-224 | every step keeps the balance of tasks, queued jobs, removals and "No jobs available" replies |
| SchedulerContainers.PushIsFresh | src/workserver/work_handler.cpp:203-209 | a job about to be pushed has a key no queued job has |
| SchedulerContainers.QueueOrderedStep | src/workserver/work_handler.cpp:204-214 | every step keeps the queue strictly ordered and within the request limit |
| SchedulerContainers.ActiveKeyIsOwn | src/workserver/work_handler.hpp:247 | an active job with the key of a thread's job is that job, put there by that thread |
| SchedulerContainers.InsertKeepsActive | src/workserver/work_handler.cpp:236-239 | the insert always adds the thread's own job, never meeting an equivalent one |
| SchedulerContainers.EraseKeepsActive | src/workserver/work_handler.cpp:284-286 | the erase takes out exactly the thread's own job |
| SchedulerContainers.ActiveExactStep | src/workserver/work_handler.cpp:236-286 | every step keeps: the active set holds exactly the jobs of the threads between insert and erase |
| SchedulerContainers.RingRecentStep | src/workserver/work_handler.hpp:250 | every step keeps: the completed jobs are the last 128 finished ones, oldest first |
| SchedulerLedger.AnswersStep | src/workserver/work_handler.cpp:44-385 | every step keeps replies plus requests in progress, of any kind, but for an arrival, which adds one |
| SchedulerSafety.StepInv | src/workserver/work_handler.cpp:44-300 | every step of every thread keeps the whole invariant |
| SchedulerSafety.RunInv | src/workserver/work_handler.cpp:44-300 | the invariant holds in every state of every run |
| SchedulerSafety.DeviceAlwaysFound | src/workserver/work_handler.cpp:216-228 | in every interleaving no scan runs off the end and "No available devices" is never replied |
| SchedulerSafety.Exclusion | src/workserver/work_handler.hpp:137-146 | in every run critical sections and devices are exclusive, and a busy flag is set exactly when some thread has the device |
| SchedulerSafety.Conservation | src/workserver/work_handler.cpp:204-287 | in every run each job id belongs to one job, in exactly one of: with its request thread, refused, queued, in hand, finished, cancelled, cleared; the queue never exceeds the limit |
| SchedulerSafety.PoppedForGood | src/workserver/work_handler.cpp:222-224 | a popped job stays in hand or finished |
| SchedulerSafety.PoppedIsNeverRemoved | src/workserver/work_handler.cpp:114-115 | cancel and clear never touch a job that has been popped |
| SchedulerSafety.Accounting | src/workserver/work_handler.cpp:204-224 | tasks to pop minus queued jobs equals removals minus "No jobs available" replies and is never negative; nobody is answered twice |
| SchedulerSafety.RequestsAnswered | src/workserver/work_handler.cpp:44-385 | in every run the replies and the requests in progress, of any kind, are together the requests so far |
| SchedulerSafety.ActiveWithinDevices | src/workserver/work_handler.cpp:236-286 | in every run there are at most as many active jobs as devices |
| SchedulerSafety.ReportCut | src/workserver/work_handler.cpp:46-101 | what a thread has listed so far of a report is what the containers held at the copy made for it, with nothing but listing since |
| SchedulerLedger.WorkSentStep | src/workserver/work_handler.cpp:275-287 | every step keeps: the work of a job was sent as often as the job is past its reply or finished |
| SchedulerSafety.NoWorkSentTwice | src/workserver/work_handler.cpp:218-287 | in every run no two work replies carry the same job, and none go to the same request |
| SchedulerSafety.ReportFreezes | src/workserver/work_handler.cpp:46-53 | while a report is being made nobody changes the active and completed jobs, although the queue is unlocked |
| SchedulerSafety.ListsHaveNoRepeats | src/workserver/work_handler.cpp:74-101 | at no reachable instant is a job id in two containers or twice in one |
| SchedulerSafety.ReportIsConsistentCut | src/workserver/work_handler.cpp:46-105 | every report replied lists the queued jobs, the active jobs backwards and the completed jobs as they were at the copy made while serving this request, the active and completed jobs being the same until the reply; no id is listed twice; a job in work is listed as active unless not yet inserted |
| SchedulerSafety.ContainersInOrder | src/workserver/work_handler.cpp:74-101 | in every run the queued and the active jobs are by priority descending, then id ascending, and the completed ones are the last 128 finished, or all, oldest first |
| SchedulerProgress.HolderCanStep | src/workserver/work_handler.cpp:284-285 | because of the lock order, the holder of the last mutex taken can always step |
| SchedulerProgress.NoDeadlock | src/workserver/work_handler.cpp:218-300 | in every reachable state with work left some thread can step without a new request |
| SchedulerProgress.MeasureDescends | src/workserver/work_handler.cpp:218-300 | a natural number falls with every step that is not a new request |
| SchedulerProgress.WorkEnds | src/workserver/work_handler.cpp:218-300 | without new requests no run is longer than that number |
| SchedulerProgress.WorkCanFinish | src/workserver/work_handler.cpp:218-300 | from every state of the invariant the work can be carried to the end |
| SchedulerProgress.QuiescentIsDone | src/workserver/work_handler.cpp:218-300 | with nothing left to do: no queued or active jobs, devices and mutexes free, every request with a job id answered exactly once, every job accounted for |
| SchedulerProgress.AllAnswered | src/workserver/work_handler.cpp:44-385 | with nothing left to do there are as many replies as there were requests, of any kind |
| SchedulerProgress.FinishedWorkSentOnce | src/workserver/work_handler.cpp:275-287 | with nothing left to do the work of each finished job has gone to exactly one client, and that of no other job to any |
| SchedulerProgress.WorkTerminates | src/workserver/work_handler.cpp:218-300 | once requests cease every interleaving is bounded, and it can stop only when all that holds |
| SchedulerOrder.PopsOwnJobIff | src/workserver/work_handler.cpp:219-223 | a task pops the job of its own request exactly when that job is queued and outranks all others |
| SchedulerOrder.SerialStep | src/workserver/work_handler.cpp:203-224 | with one device, no priorities, tasks in order and requests one at a time, the queue keeps in line with the tasks |
| SchedulerOrder.SerialRepliesMatch | src/workserver/work_handler.cpp:275-279 | in such runs every reply carries the work of the requester's own job and nobody is told there is none |
| SchedulerOrder.PriorityMismatch | src/workserver/work_handler.cpp:190-194 | a run with priorities in which a client receives another client's work |
| SchedulerOrder.CancelMismatch | src/workserver/work_handler.cpp:356-369 | a run with a cancellation in which a client receives another client's work |
| SchedulerForecast.ForecastStep | src/workserver/work_handler.cpp:219-279 | with one device, every step keeps: the work sent, then the work in hand, then the queued jobs paired in order with the tasks |
| SchedulerForecast.ForecastComesTrue | src/workserver/work_handler.cpp:219-279 | once submissions, cancellations and clears cease, exactly the work so foretold is sent, in that order, to those clients |
| SchedulerForecast.OwnWorkIff | src/workserver/work_handler.cpp:219-279 | all of it goes to its own requesters exactly when the job in hand does and the queued jobs in queue order are those of the next tasks |
| SchedulerOutcomes.RequestGetsItsReply | src/workserver/work_handler.cpp:108-385 | in every run each request gets the right reply from its own thread: no device, missing hash with its id, limit exceeded only when the limit was reached, cancelled or not found as its own step found and with exactly those jobs gone, cleared only if allowed and with the queue empty after its own step, a report |
| SchedulerOutcomes.AcceptedIsPosted | src/workserver/work_handler.cpp:203-218 | an accepted work request added exactly its job, with its id, hash and priority if allowed, below the limit, and posts a task with its id |
| SchedulerOutcomes.NothingPassedOver | src/workserver/work_handler.cpp:129-385 | a request ends by a reply or by posting its task |
| SchedulerOutcomes.ClearEmpties | src/workserver/work_handler.cpp:112-118 | who has cleared the queue was allowed to, and emptied it by its own step of exactly the jobs then queued |
| SchedulerOutcomes.ControlIsNeeded | src/workserver/work_handler.cpp:112-122 | without permission nothing is ever cleared and nobody is told so |
| SchedulerOutcomes.TaskGivesItsReply | src/workserver/work_handler.cpp:218-300 | a task replies to the request that posted it: the work of the first job queued at its own pop, while that job is active and the device held; or that there are no jobs, with the queue empty |
| SchedulerOutcomes.ChangesUnderLock | src/workserver/work_handler.cpp:205-287 | in every run a container changes only under its lock, held by the thread that changes it, and the queue is found empty under the lock |
| WorkHandlers.WorkHandler.constructor | src/workserver/work_handler.cpp:18-37 | starts empty, unlocked, with one idle device per configured device |
| WorkHandlers.WorkHandler.TryAcquire | src/workserver/work_handler.hpp:136-140 | sets that flag only and tells its previous state |
| WorkHandlers.WorkHandler.Release | src/workserver/work_handler.hpp:142-146 | clears that flag only and tells its previous state |
| WorkHandlers.WorkHandler.AcquireFirstAvailableDevice | src/workserver/work_handler.hpp:227-235 | undisturbed, takes the first idle device and no other, and fails exactly when all are busy |
| WorkHandlers.WorkHandler.PushJob | src/workserver/work_handler.hpp:172-177 | inserts the job into the ordered list, without regard to the limit |
| WorkHandlers.WorkHandler.PopJob | src/workserver/work_handler.hpp:209-220 | yields and removes the head of the ordered list, or nothing when it is empty |
| WorkHandlers.WorkHandler.RemoveJob | src/workserver/work_handler.hpp:183-207 | filters the ordered list and tells whether a job matched |
| WorkHandlers.WorkHandler.ListActive | src/workserver/work_handler.cpp:85-92 | lists the active jobs in the iteration order of the set, lowest first |
| WorkHandlers.WorkHandler.StepTask | src/workserver/work_handler.cpp:218-228 | each step of a pool task up to its device changes the object as the step system says |
| WorkHandlers.WorkHandler.StepJob | src/workserver/work_handler.cpp:236-289 | each step of a pool task from its device on changes the object as the step system says |
| WorkHandlers.WorkHandler.BeginRequest | src/workserver/work_handler.cpp:160-198 | a request takes an id exactly when the step system says, also when it is refused later |
| WorkHandlers.WorkHandler.StepGenerate | src/workserver/work_handler.cpp:203-218 | each step of a work request changes the object as the step system says, the limit included |
| WorkHandlers.WorkHandler.StepControl | src/workserver/work_handler.cpp:346-373 | each step of a cancellation or a clear changes the object as the step system says |
| WorkHandlers.WorkHandler.StepReport | src/workserver/work_handler.cpp:44-106 | each step of a report changes the object as the step system says, with the lists from the two listing loops |
| Servers.Server.constructor | src/workserver/work_handler.cpp:18-37 | the new handler with its idle threads is an initial state and satisfies the invariant |
| Servers.Server.Begin | src/workserver/work_handler.cpp:160-198 | a request arriving at the objects is that of the step system and keeps the invariant |
| Servers.Server.Take | src/workserver/work_handler.cpp:218 | starting any posted task on an idle thread is that of the step system and keeps the invariant |
| Servers.Server.RunWorker | src/workserver/work_handler.cpp:218-300 | a step of any pool thread on the objects is that of the step system and keeps the invariant, so no client is ever told that no device is available |
| Servers.Server.RunIo | src/workserver/work_handler.cpp:44-213 | a step of any request thread on the objects is that of the step system and keeps the invariant; the key of a pushed job is new to the heap |
| HttpPipeline.WriteStep | src/workserver/webserver.hpp:446-507 | every event keeps: one write at most, of the front of the queue; nothing lost; only the last response started may be closing |
| HttpPipeline.PipelineWrites | src/workserver/webserver.hpp:676-699 | in every run, whenever handlers reply, provided each reply is handed over with nothing in between: one write is outstanding exactly when responses are queued, they leave in the order handed over, and none follows a closing one |
| HttpPipeline.PipelineReads | src/workserver/webserver.hpp:612-674 | with handlers that reply before returning, a read is outstanding exactly when fewer than 8 responses are queued, and the i-th response answers the i-th request |
| HttpEndings.OverIff | src/workserver/webserver.hpp:612-699 | in every run the session is over exactly after a read that failed, ended or upgraded, a write that failed, or that of a closing response |
| HttpEndings.ReadingIsOver | src/workserver/webserver.hpp:617-660 | after such a read, with handlers that reply before returning, nothing is read any more |
| HttpEndings.WritingIsOver | src/workserver/webserver.hpp:676-699 | after such a write nothing is written any more, whenever handlers reply |
| HttpEndings.WritingGoesOn | src/workserver/webserver.hpp:454-464 | until such a write, even with reading over, a write is outstanding exactly when responses are queued |
| HttpEndings.RequestsCounted | src/workserver/webserver.hpp:663-671 | every request read is numbered, and answered or still waiting |
| HttpEndings.HandedOver | src/workserver/webserver.hpp:547-556 | each response carries the number of its request and whether to close; no event but a reply hands one over |
| HttpReplies.OrderIff | src/workserver/webserver.hpp:468-507 | whenever handlers reply, responses are handed over in request order exactly when no reply comes while an earlier request waits |
| HttpReplies.StartedOrderIff | src/workserver/webserver.hpp:457-463 | the client sees them in request order exactly until a write reaches the place of one that overtook |
| HttpReplies.OvertakingHappens | src/workserver/work_handler.cpp:275-279 | a run of two pipelined requests whose responses leave in the wrong order |
| HttpReplies.ReadsBalance | src/workserver/webserver.hpp:662-692 | in every run the exact number of outstanding reads, from the queue, the late replies that filled it and the deferred requests that found it full |
| HttpReplies.ReadsIff | src/workserver/webserver.hpp:662-692 | exactly when one read is outstanding below the limit and none at it, and exactly when two are outstanding |
| HttpReplies.DoubleReadIff | src/workserver/webserver.hpp:688-692 | in every run two reads have been outstanding exactly when a write has completed from a full queue with a read outstanding |
| HttpReplies.DoubleReadHappens | src/workserver/webserver.hpp:662-692 | a run with late replies that has two reads outstanding |
| HttpReplies.Undisturbed | src/workserver/webserver.hpp:468-507 | storing and starting with nothing in between is handing over, and keeps the write side in order |
| HttpReplies.RaceOutcome | src/workserver/webserver.hpp:500-506 | with any strand events between the halves, while the session goes on: a second write starts exactly when all other responses, at least one, completed meanwhile; the queue stalls exactly when it was empty and another response was added meanwhile; else all is in order |
| HttpReplies.StalledSegment | src/workserver/webserver.hpp:454-507 | a queue so stalled never writes again |
| HttpReplies.TwoWritesHappen | src/workserver/webserver.hpp:500-506 | a run with two writes outstanding |
| HttpReplies.StallHappens | src/workserver/webserver.hpp:500-506 | a run that stalls |
| HttpPipeline.HttpSession.Send | src/workserver/webserver.hpp:468-507 | stores the response, starts it exactly when it is alone, and keeps the write invariant |
| HttpPipeline.HttpSession.QueueOnWrite | src/workserver/webserver.hpp:454-464 | after the write of the front, drops it, starts the next if any, tells whether the queue was full, and restores the write invariant |
| HttpPipeline.HttpSession.HandleRead | src/workserver/webserver.hpp:612-674 | keeps the write invariant and changes the session as the read event of the step system |
| HttpPipeline.HttpSession.HandleWrite | src/workserver/webserver.hpp:676-699 | keeps the write invariant, which is why the queue is never empty here, and changes the session as the write event |
| HttpPipeline.HttpSession.ReplyLater | src/workserver/webserver.hpp:547-556 | a late reply with nothing in between keeps the write invariant and is the event of the step system |
| SendQueue.AtMostOneWrite | src/workserver/webserver.hpp:228-259 | in every run, write errors included, at most one write is in flight, of the front of the queue |
| SendQueue.SendsInOrder | src/workserver/webserver.hpp:228-259 | without write errors a write is in flight exactly when messages are queued, and sent, queued and posted messages are all messages in posting order |
| SendQueue.RestStep | src/workserver/webserver.hpp:249-258 | a completed write takes off the message posted next, as sent or as dropped |
| SendQueue.SentOrDropped | src/workserver/webserver.hpp:249-258 | in every run one message is sent for each write that succeeds and one dropped for each that fails; the rest, in posting order, is queued or on the strand |
| SendQueue.StallsIff | src/workserver/webserver.hpp:249-258 | the queue stalls exactly when a write fails with messages behind it |
| SendQueue.StalledSendsNothing | src/workserver/webserver.hpp:231-239 | a stalled queue never sends again |
| SendQueue.StallHappens | src/workserver/webserver.hpp:249-258 | a run that stalls |
| Keepalive.OneTimerStep | src/workserver/webserver.hpp:289-332 | every event keeps: until the timer closes the socket or fails there is exactly one timer wait or ready timer handler, afterwards none |
| Keepalive.RunInv | src/workserver/webserver.hpp:262-363 | in every run that holds, and the deadline is one period after the last activity, or two or more with a ping out |
| Keepalive.StartsArmed | src/workserver/webserver.hpp:262-272 | a session starts with its deadline 15 s ahead, no ping out, and the wait of the timer call by hand aborted |
| Keepalive.ClosesOnlyAfterSilence | src/workserver/webserver.hpp:298-323 | the timer closes an open session only after 30 s without activity, at the second genuine expiry |
| Keepalive.ClosesExactly | src/workserver/webserver.hpp:298-323 | in every run the timer closes exactly at a genuine expiry that finds the session not open or a ping out |
| Keepalive.DeadlineMoves | src/workserver/webserver.hpp:298-342 | in every run the deadline becomes 15 s from now exactly at activity and at a first genuine expiry of an open session, and the ping state changes exactly at these and when the ping has gone out |
| Keepalive.StopsOnlyByFailure | src/workserver/webserver.hpp:289-294 | nothing but a failed wait ever stops the timer |
| Keepalive.StrikesCountExpiries | src/workserver/webserver.hpp:297-324 | in a silent stretch the strikes are the genuine expiries |
| Keepalive.SilentSessionCloses | src/workserver/webserver.hpp:300-323 | a session without activity is closed at the latest by the second genuine expiry and never before the first |
| WebSocketSessions.WebSocketSession.constructor | src/workserver/webserver.hpp:220-268 | starts with an empty queue and the timer armed by hand, then moved to 15 s; the invariants of queue, timer and deadline hold |
| WebSocketSessions.WebSocketSession.RunPosted | src/workserver/webserver.hpp:231-239 | appends the message and starts a write exactly when the queue was empty, keeping the invariants |
| WebSocketSessions.WebSocketSession.OnWrite | src/workserver/webserver.hpp:249-258 | drops the front, there being one by the invariant, and starts the next unless in error, keeping the invariants |
| WebSocketSessions.WebSocketSession.SetDeadline | src/workserver/webserver.hpp:308 | moves the deadline and aborts every outstanding wait |
| WebSocketSessions.WebSocketSession.OnTimer | src/workserver/webserver.hpp:289-332 | changes the session as the timer handler of the step system |
| WebSocketSessions.WebSocketSession.RunTimer | src/workserver/webserver.hpp:289-332 | running any ready timer handler keeps the invariants and is the event of the step system |
| WebSocketSessions.WebSocketSession.Activity | src/workserver/webserver.hpp:335-342 | clears the ping state and moves the deadline, keeping the invariants |
| BigInts.ValueOfToBytes | src/workserver/util.hpp:27-38 | the big-endian bytes of a number below 256^SIZE stand for that number |
| BigInts.ToBytesOfValue | src/workserver/util.hpp:27-38 | and every byte string is the bytes of its number |
| BigInts.StaleBytesIff | src/workserver/util.hpp:29-30 | without the zero-fill a number reads back exactly when all bytes in front of it are zero |
| BigInts.ValueOfTwo | src/workserver/util.hpp:33-38 | the bytes are big-endian |
| BigInts.DigitValues | src/workserver/util.hpp:48-75 | the value of each of the sixteen digits in either case, no other character being one, and the upper-case digit printed for it |
| BigInts.HexValueAppend | src/workserver/util.hpp:60-64 | a further digit counts last, after sixteen times the digits in front |
| BigInts.UpperKeepsDigits | src/workserver/util.hpp:48-54 | upper case keeps every digit's value |
| BigInts.LeadingZeros | src/workserver/util.hpp:51 | zero fill does not change the number a text stands for |
| BigInts.PrintParsed | src/workserver/util.hpp:48-75 | printing a parsed text gives the text in upper case, zero-padded |
| BigInts.BigInt.ExportBits | src/workserver/util.hpp:30 | writes the significant bytes at the end and leaves the bytes in front alone |
| BigInts.BigInt.Set | src/workserver/util.hpp:27-31 | the bytes are those of the number, whatever was there before |
| BigInts.BigInt.Number | src/workserver/util.hpp:33-38 | the number the bytes stand for, whose bytes are these |
| BigInts.BigInt.ToHex | src/workserver/util.hpp:48-54 | exactly two upper-case digits a byte, standing for the same number |
| BigInts.BigInt.FromHex | src/workserver/util.hpp:56-75 | refuses exactly the texts of a wrong size or with a non-digit, the latter only after storing the digits in front of it |
| BigInts.SetThenNumber | src/workserver/util.hpp:27-38 | set then number is the identity below 256^SIZE |
| BigInts.PrintThenParse | src/workserver/util.hpp:48-75 | from_hex of to_hex restores every byte |
| BigInts.ParseThenPrint | src/workserver/util.hpp:48-75 | to_hex of from_hex is the text in upper case, zero-padded, for every digit string of length 1 to 2 SIZE |
| Rounding.RoundFits | src/workserver/util.hpp:92-93 | a rounded number has at most p significant bits |
| Rounding.RoundNearest | src/workserver/util.hpp:92-93 | no number of p significant bits is nearer than the rounded one |
| Rounding.RoundTiesToEven | src/workserver/util.hpp:92-93 | where another number of p significant bits is equally near, the last bit of the rounded one is zero |
| Rounding.FitsRound | src/workserver/util.hpp:92-93 | numbers of p significant bits are not changed |
| Rounding.RoundMonotone | src/workserver/util.hpp:92-93 | rounding keeps the order |
| Rounding.RoundError | src/workserver/util.hpp:92-93 | the relative error of one rounding is at most 2^-p |
| Multipliers.ToMultiplierMonotone | src/workserver/util.hpp:89-94 | a larger difficulty never has a smaller multiplier |
| Multipliers.FromMultiplierExact | src/workserver/util.hpp:96-100 | from_multiplier is exactly the floor of base times multiplier, out of range exactly when that needs more than 128 bits |
| Multipliers.FromMultiplierIs | src/workserver/util.hpp:96-100 | for a 128-bit base and a double, from_multiplier is v exactly when v is at most their product, the product below v + 1, and v below 2^128 |
| Multipliers.FromMultiplierMonotone | src/workserver/work_handler.cpp:184-188 | raising the multiplier of a request never lowers its difficulty |
| Multipliers.BackProductError | src/workserver/util.hpp:89-98 | base times the multiplier of d is off d by less than d / 2^52 |
| Multipliers.RoundTrip | src/workserver/util.hpp:89-100 | from_multiplier of to_multiplier is off d by at most d / 2^52 + 1; below 2^52 it is d or d - 1, and d exactly when the multiplier was not rounded below d / b |
| DoubleRounding.DoubleRoundingIsHarmless | src/workserver/util.hpp:92-93 | a quotient of numbers of at most n bits rounded to d + n bits or more, then to d bits, is the quotient rounded to d bits |
| Multipliers.RoundsOnce | src/workserver/util.hpp:89-94 | the multiplier is the double nearest to d / b, whatever the width of the wide float from 181 bits on |
| Multipliers.ToMultiplierIs | src/workserver/util.hpp:89-94 | for 128-bit numbers to_multiplier is d / b rounded once to 53 bits |
| Multipliers.RoundTripExactIff | src/workserver/util.hpp:89-100 | for all 128-bit d and b the round trip gives d exactly when the double nearest to d / b is at least d / b and below (d + 1) / b |
| Multipliers.ExponentExists | src/workserver/util.hpp:92-93 | every d / b can be scaled to 53 bits in front of the point |
| Multipliers.RoundTripSurvivesIff | src/workserver/util.hpp:89-100 | the same condition in integer arithmetic on d and b alone: the nearest 53-bit significand times the scaled base is at least the scaled d and below the scaled d + 1 |
| Multipliers.RoundTripInIntegers | src/workserver/util.hpp:89-100 | for all 128-bit d and b there is a scaling for which that test decides the round trip |
| Multipliers.RoundTripExact | src/workserver/util.hpp:89-100 | it is d whenever d / b has at most 53 significant bits |
| Multipliers.RoundTripInRange | src/workserver/util.hpp:99 | it stays within 128 bits unless d is within 2^76 of 2^128 |
| Multipliers.RoundTripLosesOne | src/workserver/util.hpp:89-100 | for d = 1 and base 3 it is 0, for every wide float of at least 181 bits |

## Left out

- The rebuild loop and the copy of the queue are one step each in the step system, since both run under the lock of the queue; the loops themselves are `JobQueue.RemoveHash` and `JobQueue.Drained`. The copy and its draining are one step too: draining works on a private copy.
- Fields of a job other than id, priority and hash: difficulty, multiplier, result and times neither order jobs nor move them.
- Data races on those fields, for example a result written while a report reads it.
- The array heap is one container that meets the contract of section 23.6.4 of ISO C++14; the library may arrange its vector differently. `QueueRuns` holds for every such container.
- Requests with an unreadable hash, difficulty or number are the one malformed request; the error texts of its several causes are not told apart. An unknown action and `work_validate` change nothing in the handler and are not modelled.
- Real proof of work: the code replies with fixed values.
- Shutdown of the handler: the destructor stops the pool and may drop tasks.
- SendQueue: the lifetime of the buffer handed to the asynchronous write is not modelled.
- HttpPipeline: the one hour timer of the HTTP session, the two kinds of shutdown and the version and keep-alive fields are not modelled; a response is its request and whether it closes.
- HttpPipeline.PipelineReads: holds for handlers that reply before returning; for the others `HttpReplies.OrderIff` and `HttpReplies.StartedOrderIff` say exactly when the order breaks and `HttpReplies.ReadsIff` exactly when the number of reads does.
- HttpPipeline.PipelineWrites: holds with calls to the queue taken one at a time; `HttpReplies.RaceOutcome` says exactly when one late reply breaks it.
- HttpReplies.RaceOutcome: one late reply at a time is split in its halves, and these as well as the strand events are single steps; two late replies overlapping each other, and data races within the vector, are not modelled.
- SchedulerForecast.OwnWorkIff: for one device and tasks taken in order; with more devices the thread that pops first depends on the interleaving.
- Keepalive: the handshake may complete at any time, and activity and sent pings may be reported in any state, more than the peer can cause.
- BigInts.BigInt.FromHex: texts with signs, `0x` or blanks are not covered; the input stream of Boost decides what they mean.
- BigInts: `to_dec` and the 64-bit view of the bytes.
- Multipliers.FromMultiplierExact: the exponent range of the floats, a base of zero in `to_multiplier`, and what the conversion of Boost makes of a product beyond 128 bits (`OutOfRange`).
- Configuration, JSON, TOML, routing, static files, MIME types, sockets, signals and the browser page.
