/** The work handler with all its threads: objects updated in place, a step of any
    thread at a time, behave as the step system and keep its whole invariant. */
module Servers {
  import opened Jobs
  import opened Scheduler
  import opened SchedulerContainers
  import opened SchedulerSafety
  import opened WorkHandlers

  class Server {
    const handler: WorkHandler
    var workers: seq<Worker>
    var io: seq<Io>
    var replies: seq<Reply>
    ghost var log: Log

    ghost function View(): State
      reads this, handler, handler.jobs, handler.busy
    {
      State(handler.cfg, handler.View(), workers, io, log, replies)
    }

    /** The heap is a heap, and the state satisfies the invariant of every run. */
    ghost predicate Valid()
      reads this, handler, handler.jobs, handler.busy
    {
      handler.Valid() && Inv(View())
    }

    constructor (cfg: Config, clients: nat)
      ensures Valid() && Init(View()) && handler.cfg == cfg && |io| == clients
      ensures fresh(handler) && fresh(handler.jobs) && fresh(handler.busy)
    {
      handler := new WorkHandler(cfg);
      workers := seq(cfg.devices, i => Idle);
      io := seq(clients, i => Ready);
      replies := [];
      log := Log([], [], [], [], []);
      new;
      InitInv(View());
    }

    /** Request `request` arrives at thread `k`. */
    method Begin(k: nat, request: Request)
      requires Valid() && k < |io| && io[k].Ready?
      modifies this, handler
      ensures Valid() && View() == Apply(old(View()), Scheduler.Begin(k, request))
    {
      StepInv(View(), Scheduler.Begin(k, request));
      ghost var log';
      var next;
      next, log' := handler.BeginRequest(request, log);
      io := io[k := next];
      log := log';
    }

    /** Pool thread `t` starts the `i`th task. */
    method Take(t: nat, i: nat)
      requires Valid() && t < |workers| && workers[t].Idle? && i < |handler.tasks|
      modifies this, handler
      ensures Valid() && View() == Apply(old(View()), Scheduler.Take(t, i))
    {
      StepInv(View(), Scheduler.Take(t, i));
      workers := workers[t := AwaitJobs(handler.tasks[i])];
      handler.tasks := handler.tasks[..i] + handler.tasks[i + 1..];
    }

    /** Pool thread `t` takes one step. */
    method RunWorker(t: nat)
      requires Valid() && t < |workers| && WorkerEnabled(workers[t], handler.View())
      modifies this, handler, handler.jobs, handler.busy
      ensures Valid() && View() == Apply(old(View()), WorkerRun(t))
      ensures forall r :: r in replies ==> !r.NoAvailableDevices?
    {
      StepInv(View(), WorkerRun(t));
      var pc, next, says := workers[t], Idle, Silent;
      ghost var log' := log;
      if pc.AwaitJobs? || pc.TestEmpty? || pc.EmptyUnlock? || pc.PoppedUnlock? || pc.Scanning? {
        next, says := handler.StepTask(PoolThread(t), pc, log);
      } else {
        next, says, log' := handler.StepJob(PoolThread(t), pc, log);
      }
      workers := workers[t := next];
      replies := Replied(replies, says);
      log := log';
    }

    /** The key of a job about to be pushed is new to the heap. */
    lemma FreshInHeap(k: nat)
      requires Valid() && k < |io| && io[k].TestLimit?
      ensures forall y :: y in handler.jobs.Contents() ==> !SameKey(y, io[k].job)
    {
      PushIsFresh(View(), k);
      SortedIsOrdered(handler.jobs.c);
      assert forall y :: y in handler.jobs.Contents() ==> y in multiset(handler.jobs.List());
    }

    /** Request thread `k` takes one step. */
    method RunIo(k: nat)
      requires Valid() && k < |io| && IoEnabled(io[k], handler.View())
      modifies this, handler, handler.jobs
      ensures Valid() && View() == Apply(old(View()), IoRun(k))
    {
      StepInv(View(), IoRun(k));
      var pc, next, says := io[k], Ready, Silent;
      ghost var log' := log;
      if IsGenerate(pc) {
        if pc.TestLimit? {
          FreshInHeap(k);
        }
        next, says, log' := handler.StepGenerate(IoThread(k), pc, log);
      } else if IsControl(pc) {
        next, says, log' := handler.StepControl(IoThread(k), pc, log);
      } else {
        next, says := handler.StepReport(IoThread(k), pc, log);
      }
      io := io[k := next];
      replies := Replied(replies, says);
      log := log';
    }
  }
}
