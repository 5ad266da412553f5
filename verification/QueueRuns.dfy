/** Whole histories of the job queue: any container that meets the contract of a
    priority queue (section 23.6.4 of ISO C++14) behaves as the ordered list, and the
    heap is such a container. */
module QueueRuns {
  import opened Jobs
  import opened JobQueues

  datatype Op = Push(job: Job) | Pop | Cancel(hash: nat) | Clear

  /** What the contract of the container says of one operation: a pop yields some
      job that ranks below no other. */
  ghost predicate BagStep(before: multiset<Job>, op: Op, after: multiset<Job>, out: Option<Job>) {
    match op
    case Push(job) => after == before + multiset{job} && out == None
    case Pop =>
      if before == multiset{} then after == before && out == None
      else
        && out.Some? && out.value in before && after == before - multiset{out.value}
        && forall x :: x in before ==> !RanksBelow(out.value, x)
    case Cancel(hash) => out == None && forall x: Job :: after[x] == if x.hash != hash then before[x] else 0
    case Clear => after == multiset{} && out == None
  }

  function ListStep(list: seq<Job>, op: Op): seq<Job> {
    match op
    case Push(job) => Insert(list, job)
    case Pop => if list == [] then [] else list[1..]
    case Cancel(hash) => Remove(list, hash)
    case Clear => []
  }

  function ListOut(list: seq<Job>, op: Op): Option<Job> {
    if op.Pop? && list != [] then Some(list[0]) else None
  }

  function ListAfter(ops: seq<Op>): seq<Job> {
    if ops == [] then [] else ListStep(ListAfter(ops[..|ops| - 1]), ops[|ops| - 1])
  }

  /** A history that starts empty and never holds two jobs with the same key. */
  ghost predicate BagRun(bags: seq<multiset<Job>>, ops: seq<Op>, outs: seq<Option<Job>>) {
    && |bags| == |ops| + 1 && |outs| == |ops| && bags[0] == multiset{}
    && (forall n :: 0 <= n < |bags| ==> DistinctKeys(bags[n]))
    && forall n :: 0 <= n < |ops| ==> BagStep(bags[n], ops[n], bags[n + 1], outs[n])
  }

  lemma PushRefines(list: seq<Job>, job: Job)
    requires Ordered(list) && DistinctKeys(multiset(list) + multiset{job})
    ensures Ordered(Insert(list, job)) && multiset(Insert(list, job)) == multiset(list) + multiset{job}
  {
    DistinctSplit(multiset(list), job);
    assert forall x :: x in list ==> x in multiset(list);
    InsertOrdered(list, job);
    InsertContents(list, job);
  }

  lemma PopRefines(list: seq<Job>, job: Job)
    requires Ordered(list) && job in multiset(list) && forall x :: x in multiset(list) ==> !RanksBelow(job, x)
    ensures list != [] && job == list[0] && multiset(list[1..]) == multiset(list) - multiset{job}
  {
    HeadIsBest(list, job);
    assert list[0] in multiset(list);
    assert list == [list[0]] + list[1..];
  }

  lemma CancelRefines(list: seq<Job>, hash: nat, after: multiset<Job>)
    requires Ordered(list) && forall x: Job :: after[x] == if x.hash != hash then multiset(list)[x] else 0
    ensures Ordered(Remove(list, hash)) && multiset(Remove(list, hash)) == after
  {
    RemoveOrdered(list, hash);
    RemoveContents(list, hash);
  }

  lemma StepRefines(list: seq<Job>, op: Op, after: multiset<Job>, out: Option<Job>)
    requires Ordered(list) && BagStep(multiset(list), op, after, out) && DistinctKeys(after)
    ensures Ordered(ListStep(list, op)) && multiset(ListStep(list, op)) == after && out == ListOut(list, op)
  {
    match op
    case Push(job) => PushRefines(list, job);
    case Pop =>
      if list != [] {
        assert list[0] in multiset(list);
        PopRefines(list, out.value);
      }
    case Cancel(hash) => CancelRefines(list, hash, after);
    case Clear =>
  }

  /** After any pushes, pops, cancellations and clears the queue holds the jobs of
      the ordered list, and its pops are the heads of that list. */
  lemma {:induction false} PopsAreHeads(bags: seq<multiset<Job>>, ops: seq<Op>, outs: seq<Option<Job>>, n: nat)
    requires BagRun(bags, ops, outs) && n <= |ops|
    ensures Ordered(ListAfter(ops[..n])) && multiset(ListAfter(ops[..n])) == bags[n]
    ensures n < |ops| ==> outs[n] == ListOut(ListAfter(ops[..n]), ops[n])
    decreases n
  {
    if n > 0 {
      PopsAreHeads(bags, ops, outs, n - 1);
      assert ops[..n][..n - 1] == ops[..n - 1];
      StepRefines(ListAfter(ops[..n - 1]), ops[n - 1], bags[n], outs[n - 1]);
    }
    if n < |ops| {
      StepRefines(ListAfter(ops[..n]), ops[n], bags[n + 1], outs[n]);
    }
  }

  /** The event by which a queued job leaves. */
  predicate Leaves(op: Op, out: Option<Job>, job: Job) {
    match op
    case Push(_) => false
    case Pop => out == Some(job)
    case Cancel(hash) => job.hash == hash
    case Clear => true
  }

  lemma LeavesOrStays(before: multiset<Job>, op: Op, after: multiset<Job>, out: Option<Job>, job: Job)
    requires BagStep(before, op, after, out) && job in before
    ensures Leaves(op, out, job) || job in after
  {
    assert op.Pop? && out != Some(job) ==> after[job] == before[job];
    assert op.Cancel? && job.hash != op.hash ==> after[job] == before[job];
  }

  lemma {:induction false} LeftBefore(bags: seq<multiset<Job>>, ops: seq<Op>, outs: seq<Option<Job>>,
                                      m: nat, n: nat, job: Job) returns (i: nat)
    requires BagRun(bags, ops, outs) && m < n <= |ops| && job in bags[m] && job !in bags[n]
    ensures m <= i < n && job in bags[i] && Leaves(ops[i], outs[i], job)
    decreases n
  {
    var before, op, after, out := bags[n - 1], ops[n - 1], bags[n], outs[n - 1];
    if job in before {
      i := n - 1;
      LeavesOrStays(before, op, after, out, job);
    } else {
      i := LeftBefore(bags, ops, outs, m, n - 1, job);
    }
  }

  /** First in, first out, whatever is pushed in between: no job is popped while one
      that ranks above it and was queued at `m` still waits. That one has left, at
      some `i` in between, by a pop, a cancellation or a clear. Within one priority
      the job created first ranks above. */
  lemma PopsAreFifo(bags: seq<multiset<Job>>, ops: seq<Op>, outs: seq<Option<Job>>,
                    m: nat, n: nat, first: Job, second: Job) returns (i: nat)
    requires BagRun(bags, ops, outs) && m <= n < |ops|
    requires first in bags[m]
    requires first.priority > second.priority || (first.priority == second.priority && first.id < second.id)
    requires ops[n].Pop? && outs[n] == Some(second)
    ensures first !in bags[n]
    ensures m <= i < n && first in bags[i] && Leaves(ops[i], outs[i], first)
  {
    assert BagStep(bags[n], ops[n], bags[n + 1], outs[n]);
    i := LeftBefore(bags, ops, outs, m, n, first);
  }

  // ------------------------------------------------------------ the heap conforms

  /** One operation on the heap. */
  method Perform(queue: JobQueue, op: Op) returns (out: Option<Job>)
    requires queue.Valid()
    modifies queue
    ensures queue.Valid()
    ensures BagStep(old(queue.Contents()), op, queue.Contents(), out)
  {
    out := None;
    match op
    case Push(job) => queue.Push(job);
    case Pop =>
      if queue.c != [] {
        var top := queue.Top();
        queue.Pop();
        out := Some(top);
      }
    case Cancel(hash) => var removed := queue.RemoveHash(hash);
    case Clear => queue.c := [];
  }

  /** No two jobs with the same key are ever pushed. */
  ghost predicate FreshKeys(ops: seq<Op>) {
    forall i, j :: 0 <= i < j < |ops| && ops[i].Push? && ops[j].Push? ==> !SameKey(ops[i].job, ops[j].job)
  }

  ghost predicate Pushed(ops: seq<Op>, job: Job) {
    exists i :: 0 <= i < |ops| && ops[i] == Push(job)
  }

  lemma BagStepSources(before: multiset<Job>, op: Op, after: multiset<Job>, out: Option<Job>, x: Job)
    requires BagStep(before, op, after, out) && x in after
    ensures x in before || op == Push(x)
  {
  }

  lemma StepKeepsDistinct(before: multiset<Job>, op: Op, after: multiset<Job>, out: Option<Job>)
    requires BagStep(before, op, after, out) && DistinctKeys(before)
    requires op.Push? ==> forall x :: x in before ==> !SameKey(x, op.job)
    ensures DistinctKeys(after)
  {
    if op.Push? {
      DistinctJoin(before, op.job);
    } else {
      forall a, b | a in after && b in after && SameKey(a, b)
        ensures a == b && after[a] == 1
      {
        BagStepSources(before, op, after, out, a);
        BagStepSources(before, op, after, out, b);
      }
    }
  }

  /** A whole history on the heap: it pops what the ordered list pops. */
  method Replay(ops: seq<Op>) returns (outs: seq<Option<Job>>)
    requires FreshKeys(ops)
    ensures |outs| == |ops|
    ensures forall n :: 0 <= n < |ops| ==> outs[n] == ListOut(ListAfter(ops[..n]), ops[n])
  {
    var queue := new JobQueue();
    outs := [];
    ghost var bags := [multiset{}];
    for n := 0 to |ops|
      invariant |bags| == n + 1 && BagRun(bags, ops[..n], outs)
      invariant queue.Valid() && fresh(queue) && queue.Contents() == bags[n]
      invariant forall x :: x in bags[n] ==> Pushed(ops[..n], x)
    {
      var out := Perform(queue, ops[n]);
      assert ops[..n + 1] == ops[..n] + [ops[n]];
      ExtendRun(bags, ops[..n], outs, ops[n], queue.Contents(), out);
      StillPushed(bags[n], ops, n, queue.Contents(), out);
      outs := outs + [out];
      bags := bags + [queue.Contents()];
    }
    assert ops[..|ops|] == ops;
    RunPopsHeads(bags, ops, outs);
  }

  lemma RunPopsHeads(bags: seq<multiset<Job>>, ops: seq<Op>, outs: seq<Option<Job>>)
    requires BagRun(bags, ops, outs)
    ensures forall n :: 0 <= n < |ops| ==> outs[n] == ListOut(ListAfter(ops[..n]), ops[n])
  {
    forall n | 0 <= n < |ops|
      ensures outs[n] == ListOut(ListAfter(ops[..n]), ops[n])
    {
      PopsAreHeads(bags, ops, outs, n);
    }
  }

  lemma StillPushed(before: multiset<Job>, ops: seq<Op>, n: nat, after: multiset<Job>, out: Option<Job>)
    requires n < |ops| && BagStep(before, ops[n], after, out)
    requires forall x :: x in before ==> Pushed(ops[..n], x)
    ensures forall x :: x in after ==> Pushed(ops[..n + 1], x)
  {
    forall x | x in after
      ensures Pushed(ops[..n + 1], x)
    {
      BagStepSources(before, ops[n], after, out, x);
      var i :| 0 <= i <= n && ops[i] == Push(x);
      assert ops[..n + 1][i] == Push(x);
    }
  }

  lemma ExtendRun(bags: seq<multiset<Job>>, ops: seq<Op>, outs: seq<Option<Job>>,
                  op: Op, after: multiset<Job>, out: Option<Job>)
    requires BagRun(bags, ops, outs) && FreshKeys(ops + [op])
    requires forall x :: x in bags[|ops|] ==> Pushed(ops, x)
    requires BagStep(bags[|ops|], op, after, out)
    ensures BagRun(bags + [after], ops + [op], outs + [out])
  {
    var before := bags[|ops|];
    if op.Push? {
      forall x | x in before
        ensures !SameKey(x, op.job)
      {
        var i :| 0 <= i < |ops| && ops[i] == Push(x);
        assert (ops + [op])[i] == Push(x) && (ops + [op])[|ops|] == op;
      }
    }
    StepKeepsDistinct(before, op, after, out);
  }
}
