/** The priority queue of pending jobs: a binary heap in a vector, its contract
    (section 23.6.4 of ISO C++14), and the two rebuild loops of the work handler.
    Every operation refines the corresponding one of the stably ordered list. */
module JobQueues {
  import opened Jobs

  /** The heap condition on the edge above position `j`. */
  predicate Fits(c: seq<Job>, j: int)
    requires 1 <= j < |c|
  {
    !RanksBelow(c[(j - 1) / 2], c[j])
  }

  /** No job is ranked above its parent. */
  predicate IsHeap(c: seq<Job>) {
    forall j :: 1 <= j < |c| ==> Fits(c, j)
  }

  function Swap(c: seq<Job>, i: nat, j: nat): seq<Job>
    requires i < |c| && j < |c|
  {
    c[i := c[j]][j := c[i]]
  }

  lemma SwapContents(c: seq<Job>, i: nat, j: nat)
    requires i < |c| && j < |c|
    ensures multiset(Swap(c, i, j)) == multiset(c)
  {
  }

  /** A heap but for the edge above `i`; the children of `i` fit its parent. */
  predicate HeapButAbove(c: seq<Job>, i: nat) {
    && (forall j :: 1 <= j < |c| && j != i ==> Fits(c, j))
    && (forall j {:trigger Fits(c, j)} :: 1 <= j < |c| && (j - 1) / 2 == i && i > 0 ==>
          !RanksBelow(c[(i - 1) / 2], c[j]))
  }

  /** A heap but for the edges below `i`; the children of `i` fit its parent. */
  predicate HeapButBelow(c: seq<Job>, i: nat) {
    && (forall j :: 1 <= j < |c| && (j - 1) / 2 != i ==> Fits(c, j))
    && (forall j {:trigger Fits(c, j)} :: 1 <= j < |c| && (j - 1) / 2 == i && i > 0 ==>
          !RanksBelow(c[(i - 1) / 2], c[j]))
  }

  lemma SiftUpStep(c: seq<Job>, i: nat)
    requires 0 < i < |c| && HeapButAbove(c, i) && RanksBelow(c[(i - 1) / 2], c[i])
    ensures HeapButAbove(Swap(c, i, (i - 1) / 2), (i - 1) / 2)
  {
    var p := (i - 1) / 2;
    var d := Swap(c, i, p);
    forall j | 1 <= j < |d| && j != p
      ensures Fits(d, j)
    {
      if j != i {
        assert Fits(c, j);
      }
    }
    forall j | 1 <= j < |d| && (j - 1) / 2 == p && p > 0
      ensures !RanksBelow(d[(p - 1) / 2], d[j])
    {
      assert Fits(c, p);
      if j != i {
        assert Fits(c, j);
      }
    }
  }

  lemma SiftDownStep(c: seq<Job>, i: nat, child: nat)
    requires i < child < |c| && (child - 1) / 2 == i && HeapButBelow(c, i) && RanksBelow(c[i], c[child])
    requires forall j :: 1 <= j < |c| && (j - 1) / 2 == i ==> !RanksBelow(c[child], c[j])
    ensures HeapButBelow(Swap(c, i, child), child)
  {
    var d := Swap(c, i, child);
    forall j | 1 <= j < |d| && (j - 1) / 2 != child
      ensures Fits(d, j)
    {
      if j == i {
        assert Fits(c, child) || (child - 1) / 2 == i;
      } else if (j - 1) / 2 != i {
        assert Fits(c, j);
      }
    }
    forall j | 1 <= j < |d| && (j - 1) / 2 == child
      ensures !RanksBelow(d[(child - 1) / 2], d[j])
    {
      assert Fits(c, j);
    }
  }

  lemma {:induction false} RootIsBest(c: seq<Job>, i: nat)
    requires IsHeap(c) && i < |c|
    ensures !RanksBelow(c[0], c[i])
  {
    if i > 0 {
      RootIsBest(c, (i - 1) / 2);
      assert Fits(c, i);
      ComparatorIsStrictOrder(c[0], c[(i - 1) / 2], c[i]);
    }
  }

  lemma RootIsListHead(c: seq<Job>)
    requires IsHeap(c) && c != [] && DistinctKeys(multiset(c))
    ensures SortJobs(c) != [] && SortJobs(c)[0] == c[0]
  {
    var list := SortJobs(c);
    SortedIsOrdered(c);
    assert |list| == |multiset(list)| == |c|;
    assert c[0] in multiset(c) && list[0] in multiset(list);
    assert c[0] in list && list[0] in c;
    var i :| 0 <= i < |c| && c[i] == list[0];
    RootIsBest(c, i);
    var j :| 0 <= j < |list| && list[j] == c[0];
  }

  lemma DistinctAfterPop(m: multiset<Job>, job: Job)
    requires DistinctKeys(m) && job in m
    ensures DistinctKeys(m - multiset{job})
  {
    forall a, b | a in m - multiset{job} && b in m - multiset{job} && SameKey(a, b)
      ensures a == b && (m - multiset{job})[a] == 1
    {
      assert a in m && b in m;
    }
  }

  /** Storing one more job inserts it into the list. */
  lemma ListAfterPush(before: seq<Job>, job: Job, after: seq<Job>)
    requires multiset(after) == multiset(before) + multiset{job} && DistinctKeys(multiset(after))
    ensures SortJobs(after) == Insert(SortJobs(before), job)
  {
    DistinctSplit(multiset(before), job);
    SortedIsOrdered(before);
    assert forall x :: x in SortJobs(before) ==> x in multiset(SortJobs(before));
    InsertOrdered(SortJobs(before), job);
    InsertContents(SortJobs(before), job);
    SortIsCanonical(after, Insert(SortJobs(before), job));
  }

  /** Taking the root out removes the head of the list. */
  lemma ListAfterPop(before: seq<Job>, after: seq<Job>)
    requires IsHeap(before) && before != [] && DistinctKeys(multiset(before))
    requires multiset(after) == multiset(before) - multiset{before[0]} && DistinctKeys(multiset(after))
    ensures |SortJobs(before)| > 0 && SortJobs(after) == SortJobs(before)[1..]
  {
    var list := SortJobs(before);
    RootIsListHead(before);
    SortedIsOrdered(before);
    assert list == [list[0]] + list[1..];
    assert multiset(list[1..]) == multiset(list) - multiset{list[0]};
    SortIsCanonical(after, list[1..]);
  }

  /** Keeping the jobs with another hash filters the list. */
  lemma ListAfterRemove(before: seq<Job>, hash: nat, after: seq<Job>)
    requires DistinctKeys(multiset(before))
    requires forall x: Job :: multiset(after)[x] == if x.hash != hash then multiset(before)[x] else 0
    ensures DistinctKeys(multiset(after)) && SortJobs(after) == Remove(SortJobs(before), hash)
  {
    var sorted := SortJobs(before);
    var list := Remove(sorted, hash);
    SortedIsOrdered(before);
    RemoveOrdered(sorted, hash);
    forall x: Job
      ensures multiset(list)[x] == multiset(after)[x]
    {
      RemoveMultiplicity(sorted, hash, x);
    }
    assert multiset(list) == multiset(after);
    OrderedHasDistinctKeys(list);
    SortIsCanonical(after, list);
  }

  lemma {:induction false} RemoveAppend(s: seq<Job>, job: Job, hash: nat)
    ensures Remove(s + [job], hash) == Remove(s, hash) + (if job.hash != hash then [job] else [])
  {
    if s == [] {
      assert s + [job] == [job];
    } else {
      assert s + [job] == [s[0]] + (s[1..] + [job]);
      RemoveAppend(s[1..], job, hash);
    }
  }

  ghost predicate HasHash(m: multiset<Job>, hash: nat) {
    exists x :: x in m && x.hash == hash
  }

  /** The state of the rebuild loop: what was popped, what was kept of it, and whether
      anything was dropped. */
  ghost predicate Rebuilt(popped: seq<Job>, kept: multiset<Job>, hash: nat, removed: bool) {
    && kept == multiset(Remove(popped, hash))
    && removed == HasHash(multiset(popped), hash)
  }

  lemma RebuildStep(popped: seq<Job>, kept: multiset<Job>, hash: nat, removed: bool, job: Job)
    requires Rebuilt(popped, kept, hash, removed)
    ensures
      if job.hash != hash then Rebuilt(popped + [job], kept + multiset{job}, hash, removed)
      else Rebuilt(popped + [job], kept, hash, true)
  {
    RemoveAppend(popped, job, hash);
    assert multiset(popped + [job]) == multiset(popped) + multiset{job};
    assert job in multiset(popped + [job]);
    assert Remove(popped, hash) + [] == Remove(popped, hash);
  }

  lemma RebuildEnd(all: seq<Job>, popped: seq<Job>, kept: seq<Job>, hash: nat, removed: bool)
    requires multiset(popped) == multiset(all) && Rebuilt(popped, multiset(kept), hash, removed)
    ensures forall x: Job :: multiset(kept)[x] == if x.hash != hash then multiset(all)[x] else 0
    ensures removed == HasHash(multiset(all), hash)
    ensures DistinctKeys(multiset(all)) ==>
              DistinctKeys(multiset(kept)) && SortJobs(kept) == Remove(SortJobs(all), hash)
  {
    RemoveContents(popped, hash);
    if DistinctKeys(multiset(all)) {
      ListAfterRemove(all, hash, kept);
    }
  }

  /** The jobs still to pop and the popped ones are together all jobs. */
  ghost predicate Shares(rest: seq<Job>, popped: seq<Job>, all: seq<Job>) {
    multiset(rest) + multiset(popped) == multiset(all)
  }

  lemma SharesStep(rest: seq<Job>, popped: seq<Job>, all: seq<Job>, job: Job, after: seq<Job>)
    requires Shares(rest, popped, all) && job in multiset(rest)
    requires multiset(after) == multiset(rest) - multiset{job}
    ensures Shares(after, popped + [job], all) && |after| < |rest|
  {
    assert |multiset(after)| == |after| && |multiset(rest)| == |rest|;
    assert |multiset(rest)| == |multiset(after)| + 1;
    assert multiset(popped + [job]) == multiset(popped) + multiset{job};
    assert multiset(after) + (multiset(popped) + multiset{job}) == multiset(rest) + multiset(popped);
  }

  lemma SharesEnd(popped: seq<Job>, all: seq<Job>)
    requires Shares([], popped, all)
    ensures multiset(popped) == multiset(all)
  {
    assert multiset(popped) == multiset([]) + multiset(popped);
  }

  predicate Descending(list: seq<Job>) {
    forall i, j :: 0 <= i < j < |list| ==> !RanksBelow(list[i], list[j])
  }

  lemma DescendingMeans(list: seq<Job>)
    requires Descending(list)
    ensures forall i, j :: 0 <= i < j < |list| ==>
              list[i].priority > list[j].priority || (list[i].priority == list[j].priority && list[i].id <= list[j].id)
  {
    forall i, j | 0 <= i < j < |list|
      ensures list[i].priority > list[j].priority || (list[i].priority == list[j].priority && list[i].id <= list[j].id)
    {
      assert !RanksBelow(list[i], list[j]);
    }
  }

  ghost predicate NoneAbove(list: seq<Job>, rest: multiset<Job>) {
    forall i, x :: 0 <= i < |list| && x in rest ==> !RanksBelow(list[i], x)
  }

  lemma DrainStep(list: seq<Job>, before: multiset<Job>, job: Job, after: multiset<Job>)
    requires Descending(list) && NoneAbove(list, before)
    requires job in before && after <= before && forall x :: x in before ==> !RanksBelow(job, x)
    ensures Descending(list + [job]) && NoneAbove(list + [job], after)
  {
    assert forall x :: x in after ==> x in before;
  }

  lemma DrainOrder(list: seq<Job>)
    requires DistinctKeys(multiset(list)) && Descending(list)
    ensures Ordered(list)
    ensures forall i, j :: 0 <= i < j < |list| ==>
              list[i].priority > list[j].priority || (list[i].priority == list[j].priority && list[i].id < list[j].id)
  {
    forall i, j | 0 <= i < j < |list|
      ensures RanksBelow(list[j], list[i])
    {
      assert list[i] in multiset(list) && list[j] in multiset(list);
      assert list == list[..j] + [list[j]] + list[j + 1..];
      assert list[i] in list[..j];
      assert list[i] in multiset(list[..j]);
      assert list[i] == list[j] ==> multiset(list)[list[i]] >= 2;
      assert !SameKey(list[i], list[j]);
    }
    OrderedMeans(list);
  }

  lemma DrainEnd(all: seq<Job>, list: seq<Job>)
    requires multiset(list) == multiset(all) && Descending(list)
    ensures DistinctKeys(multiset(all)) ==> list == SortJobs(all)
  {
    if DistinctKeys(multiset(all)) {
      DrainOrder(list);
      SortIsCanonical(all, list);
    }
  }

  class JobQueue {
    /** The underlying vector. */
    var c: seq<Job>

    ghost predicate Valid()
      reads this
    {
      IsHeap(c)
    }

    ghost function Contents(): multiset<Job>
      reads this
    {
      multiset(c)
    }

    /** The queue as the stably ordered list. */
    ghost function List(): seq<Job>
      reads this
    {
      SortJobs(c)
    }

    constructor ()
      ensures Valid() && c == [] && List() == []
    {
      c := [];
    }

    method Top() returns (job: Job)
      requires Valid() && c != []
      ensures job == c[0] && job in Contents()
      ensures forall x :: x in Contents() ==> !RanksBelow(job, x)
      ensures forall x :: x in Contents() ==>
                x.priority < job.priority || (x.priority == job.priority && x.id >= job.id)
      ensures DistinctKeys(Contents()) ==> List() != [] && job == List()[0]
    {
      job := c[0];
      assert c[0] in multiset(c);
      forall x | x in multiset(c)
        ensures !RanksBelow(c[0], x)
      {
        var i :| 0 <= i < |c| && c[i] == x;
        RootIsBest(c, i);
      }
      if DistinctKeys(multiset(c)) {
        RootIsListHead(c);
      }
    }

    method Push(job: Job)
      requires Valid()
      modifies this
      ensures Valid()
      ensures Contents() == old(Contents()) + multiset{job}
      ensures DistinctKeys(Contents()) ==> List() == Insert(old(List()), job)
    {
      ghost var before := c;
      c := c + [job];
      var i := |c| - 1;
      assert forall j :: 1 <= j < |before| && Fits(before, j) ==> Fits(c, j);
      while i > 0 && RanksBelow(c[(i - 1) / 2], c[i])
        invariant 0 <= i < |c|
        invariant multiset(c) == multiset(before) + multiset{job}
        invariant HeapButAbove(c, i)
      {
        SiftUpStep(c, i);
        SwapContents(c, i, (i - 1) / 2);
        c := Swap(c, i, (i - 1) / 2);
        i := (i - 1) / 2;
      }
      if DistinctKeys(multiset(c)) {
        ListAfterPush(before, job, c);
      }
    }

    method Pop()
      requires Valid() && c != []
      modifies this
      ensures Valid()
      ensures Contents() == old(Contents()) - multiset{old(c)[0]}
      ensures DistinctKeys(old(Contents())) ==> DistinctKeys(Contents()) && List() == old(List())[1..]
    {
      ghost var before := c;
      var last := c[|c| - 1];
      assert c == c[..|c| - 1] + [last];
      c := c[..|c| - 1];
      if c != [] {
        assert before == [before[0]] + c[1..] + [last];
        assert c == [c[0]] + c[1..];
        c := c[0 := last];
        assert c == [last] + c[1..];
        assert forall j :: 1 <= j < |c| && (j - 1) / 2 != 0 && Fits(before, j) ==> Fits(c, j);
        SiftDown();
      }
      if DistinctKeys(multiset(before)) {
        DistinctAfterPop(multiset(before), before[0]);
        ListAfterPop(before, c);
      }
    }

    method SiftDown()
      requires c != []
      requires HeapButBelow(c, 0)
      modifies this
      ensures Valid() && Contents() == old(Contents())
    {
      ghost var bag := multiset(c);
      var i := 0;
      while 2 * i + 1 < |c|
        invariant 0 <= i < |c| && multiset(c) == bag
        invariant HeapButBelow(c, i)
      {
        var child := 2 * i + 1;
        if child + 1 < |c| && RanksBelow(c[child], c[child + 1]) {
          child := child + 1;
        }
        if !RanksBelow(c[i], c[child]) {
          return;
        }
        SiftDownStep(c, i, child);
        SwapContents(c, i, child);
        c := Swap(c, i, child);
        i := child;
      }
    }

    /** The rebuild loop of `remove_job`. */
    method RemoveHash(hash: nat) returns (removed: bool)
      requires Valid()
      modifies this
      ensures Valid()
      ensures forall x: Job :: Contents()[x] == if x.hash != hash then old(Contents())[x] else 0
      ensures removed == HasHash(old(Contents()), hash)
      ensures DistinctKeys(old(Contents())) ==> DistinctKeys(Contents()) && List() == Remove(old(List()), hash)
    {
      ghost var all, popped: seq<Job> := c, [];
      var kept := new JobQueue();
      removed := false;
      while c != []
        invariant Valid() && kept.Valid() && fresh(kept)
        invariant Shares(c, popped, all)
        invariant Rebuilt(popped, multiset(kept.c), hash, removed)
        decreases |c|
      {
        var current := Top();
        ghost var before := c;
        RebuildStep(popped, multiset(kept.c), hash, removed, current);
        if current.hash != hash {
          kept.Push(current);
        } else {
          removed := true;
        }
        Pop();
        SharesStep(before, popped, all, current, c);
        popped := popped + [current];
      }
      SharesEnd(popped, all);
      c := kept.c;
      RebuildEnd(all, popped, c, hash, removed);
    }

    /** The drain loop of the queue report, run on a copy of the queue. */
    method Drained() returns (list: seq<Job>)
      requires Valid()
      ensures multiset(list) == Contents()
      ensures Descending(list)
      ensures forall i, j :: 0 <= i < j < |list| ==>
                || list[i].priority > list[j].priority
                || (list[i].priority == list[j].priority && list[i].id <= list[j].id)
      ensures DistinctKeys(Contents()) ==> list == List()
    {
      var copy := new JobQueue();
      copy.c := c;
      list := [];
      while copy.c != []
        invariant copy.Valid() && fresh(copy)
        invariant Shares(copy.c, list, c)
        invariant Descending(list) && NoneAbove(list, multiset(copy.c))
        decreases |copy.c|
      {
        var current := copy.Top();
        ghost var before := copy.c;
        copy.Pop();
        SharesStep(before, list, c, current, copy.c);
        DrainStep(list, multiset(before), current, multiset(copy.c));
        list := list + [current];
      }
      SharesEnd(list, c);
      DrainEnd(c, list);
      DescendingMeans(list);
    }
  }
}
