/** Jobs, the comparator of the job containers, and the stably ordered list the
    containers are specified against. */
module Jobs {

  /** A work request. The id comes from a global dispenser, so it is unique. */
  datatype Job = Job(id: nat, priority: nat, hash: nat)

  datatype Option<+T> = None | Some(value: T)

  /** `job::comparator`: true when `a` ranks strictly below `b`. */
  predicate RanksBelow(a: Job, b: Job) {
    if a.priority != b.priority then b.priority > a.priority else a.id > b.id
  }

  predicate SameKey(a: Job, b: Job) {
    a.priority == b.priority && a.id == b.id
  }

  /** Best job first: higher priority, then smaller id. */
  predicate Ordered(s: seq<Job>) {
    forall i, j :: 0 <= i < j < |s| ==> RanksBelow(s[j], s[i])
  }

  ghost predicate DistinctKeys(m: multiset<Job>) {
    forall a, b {:trigger SameKey(a, b), m[a], m[b]} :: a in m && b in m && SameKey(a, b) ==> a == b && m[a] == 1
  }

  /** Where a job lands in the list: behind everything that does not rank below it. */
  function Insert(s: seq<Job>, job: Job): seq<Job> {
    if s == [] || RanksBelow(s[0], job) then [job] + s else [s[0]] + Insert(s[1..], job)
  }

  /** The survivors of a cancellation, in their old order. */
  function Remove(s: seq<Job>, hash: nat): seq<Job> {
    if s == [] then []
    else (if s[0].hash != hash then [s[0]] else []) + Remove(s[1..], hash)
  }

  /** The jobs a cancellation takes out. */
  function Matching(s: seq<Job>, hash: nat): seq<Job> {
    if s == [] then []
    else (if s[0].hash == hash then [s[0]] else []) + Matching(s[1..], hash)
  }

  /** The stably ordered list of a bag of jobs given in any order. */
  function SortJobs(s: seq<Job>): seq<Job> {
    if s == [] then [] else Insert(SortJobs(s[..|s| - 1]), s[|s| - 1])
  }

  // ---------------------------------------------------------------- comparator

  /** Section 23.6.4 of ISO C++14 asks for a strict weak order; the incomparable
      jobs are exactly those with equal keys, so it is total on distinct ids. */
  lemma ComparatorIsStrictOrder(a: Job, b: Job, c: Job)
    ensures !(RanksBelow(a, b) && RanksBelow(b, a))
    ensures RanksBelow(a, b) && RanksBelow(b, c) ==> RanksBelow(a, c)
    ensures !RanksBelow(a, b) && !RanksBelow(b, c) ==> !RanksBelow(a, c)
    ensures !RanksBelow(a, b) && !RanksBelow(b, a) <==> SameKey(a, b)
  {
  }

  /** The order of the list in numbers: higher priority first, and within one
      priority the job created first. */
  lemma OrderedMeans(s: seq<Job>)
    ensures
      Ordered(s) <==>
      forall i, j :: 0 <= i < j < |s| ==>
        s[i].priority > s[j].priority || (s[i].priority == s[j].priority && s[i].id < s[j].id)
  {
    if Ordered(s) {
      forall i, j | 0 <= i < j < |s|
        ensures s[i].priority > s[j].priority || (s[i].priority == s[j].priority && s[i].id < s[j].id)
      {
        assert RanksBelow(s[j], s[i]);
      }
    }
  }

  // ---------------------------------------------------------------------- list

  lemma {:induction false} InsertContents(s: seq<Job>, job: Job)
    ensures multiset(Insert(s, job)) == multiset(s) + multiset{job}
    ensures |Insert(s, job)| == |s| + 1
  {
    if s != [] && !RanksBelow(s[0], job) {
      InsertContents(s[1..], job);
      assert s == [s[0]] + s[1..];
    }
  }

  lemma InsertMultiplicity(s: seq<Job>, job: Job, x: Job)
    ensures multiset(Insert(s, job))[x] == multiset(s)[x] + multiset{job}[x]
  {
    InsertContents(s, job);
  }

  lemma {:induction false} InsertOrdered(s: seq<Job>, job: Job)
    requires Ordered(s)
    requires forall x :: x in s ==> !SameKey(x, job)
    ensures Ordered(Insert(s, job))
  {
    if s != [] && !RanksBelow(s[0], job) {
      var rest := Insert(s[1..], job);
      InsertOrdered(s[1..], job);
      InsertContents(s[1..], job);
      assert s[0] in s;
      forall j | 0 <= j < |rest|
        ensures RanksBelow(rest[j], s[0])
      {
        assert rest[j] in multiset(rest);
      }
    }
  }

  lemma {:induction false} RemoveMultiplicity(s: seq<Job>, hash: nat, x: Job)
    ensures multiset(Remove(s, hash))[x] == if x.hash != hash then multiset(s)[x] else 0
    ensures multiset(Matching(s, hash))[x] == if x.hash == hash then multiset(s)[x] else 0
  {
    if s != [] {
      RemoveMultiplicity(s[1..], hash, x);
      assert s == [s[0]] + s[1..];
    }
  }

  lemma RemoveContents(s: seq<Job>, hash: nat)
    ensures forall x: Job :: multiset(Remove(s, hash))[x] == if x.hash != hash then multiset(s)[x] else 0
    ensures forall x: Job :: multiset(Matching(s, hash))[x] == if x.hash == hash then multiset(s)[x] else 0
    ensures multiset(Remove(s, hash)) + multiset(Matching(s, hash)) == multiset(s)
    ensures |Remove(s, hash)| + |Matching(s, hash)| == |s|
  {
    forall x: Job {
      RemoveMultiplicity(s, hash, x);
    }
    var kept, gone := multiset(Remove(s, hash)), multiset(Matching(s, hash));
    assert kept + gone == multiset(s);
    assert |kept + gone| == |kept| + |gone|;
  }

  lemma {:induction false} SurvivorOrigin(s: seq<Job>, hash: nat, j: nat) returns (q: nat)
    requires j < |Remove(s, hash)|
    ensures q < |s| && s[q] == Remove(s, hash)[j]
    decreases |s|
  {
    if s[0].hash == hash {
      q := SurvivorOrigin(s[1..], hash, j);
      q := q + 1;
    } else if j > 0 {
      q := SurvivorOrigin(s[1..], hash, j - 1);
      q := q + 1;
    } else {
      q := 0;
    }
  }

  lemma {:induction false} RemoveOrdered(s: seq<Job>, hash: nat)
    requires Ordered(s)
    ensures Ordered(Remove(s, hash))
  {
    if s != [] {
      var rest := Remove(s[1..], hash);
      RemoveOrdered(s[1..], hash);
      forall j | 0 <= j < |rest|
        ensures RanksBelow(rest[j], s[0])
      {
        var q := SurvivorOrigin(s[1..], hash, j);
        assert s[1..][q] == s[q + 1];
      }
    }
  }

  /** Two survivors pop in the order they would have popped before the removal. */
  lemma {:induction false} RemoveKeepsPopOrder(s: seq<Job>, hash: nat, i: nat, j: nat) returns (p: nat, q: nat)
    requires i < j < |Remove(s, hash)|
    ensures p < q < |s| && s[p] == Remove(s, hash)[i] && s[q] == Remove(s, hash)[j]
    decreases |s|
  {
    if s[0].hash == hash {
      p, q := RemoveKeepsPopOrder(s[1..], hash, i, j);
      p, q := p + 1, q + 1;
    } else if i > 0 {
      p, q := RemoveKeepsPopOrder(s[1..], hash, i - 1, j - 1);
      p, q := p + 1, q + 1;
    } else {
      q := SurvivorOrigin(s[1..], hash, j - 1);
      p, q := 0, q + 1;
    }
  }

  lemma HeadIsBest(s: seq<Job>, job: Job)
    requires Ordered(s) && job in multiset(s)
    ensures s != [] && (job == s[0] || RanksBelow(job, s[0]))
  {
    var i :| 0 <= i < |s| && s[i] == job;
    assert i == 0 || RanksBelow(s[i], s[0]);
  }

  lemma HeadsAgree(s: seq<Job>, t: seq<Job>)
    requires Ordered(s) && Ordered(t) && multiset(s) == multiset(t) && s != [] && t != []
    ensures s[0] == t[0]
  {
    HeadIsBest(s, t[0]);
    HeadIsBest(t, s[0]);
  }

  /** An ordered list is determined by its contents. */
  lemma {:induction false} OrderedUnique(s: seq<Job>, t: seq<Job>)
    requires Ordered(s) && Ordered(t) && multiset(s) == multiset(t)
    ensures s == t
  {
    assert |s| == |multiset(s)| == |multiset(t)| == |t|;
    if s != [] {
      HeadsAgree(s, t);
      assert s == [s[0]] + s[1..] && t == [t[0]] + t[1..];
      assert multiset(s[1..]) == multiset(s) - multiset{s[0]};
      assert multiset(t[1..]) == multiset(t) - multiset{t[0]};
      OrderedUnique(s[1..], t[1..]);
    }
  }

  lemma OnlyOne(s: seq<Job>, i: nat)
    requires Ordered(s) && i < |s|
    ensures multiset(s)[s[i]] == 1
  {
    assert s == s[..i] + [s[i]] + s[i + 1..];
    assert s[i] !in s[..i] && s[i] !in s[i + 1..];
  }

  lemma OrderedHasDistinctKeys(s: seq<Job>)
    requires Ordered(s)
    ensures DistinctKeys(multiset(s))
  {
    forall a, b | a in multiset(s) && b in multiset(s) && SameKey(a, b)
      ensures a == b && multiset(s)[a] == 1
    {
      var i :| 0 <= i < |s| && s[i] == a;
      var j :| 0 <= j < |s| && s[j] == b;
      assert i == j;
      OnlyOne(s, i);
    }
  }

  lemma DistinctSplit(m: multiset<Job>, job: Job)
    requires DistinctKeys(m + multiset{job})
    ensures DistinctKeys(m)
    ensures forall x :: x in m ==> !SameKey(x, job)
  {
    var all := m + multiset{job};
    forall a, b | a in m && b in m && SameKey(a, b)
      ensures a == b && m[a] == 1
    {
      assert a in all && b in all;
    }
    forall x | x in m
      ensures !SameKey(x, job)
    {
      assert x in all && job in all;
      assert all[job] == m[job] + 1;
    }
  }

  lemma DistinctJoin(m: multiset<Job>, job: Job)
    requires DistinctKeys(m) && forall x :: x in m ==> !SameKey(x, job)
    ensures DistinctKeys(m + multiset{job})
  {
    forall a, b | a in m + multiset{job} && b in m + multiset{job} && SameKey(a, b)
      ensures a == b && (m + multiset{job})[a] == 1
    {
      assert SameKey(job, job) && SameKey(b, a);
      if a != job {
        assert a in m;
      }
    }
  }

  lemma {:induction false} SortedIsOrdered(s: seq<Job>)
    ensures multiset(SortJobs(s)) == multiset(s)
    ensures DistinctKeys(multiset(s)) ==> Ordered(SortJobs(s))
  {
    if s != [] {
      var front, last := s[..|s| - 1], s[|s| - 1];
      assert s == front + [last];
      SortedIsOrdered(front);
      InsertContents(SortJobs(front), last);
      if DistinctKeys(multiset(s)) {
        DistinctSplit(multiset(front), last);
        assert forall x :: x in SortJobs(front) ==> x in multiset(SortJobs(front));
        InsertOrdered(SortJobs(front), last);
      }
    }
  }

  /** The list does not depend on how the jobs happen to be stored. */
  lemma SortIsCanonical(s: seq<Job>, list: seq<Job>)
    requires DistinctKeys(multiset(s)) && Ordered(list) && multiset(list) == multiset(s)
    ensures SortJobs(s) == list
  {
    SortedIsOrdered(s);
    OrderedUnique(SortJobs(s), list);
  }
}
