/** Counting and summing over the threads of a state: what one update changes. */
module Tally {

  function Count<T>(s: seq<T>, p: T -> bool): nat {
    if s == [] then 0 else (if p(s[0]) then 1 else 0) + Count(s[1..], p)
  }

  function Sum<T>(s: seq<T>, w: T -> nat): nat {
    if s == [] then 0 else w(s[0]) + Sum(s[1..], w)
  }

  lemma {:induction false} CountUpdate<T>(s: seq<T>, i: nat, x: T, p: T -> bool)
    requires i < |s|
    ensures Count(s[i := x], p) + (if p(s[i]) then 1 else 0) == Count(s, p) + (if p(x) then 1 else 0)
    ensures Count(s, p) <= |s|
    ensures p(s[i]) ==> Count(s, p) >= 1
  {
    if i > 0 {
      CountUpdate(s[1..], i - 1, x, p);
      assert s[i := x][1..] == s[1..][i - 1 := x];
    } else {
      CountBound(s[1..], p);
      assert s[i := x][1..] == s[1..];
    }
  }

  lemma {:induction false} CountBound<T>(s: seq<T>, p: T -> bool)
    ensures Count(s, p) <= |s|
  {
    if s != [] {
      CountBound(s[1..], p);
    }
  }

  lemma {:induction false} CountWitness<T>(s: seq<T>, p: T -> bool) returns (i: nat)
    requires Count(s, p) > 0
    ensures i < |s| && p(s[i])
  {
    if p(s[0]) {
      i := 0;
    } else {
      i := CountWitness(s[1..], p);
      i := i + 1;
    }
  }

  lemma {:induction false} CountNone<T>(s: seq<T>, p: T -> bool)
    requires forall x :: x in s ==> !p(x)
    ensures Count(s, p) == 0
  {
    if s != [] {
      CountNone(s[1..], p);
    }
  }

  lemma {:induction false} CountMonotone<T(!new)>(s: seq<T>, part: T -> bool, whole: T -> bool)
    requires forall x :: part(x) ==> whole(x)
    ensures Count(s, part) <= Count(s, whole)
  {
    if s != [] {
      CountMonotone(s[1..], part, whole);
    }
  }

  /** Two disjoint parts count at most as much as the whole. */
  lemma {:induction false} CountDisjoint<T(!new)>(s: seq<T>, whole: T -> bool, part: T -> bool, other: T -> bool)
    requires forall x :: part(x) ==> whole(x) && !other(x)
    requires forall x :: other(x) ==> whole(x)
    ensures Count(s, part) + Count(s, other) <= Count(s, whole)
  {
    if s != [] {
      CountDisjoint(s[1..], whole, part, other);
    }
  }

  lemma {:induction false} CountAppend<T>(s: seq<T>, x: T, p: T -> bool)
    ensures Count(s + [x], p) == Count(s, p) + (if p(x) then 1 else 0)
  {
    if s == [] {
      assert s + [x] == [x];
    } else {
      assert (s + [x])[1..] == s[1..] + [x];
      CountAppend(s[1..], x, p);
    }
  }

  lemma CountTwice<T(!new)>(s: seq<T>, i: nat, j: nat, p: T -> bool)
    requires i < j < |s| && p(s[i]) && p(s[j])
    ensures Count(s, p) >= 2
  {
    var front := s[..j];
    CountUpdate(front, i, s[i], p);
    CountSplit(front, s[j..], p);
    assert front + s[j..] == s;
    assert s[j..][0] == s[j];
  }

  lemma {:induction false} CountSplit<T>(s: seq<T>, t: seq<T>, p: T -> bool)
    ensures Count(s + t, p) == Count(s, p) + Count(t, p)
  {
    if s == [] {
      assert s + t == t;
    } else {
      assert (s + t)[1..] == s[1..] + t;
      CountSplit(s[1..], t, p);
    }
  }

  lemma {:induction false} SumUpdate<T>(s: seq<T>, i: nat, x: T, w: T -> nat)
    requires i < |s|
    ensures Sum(s[i := x], w) + w(s[i]) == Sum(s, w) + w(x)
    ensures w(s[i]) <= Sum(s, w)
  {
    if i > 0 {
      SumUpdate(s[1..], i - 1, x, w);
      assert s[i := x][1..] == s[1..][i - 1 := x];
    } else {
      assert s[i := x][1..] == s[1..];
    }
  }
}
