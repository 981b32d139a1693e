// Placing breaks between driving legs. The optimiser's schedule and the planner's leg emission both
// break as late as possible; this module shows that rule safe and optimal for any driving limit.
module Breaks {

  // Which amounts of continuous driving are allowed: if x is, every smaller amount is.
  ghost predicate Limit(fits: real -> bool) {
    forall x, y :: 0.0 <= y <= x && fits(x) ==> fits(y)
  }

  ghost predicate Legs(legs: seq<real>) {
    forall i :: 0 <= i < |legs| ==> legs[i] >= 0.0
  }

  ghost predicate EachFits(fits: real -> bool, legs: seq<real>) {
    forall i :: 0 <= i < |legs| ==> fits(legs[i])
  }

  ghost function Sum(legs: seq<real>): real {
    if legs == [] then 0.0 else legs[0] + Sum(legs[1..])
  }

  ghost function Count(breaks: seq<bool>): nat {
    if breaks == [] then 0 else (if breaks[0] then 1 else 0) + Count(breaks[1..])
  }

  // The time that the breaks take when each lasts `length`.
  ghost function BreakTime(breaks: seq<bool>, length: real): real {
    if breaks == [] then 0.0 else (if breaks[0] then length else 0.0) + BreakTime(breaks[1..], length)
  }

  function Times(count: nat, length: real): real { count as real * length }

  lemma BreakTimeIsProportional(breaks: seq<bool>, length: real)
    ensures BreakTime(breaks, length) == Times(Count(breaks), length)
  {
  }

  ghost function Since(since: real, rest: bool, leg: real): real {
    (if rest then 0.0 else since) + leg
  }

  // Break before a leg exactly when it would not fit; `since` is the driving since the last break.
  ghost function Lazy(fits: real -> bool, since: real, legs: seq<real>): (breaks: seq<bool>)
    decreases |legs|
  {
    if legs == [] then []
    else
      var rest := !fits(since + legs[0]);
      [rest] + Lazy(fits, Since(since, rest, legs[0]), legs[1..])
  }

  // Any choice of breaks that never drives longer than allowed.
  ghost predicate Allowed(fits: real -> bool, since: real, legs: seq<real>, breaks: seq<bool>)
    decreases |legs|
  {
    |breaks| == |legs| &&
    (legs != [] ==>
      fits(Since(since, breaks[0], legs[0])) &&
      Allowed(fits, Since(since, breaks[0], legs[0]), legs[1..], breaks[1..]))
  }

  lemma LazyLength(fits: real -> bool, since: real, legs: seq<real>)
    ensures |Lazy(fits, since, legs)| == |legs|
    decreases |legs|
  {
  }

  // When every leg fits by itself the lazy rule is an allowed choice.
  lemma LazyIsAllowed(fits: real -> bool, since: real, legs: seq<real>)
    requires EachFits(fits, legs)
    ensures Allowed(fits, since, legs, Lazy(fits, since, legs))
    decreases |legs|
  {
    if legs != [] {
      var rest := !fits(since + legs[0]);
      assert fits(Since(since, rest, legs[0])) by { assert 0.0 + legs[0] == legs[0]; }
      LazyIsAllowed(fits, Since(since, rest, legs[0]), legs[1..]);
    }
  }

  // The lazy rule stays ahead of any other choice: it has taken no more breaks, or exactly one
  // more while having driven less since.
  lemma {:induction false} LazyStaysAhead(fits: real -> bool, s: real, t: real, legs: seq<real>, other: seq<bool>)
    requires Limit(fits) && Legs(legs) && s >= 0.0 && t >= 0.0
    requires Allowed(fits, t, legs, other)
    ensures Count(Lazy(fits, s, legs)) <= Count(other) + (if s <= t then 0 else 1)
    decreases |legs|
  {
    if legs != [] {
      var rest := !fits(s + legs[0]);
      LazyStaysAhead(fits, Since(s, rest, legs[0]), Since(t, other[0], legs[0]), legs[1..], other[1..]);
    }
  }

  // The lazy rule takes the fewest breaks of all allowed choices.
  lemma FewestBreaks(fits: real -> bool, since: real, legs: seq<real>, other: seq<bool>)
    requires Limit(fits) && Legs(legs) && since >= 0.0
    requires Allowed(fits, since, legs, other)
    ensures Count(Lazy(fits, since, legs)) <= Count(other)
  {
    LazyStaysAhead(fits, since, since, legs, other);
  }

  // Driving hi legs in a row without a break keeps within the limit.
  lemma UnbrokenFits(fits: real -> bool, since: real, legs: seq<real>, hi: nat)
    requires 1 <= hi <= |legs| == |Lazy(fits, since, legs)|
    requires forall k :: 0 <= k < hi ==> !Lazy(fits, since, legs)[k]
    ensures fits(since + Sum(legs[..hi]))
    decreases hi
  {
    var lazy := Lazy(fits, since, legs);
    assert !lazy[0];
    if hi == 1 {
      assert Sum(legs[..1]) == legs[0];
    } else {
      assert legs[..hi][1..] == legs[1..][..hi - 1];
      assert lazy[1..] == Lazy(fits, since + legs[0], legs[1..]);
      forall k | 0 <= k < hi - 1 ensures !lazy[1..][k] { assert lazy[1..][k] == lazy[k + 1]; }
      UnbrokenFits(fits, since + legs[0], legs[1..], hi - 1);
      assert since + Sum(legs[..hi]) == since + legs[0] + Sum(legs[1..][..hi - 1]);
    }
  }

  lemma SliceShift(legs: seq<real>, lo: nat, hi: nat)
    requires 0 < lo <= hi <= |legs|
    ensures legs[lo..hi] == legs[1..][lo - 1..hi - 1]
  {
    var tail := legs[1..];
    forall k | 0 <= k < hi - lo
      ensures legs[lo..hi][k] == tail[lo - 1..hi - 1][k]
    {
      assert tail[lo - 1 + k] == legs[lo + k];
    }
  }

  // Every stretch lo..hi that the lazy rule does not interrupt fits, unless it is one over-long leg.
  lemma StretchFits(fits: real -> bool, since: real, legs: seq<real>, lo: nat, hi: nat)
    requires Limit(fits) && Legs(legs) && since >= 0.0
    requires lo < hi <= |legs| == |Lazy(fits, since, legs)|
    requires forall k :: lo < k < hi ==> !Lazy(fits, since, legs)[k]
    ensures fits(Sum(legs[lo..hi])) || hi == lo + 1
    decreases lo
  {
    var lazy := Lazy(fits, since, legs);
    var next := Since(since, lazy[0], legs[0]);
    assert lazy[1..] == Lazy(fits, next, legs[1..]);
    if lo > 0 {
      SliceShift(legs, lo, hi);
      forall k | lo - 1 < k < hi - 1 ensures !lazy[1..][k] { assert lazy[1..][k] == lazy[k + 1]; }
      StretchFits(fits, next, legs[1..], lo - 1, hi - 1);
    } else if hi > 1 {
      forall k | 0 <= k < hi - 1 ensures !lazy[1..][k] { assert lazy[1..][k] == lazy[k + 1]; }
      UnbrokenFits(fits, next, legs[1..], hi - 1);
      assert legs[..hi][1..] == legs[1..][..hi - 1] && legs[0..hi] == legs[..hi];
      SumNonNegative(legs[..hi]);
    }
  }

  lemma SumNonNegative(legs: seq<real>)
    requires Legs(legs)
    ensures Sum(legs) >= 0.0
  {
  }
}
