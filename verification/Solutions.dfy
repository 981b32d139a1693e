// A solution on the heap, and the measures by which local search terminates.
module Solutions {
  import opened Sequences
  import opened Paths
  import opened Problems
  import opened Slices
  import opened Schedules

  // Copying a solution copies the reference: both copies then share the same plans and orders.
  datatype Solution = Solution(plans: Fleet, cost: real)

  ghost function TotalLength(d: Distance, ps: seq<Order>): real {
    if ps == [] then 0.0 else Length(d, ps[0]) + TotalLength(d, ps[1..])
  }

  lemma TotalLengthUpdate(d: Distance, ps: seq<Order>, i: nat, o: Order)
    requires i < |ps|
    ensures TotalLength(d, ps[i := o]) == TotalLength(d, ps) - Length(d, ps[i]) + Length(d, o)
  {
    if i > 0 {
      TotalLengthUpdate(d, ps[1..], i - 1, o);
      assert ps[i := o][1..] == ps[1..][i - 1 := o];
    } else {
      assert ps[i := o][1..] == ps[1..];
    }
  }

  lemma TotalLengthNonNegative(d: Distance, ps: seq<Order>)
    requires NonNegative(d)
    ensures TotalLength(d, ps) >= 0.0
  {
    if ps != [] {
      LengthNonNegative(d, ps[0]);
      TotalLengthNonNegative(d, ps[1..]);
    }
  }

  // A saving counts when it exceeds this amount.
  const EPSILON: real := 0.000001

  // How often a non-negative amount can still fall by more than EPSILON.
  ghost function Falls(x: real): nat
    requires x >= 0.0
  {
    (x * 1000000.0).Floor
  }

  lemma FallsDecrease(x: real, y: real)
    requires 0.0 <= x && x + EPSILON < y
    ensures Falls(x) < Falls(y)
  {
  }

  ghost predicate AllFeasible(p: Problem, ps: seq<Order>)
    requires p.speedKph > 0.0 && Plans(p, ps)
  {
    forall i :: 0 <= i < |ps| ==> Feasible(p, p.vehicles[i], ps[i])
  }

  ghost predicate OnSchedule(p: Problem, ps: seq<Order>)
    requires p.speedKph > 0.0
  {
    Plans(p, ps) && AllFeasible(p, ps)
  }

  // Every plan is untouched or has been scheduled successfully.
  ghost predicate UntouchedOrFeasible(p: Problem, was: seq<Order>, now: seq<Order>)
    requires p.speedKph > 0.0 && Plans(p, was) && Plans(p, now)
  {
    forall i :: 0 <= i < |now| ==> now[i] == was[i] || Feasible(p, p.vehicles[i], now[i])
  }

  lemma AssignedPointwise(was: seq<Order>, now: seq<Order>)
    requires |was| == |now| && forall i :: 0 <= i < |was| ==> multiset(was[i]) == multiset(now[i])
    ensures Assigned(was) == Assigned(now)
  {
  }

  lemma SameMembersKnown(p: Problem, o: Order, o': Order)
    requires KnownNodes(p, o) && multiset(o) == multiset(o')
    ensures KnownNodes(p, o')
  {
    forall k | 0 <= k < |o'| ensures o'[k] < |p.nodes| {
      assert o'[k] in multiset(o);
      assert o'[k] in o;
    }
  }
}
