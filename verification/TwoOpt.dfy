// twoOptImprove: 2-opt within each plan (internal/opt/alns_engine.go:468-492).
module TwoOpt {
  import opened Sequences
  import opened Paths
  import opened Problems
  import opened Schedules
  import opened Costs
  import opened Solutions
  import opened Heuristics

  // The copy of o with the segment i..k reversed by swapping from both ends.
  method ReverseCopy(o: Order, i: nat, k: nat) returns (r: Order)
    requires i <= k < |o|
    ensures r == ReverseSegment(o, i, k)
  {
    var c := new nat[|o|](j requires 0 <= j < |o| => o[j]);
    var a, b := i, k;
    while a < b
      invariant i <= a && a + b == i + k && a <= b + 1
      invariant forall j :: 0 <= j < |o| && (i <= j < a || b < j <= k) ==> c[j] == o[i + k - j]
      invariant forall j :: 0 <= j < |o| && !(i <= j < a || b < j <= k) ==> c[j] == o[j]
    {
      assert c[a] == o[a] && c[b] == o[b];
      c[a], c[b] := c[b], c[a];
      a, b := a + 1, b - 1;
    }
    r := c[..];
  }

  // No feasible reversal of an interior segment shortens the plan by more than EPSILON.
  ghost predicate TwoOptimal(p: Problem, v: Vehicle, o: Order)
    requires p.speedKph > 0.0 && KnownNodes(p, o)
  {
    forall i, k :: 1 <= i < k < |o| - 1 ==> NoGain(p, v, o, i, k)
  }

  ghost predicate NoGain(p: Problem, v: Vehicle, o: Order, i: nat, k: nat)
    requires p.speedKph > 0.0 && KnownNodes(p, o) && i <= k < |o|
  {
    var c := ReverseSegment(o, i, k);
    KnownNodes(p, c) && (Feasible(p, v, c) ==> Length(p.d, o) <= Length(p.d, c) + EPSILON)
  }

  // What 2-opt may turn a plan into.
  ghost predicate Reordered(p: Problem, v: Vehicle, was: Order, now: Order)
    requires p.speedKph > 0.0 && KnownNodes(p, was)
  {
    multiset(now) == multiset(was) && SameEnds(now, was) && KnownNodes(p, now) &&
    Length(p.d, now) <= Length(p.d, was) && (now == was || Feasible(p, v, now))
  }

  method TwoOptPass(p: Problem, v: Vehicle, start: Order) returns (pl: Order, improved: bool)
    requires Usable(p) && KnownNodes(p, start)
    ensures Reordered(p, v, start, pl)
    ensures if improved then Length(p.d, pl) + EPSILON < Length(p.d, start) else pl == start && TwoOptimal(p, v, start)
  {
    pl, improved := start, false;
    var n := |start|;
    var i := 1;
    while i < n - 2
      invariant 1 <= i && Reordered(p, v, start, pl)
      invariant if improved then Length(p.d, pl) + EPSILON < Length(p.d, start)
                else pl == start && forall i', k' :: 1 <= i' < k' < n - 1 && Before(i', k', i, 0) ==> NoGain(p, v, start, i', k')
    {
      var k := i + 1;
      while k < n - 1
        invariant i < k && Reordered(p, v, start, pl)
        invariant if improved then Length(p.d, pl) + EPSILON < Length(p.d, start)
                  else pl == start && forall i', k' :: 1 <= i' < k' < n - 1 && Before(i', k', i, k) ==> NoGain(p, v, start, i', k')
      {
        pl, improved := TryReversal(p, v, start, pl, improved, i, k);
        k := k + 1;
      }
      i := i + 1;
    }
  }

  method TryReversal(p: Problem, v: Vehicle, ghost start: Order, pl0: Order, improved0: bool, i: nat, k: nat)
    returns (pl: Order, improved: bool)
    requires Usable(p) && KnownNodes(p, start) && 1 <= i < k < |start| - 1
    requires Reordered(p, v, start, pl0)
    requires if improved0 then Length(p.d, pl0) + EPSILON < Length(p.d, start) else pl0 == start
    ensures Reordered(p, v, start, pl)
    ensures if improved then Length(p.d, pl) + EPSILON < Length(p.d, start)
            else !improved0 && pl == start && NoGain(p, v, start, i, k)
  {
    pl, improved := pl0, improved0;
    var cand := ReverseCopy(pl, i, k);
    ReverseSegmentMultiset(pl, i, k);
    SameMembersKnown(p, pl, cand);
    var s := SchedulePlan(p, v, cand);
    if !s.feasible { return; }
    var c1 := PathDistanceNodes(p, pl);
    var c2 := PathDistanceNodes(p, cand);
    if c2 + 0.000001 < c1 { pl := cand; improved := true; }
  }

  method TwoOptPlan(p: Problem, v: Vehicle, o: Order) returns (pl: Order)
    requires Usable(p) && KnownNodes(p, o)
    ensures Reordered(p, v, o, pl) && TwoOptimal(p, v, pl)
  {
    pl := o;
    var improved := true;
    LengthNonNegative(p.d, pl);
    while improved
      invariant Reordered(p, v, o, pl) && Length(p.d, pl) >= 0.0
      invariant !improved ==> TwoOptimal(p, v, pl)
      decreases Falls(Length(p.d, pl)), improved
    {
      ghost var was := pl;
      pl, improved := TwoOptPass(p, v, pl);
      LengthNonNegative(p.d, pl);
      if improved { FallsDecrease(Length(p.d, pl), Length(p.d, was)); }
    }
  }

  // Every plan is reordered as far as 2-opt goes.
  ghost predicate TwoOptResult(p: Problem, was: seq<Order>, now: seq<Order>)
    requires p.speedKph > 0.0 && Plans(p, was)
  {
    Plans(p, now) &&
    forall vi :: 0 <= vi < |now| ==> Reordered(p, p.vehicles[vi], was[vi], now[vi]) && TwoOptimal(p, p.vehicles[vi], now[vi])
  }

  method TwoOptImprove(p: Problem, sol: Solution) returns (out: Solution)
    requires Usable(p) && sol.plans.Valid() && Plans(p, sol.plans.orders)
    modifies sol.plans
    ensures out.plans.Valid()
    ensures out.plans == sol.plans && TwoOptResult(p, old(sol.plans.orders), out.plans.orders) && out.cost == Cost(p, out.plans.orders)
    ensures Assigned(out.plans.orders) == Assigned(old(sol.plans.orders))
  {
    ghost var was := sol.plans.orders;
    var plans := sol.plans;
    for vi := 0 to |plans.slices|
      invariant plans.Valid() && Plans(p, plans.orders)
      invariant forall j :: 0 <= j < vi ==>
                  Reordered(p, p.vehicles[j], was[j], plans.orders[j]) && TwoOptimal(p, p.vehicles[j], plans.orders[j])
      invariant forall j :: vi <= j < |was| ==> plans.orders[j] == was[j]
    {
      var o := plans.Read(vi);
      var pl := TwoOptPlan(p, p.vehicles[vi], o);
      if pl != o { plans.Write(vi, pl); }
    }
    AssignedPointwise(was, plans.orders);
    var c := CostOf(p, plans.ReadAll());
    out := Solution(plans, c);
  }
}
