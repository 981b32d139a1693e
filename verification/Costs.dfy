// The objective of the search (internal/opt/alns_engine.go:292-329).
module Costs {
  import opened Sequences
  import opened Paths
  import opened Problems

  function Weight(p: Problem, key: string): real {
    if key in p.objectives then p.objectives[key] else 0.0
  }

  function DriveWeight(p: Problem): real {
    if Weight(p, "driveTime") == 0.0 then 1.0 else Weight(p, "driveTime")
  }

  // The API refuses negative objective weights (internal/api/validate.go:18-22).
  ghost predicate WeightsAccepted(p: Problem) {
    forall key :: key in p.objectives ==> p.objectives[key] >= 0.0
  }

  function Lateness(p: Problem, x: nat, arrival: real): real
    requires x < |p.nodes|
  {
    match Closes(p.nodes[x])
    case Some(end) => if arrival > end then arrival - end else 0.0
    case None => 0.0
  }

  // What visiting x from `at`, leaving at time t, adds to the cost.
  function VisitCost(p: Problem, at: Place, t: real, x: nat): real
    requires p.speedKph > 0.0 && x < |p.nodes|
  {
    DriveWeight(p) * DriveSec(p, at, x) + Weight(p, "distance") * p.d(at, x)
    + Weight(p, "lateness") * Lateness(p, x, t + DriveSec(p, at, x))
  }

  ghost function CostFrom(p: Problem, at: Place, t: real, o: Order): real
    requires p.speedKph > 0.0 && KnownNodes(p, o)
    decreases |o|
  {
    if o == [] then 0.0
    else VisitCost(p, at, t, o[0])
         + CostFrom(p, o[0], t + DriveSec(p, at, o[0]) + p.nodes[o[0]].serviceSec as real, o[1..])
  }

  ghost function PlanCost(p: Problem, v: Vehicle, o: Order): real
    requires p.speedKph > 0.0 && KnownNodes(p, o)
  {
    CostFrom(p, StartPlace(p, v, o), 0.0, o)
  }

  // The cost of the first n plans.
  ghost function PlansCost(p: Problem, ps: seq<Order>, n: nat): real
    requires p.speedKph > 0.0 && Plans(p, ps) && n <= |ps|
  {
    if n == 0 then 0.0 else PlansCost(p, ps, n - 1) + PlanCost(p, p.vehicles[n - 1], ps[n - 1])
  }

  // How many of the first n nodes no plan serves.
  ghost function Unserved(served: multiset<nat>, n: nat): nat {
    if n == 0 then 0 else Unserved(served, n - 1) + (if n - 1 in served then 0 else 1)
  }

  ghost function UnservedCost(p: Problem, ps: seq<Order>): real {
    Penalty(Weight(p, "failed"), Unserved(Assigned(ps), |p.nodes|))
  }

  function Penalty(weight: real, failed: nat): real { weight * failed as real * 3600.0 }

  ghost function Cost(p: Problem, ps: seq<Order>): real
    requires p.speedKph > 0.0 && Plans(p, ps)
  {
    PlansCost(p, ps, |ps|) + UnservedCost(p, ps)
  }

  // What one visit adds, with the lateness on arrival.
  method VisitTerm(p: Problem, at: Place, t: real, x: nat) returns (cost: real)
    requires p.speedKph > 0.0 && x < |p.nodes|
    ensures cost == VisitCost(p, at, t, x)
  {
    var nd, dist := p.nodes[x], p.d(at, x);
    var drive := dist / (p.speedKph / 3.6);
    var arr, late := t + drive, 0.0;
    if nd.tw.Some? && nd.tw.value.end != ZERO_TIME {
      if arr > nd.tw.value.end { late := arr - nd.tw.value.end; }
    }
    cost := DriveWeight(p) * drive + Weight(p, "distance") * dist + Weight(p, "lateness") * late;
  }

  // One plan's share of the total.
  method AddPlanCost(p: Problem, v: Vehicle, o: Order, before: real) returns (total: real)
    requires p.speedKph > 0.0 && KnownNodes(p, o)
    ensures total == before + PlanCost(p, v, o)
  {
    total := before;
    var t := 0.0;
    var cur := StartPlace(p, v, o);
    assert o[0..] == o;
    for k := 0 to |o|
      invariant total + CostFrom(p, cur, t, o[k..]) == before + PlanCost(p, v, o)
    {
      assert o[k..][0] == o[k] && o[k..][1..] == o[k + 1..];
      var term := VisitTerm(p, cur, t, o[k]);
      total := total + term;
      t := t + DriveSec(p, cur, o[k]) + p.nodes[o[k]].serviceSec as real;
      cur := o[k];
    }
  }

  method CountUnserved(p: Problem, ps: seq<Order>) returns (failed: nat)
    ensures failed == Unserved(Assigned(ps), |p.nodes|)
  {
    var present: set<nat> := {};
    for vi := 0 to |ps|
      invariant forall x :: x in present <==> exists i :: 0 <= i < vi && x in ps[i]
    {
      present := present + (set x | x in ps[vi]);
    }
    failed := 0;
    for i: nat := 0 to |p.nodes|
      invariant failed == Unserved(Assigned(ps), i)
    {
      AssignedMembers(ps, i);
      assert i in Assigned(ps) ==> i in present;
      assert i in present ==> i in Assigned(ps);
      assert Unserved(Assigned(ps), i + 1) == Unserved(Assigned(ps), i) + (if i in Assigned(ps) then 0 else 1);
      if i !in present { failed := failed + 1; }
    }
  }

  method CostOf(p: Problem, ps: seq<Order>) returns (total: real)
    requires p.speedKph > 0.0 && Plans(p, ps)
    ensures total == Cost(p, ps)
  {
    total := 0.0;
    for vi := 0 to |ps|
      invariant total == PlansCost(p, ps, vi)
    {
      total := AddPlanCost(p, p.vehicles[vi], ps[vi], total);
    }
    var failed := CountUnserved(p, ps);
    total := total + Penalty(Weight(p, "failed"), failed);
  }

  lemma VisitCostNonNegative(p: Problem, at: Place, t: real, x: nat)
    requires Usable(p) && WeightsAccepted(p) && x < |p.nodes|
    ensures VisitCost(p, at, t, x) >= 0.0
  {
  }

  lemma ProductNonNegative(x: real, y: real)
    requires x >= 0.0 && y >= 0.0
    ensures x * y >= 0.0
  {
  }

  lemma {:induction false} CostFromNonNegative(p: Problem, at: Place, t: real, o: Order)
    requires Usable(p) && WeightsAccepted(p) && KnownNodes(p, o)
    ensures CostFrom(p, at, t, o) >= 0.0
    decreases |o|
  {
    if o != [] {
      VisitCostNonNegative(p, at, t, o[0]);
      CostFromNonNegative(p, o[0], t + DriveSec(p, at, o[0]) + p.nodes[o[0]].serviceSec as real, o[1..]);
    }
  }

  lemma {:induction false} PlansCostNonNegative(p: Problem, ps: seq<Order>, n: nat)
    requires Usable(p) && WeightsAccepted(p) && Plans(p, ps) && n <= |ps|
    ensures PlansCost(p, ps, n) >= 0.0
  {
    if n > 0 {
      PlansCostNonNegative(p, ps, n - 1);
      CostFromNonNegative(p, StartPlace(p, p.vehicles[n - 1], ps[n - 1]), 0.0, ps[n - 1]);
    }
  }

  // With the weights that the API accepts no solution has a negative cost.
  lemma CostNonNegative(p: Problem, ps: seq<Order>)
    requires Usable(p) && WeightsAccepted(p) && Plans(p, ps)
    ensures Cost(p, ps) >= 0.0
  {
    PlansCostNonNegative(p, ps, |ps|);
    ProductNonNegative(Weight(p, "failed"), Unserved(Assigned(ps), |p.nodes|) as real);
  }

  // ----- whatever the weights, rearranging the plans cannot cost less than some amount -----

  function Lesser(x: real, y: real): real { if x < y then x else y }

  // No n visits from `at`, leaving at time t, cost less than this.
  ghost function LeastFrom(p: Problem, at: Place, t: real, n: nat): real
    requires p.speedKph > 0.0
    decreases n, |p.nodes| + 1
  {
    if n == 0 then 0.0 else LeastVia(p, at, t, n, |p.nodes|)
  }

  // The same when the first visit is to one of the first k nodes.
  ghost function LeastVia(p: Problem, at: Place, t: real, n: nat, k: nat): real
    requires p.speedKph > 0.0 && n > 0 && k <= |p.nodes|
    decreases n, k
  {
    if k == 0 then 0.0
    else
      Lesser(LeastVia(p, at, t, n, k - 1),
             VisitCost(p, at, t, k - 1)
             + LeastFrom(p, k - 1, t + DriveSec(p, at, k - 1) + p.nodes[k - 1].serviceSec as real, n - 1))
  }

  lemma {:induction false} LeastViaBounds(p: Problem, at: Place, t: real, n: nat, k: nat, x: nat)
    requires p.speedKph > 0.0 && n > 0 && x < k <= |p.nodes|
    ensures LeastVia(p, at, t, n, k)
         <= VisitCost(p, at, t, x) + LeastFrom(p, x, t + DriveSec(p, at, x) + p.nodes[x].serviceSec as real, n - 1)
  {
    if x < k - 1 { LeastViaBounds(p, at, t, n, k - 1, x); }
  }

  lemma {:induction false} LeastFromBounds(p: Problem, at: Place, t: real, o: Order)
    requires p.speedKph > 0.0 && KnownNodes(p, o)
    ensures LeastFrom(p, at, t, |o|) <= CostFrom(p, at, t, o)
    decreases |o|
  {
    if o != [] {
      LeastViaBounds(p, at, t, |o|, |p.nodes|, o[0]);
      LeastFromBounds(p, o[0], t + DriveSec(p, at, o[0]) + p.nodes[o[0]].serviceSec as real, o[1..]);
    }
  }

  // The same for a vehicle without a depot, which begins at one of the first k nodes.
  ghost function LeastStart(p: Problem, n: nat, k: nat): real
    requires p.speedKph > 0.0
  {
    if k == 0 then 0.0 else Lesser(LeastStart(p, n, k - 1), LeastFrom(p, k - 1, 0.0, n))
  }

  lemma {:induction false} LeastStartBounds(p: Problem, n: nat, k: nat, x: nat)
    requires p.speedKph > 0.0 && x < k
    ensures LeastStart(p, n, k) <= LeastFrom(p, x, 0.0, n)
  {
    if x < k - 1 { LeastStartBounds(p, n, k - 1, x); }
  }

  ghost function LeastPlan(p: Problem, v: Vehicle, n: nat): real
    requires p.speedKph > 0.0
  {
    match v.start
    case Some(depot) => LeastFrom(p, depot, 0.0, n)
    case None => if n == 0 then 0.0 else LeastStart(p, n, |p.nodes|)
  }

  ghost function LeastPlans(p: Problem, ps: seq<Order>, n: nat): real
    requires p.speedKph > 0.0 && Plans(p, ps) && n <= |ps|
  {
    if n == 0 then 0.0 else LeastPlans(p, ps, n - 1) + LeastPlan(p, p.vehicles[n - 1], |ps[n - 1]|)
  }

  ghost function LeastCost(p: Problem, ps: seq<Order>): real
    requires p.speedKph > 0.0 && Plans(p, ps)
  {
    LeastPlans(p, ps, |ps|) + UnservedCost(p, ps)
  }

  lemma {:induction false} LeastPlansBounds(p: Problem, was: seq<Order>, now: seq<Order>, n: nat)
    requires p.speedKph > 0.0 && Plans(p, was) && Plans(p, now) && n <= |was|
    requires forall i :: 0 <= i < |was| ==> |now[i]| == |was[i]|
    ensures LeastPlans(p, was, n) <= PlansCost(p, now, n)
  {
    if n > 0 {
      LeastPlansBounds(p, was, now, n - 1);
      var v, o := p.vehicles[n - 1], now[n - 1];
      LeastFromBounds(p, StartPlace(p, v, o), 0.0, o);
      if v.start.None? && o != [] { LeastStartBounds(p, |o|, |p.nodes|, o[0]); }
    }
  }

  // Plans that serve the same nodes in plans of the same sizes cost at least that much.
  lemma LeastCostBounds(p: Problem, was: seq<Order>, now: seq<Order>)
    requires p.speedKph > 0.0 && Plans(p, was) && Plans(p, now) && Assigned(now) == Assigned(was)
    requires forall i :: 0 <= i < |was| ==> |now[i]| == |was[i]|
    ensures LeastCost(p, was) <= Cost(p, now)
  {
    LeastPlansBounds(p, was, now, |was|);
    assert UnservedCost(p, now) == UnservedCost(p, was);
  }
}
