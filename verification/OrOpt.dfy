// orOptLocalImprove: moving single nodes within a plan (internal/opt/alns_engine.go:430-466).
//
// The program clamps its own loop counter when the insertion position runs past the shortened order.
// OrOptImprove clamps a separate position instead; the last section shows what the written counter does.
module OrOpt {
  import opened Sequences
  import opened Problems
  import opened Slices
  import opened Schedules
  import opened Costs
  import opened Solutions

  // Take node i out and put it back at position j of what is left, or at its end.
  function Relocated(o: Order, i: nat, j: nat): Order
    requires i < |o|
  {
    InsertAt(RemoveAt(o, i), Min(j, |o| - 1), o[i])
  }

  lemma RelocatedMultiset(o: Order, i: nat, j: nat)
    requires i < |o|
    ensures multiset(Relocated(o, i, j)) == multiset(o)
  {
    RemoveAtMultiset(o, i);
    InsertAtMultiset(RemoveAt(o, i), Min(j, |o| - 1), o[i]);
  }

  predicate Relocatable(o: Order, i: nat, j: nat) {
    i < |o| && j <= |o| && j != i && j != i + 1
  }

  // A relocation in plan vi that keeps the plan on schedule saves at most twice EPSILON.
  ghost predicate SavesLittle(p: Problem, ps: seq<Order>, vi: nat, i: nat, j: nat)
    requires p.speedKph > 0.0 && Plans(p, ps) && vi < |ps|
  {
    Relocatable(ps[vi], i, j) ==>
      KnownNodes(p, Relocated(ps[vi], i, j)) &&
      (Feasible(p, p.vehicles[vi], Relocated(ps[vi], i, j)) ==> Cost(p, ps) <= Cost(p, ps[vi := Relocated(ps[vi], i, j)]) + 2.0 * EPSILON)
  }

  datatype Best = NoneYet | Found(order: Order, cost: real)

  // The best candidate so far is a feasible relocation, up to EPSILON the cheapest of those tried.
  ghost predicate GoodBest(p: Problem, ps: seq<Order>, vi: nat, best: Best)
    requires p.speedKph > 0.0 && Plans(p, ps) && vi < |ps|
  {
    best.Found? ==>
      |ps[vi]| >= 2 && multiset(best.order) == multiset(ps[vi]) && KnownNodes(p, best.order) &&
      Feasible(p, p.vehicles[vi], best.order) && best.cost == Cost(p, ps[vi := best.order])
  }

  // Relocation (i, j) is off schedule or, up to EPSILON, no cheaper than the best candidate.
  ghost predicate Beaten(p: Problem, ps: seq<Order>, vi: nat, i: nat, j: nat, best: Best)
    requires p.speedKph > 0.0 && Plans(p, ps) && vi < |ps|
  {
    Relocatable(ps[vi], i, j) ==>
      KnownNodes(p, Relocated(ps[vi], i, j)) &&
      (Feasible(p, p.vehicles[vi], Relocated(ps[vi], i, j)) ==>
         best.Found? && best.cost <= Cost(p, ps[vi := Relocated(ps[vi], i, j)]) + EPSILON)
  }

  method TryRelocation(p: Problem, ps: seq<Order>, vi: nat, i: nat, j: nat, best0: Best) returns (best: Best)
    requires p.speedKph > 0.0 && Plans(p, ps) && vi < |ps| && Relocatable(ps[vi], i, j)
    requires GoodBest(p, ps, vi, best0)
    ensures GoodBest(p, ps, vi, best) && Beaten(p, ps, vi, i, j, best)
    ensures best == best0 || (best.Found? && (best0.Found? ==> best.cost < best0.cost))
  {
    var o := ps[vi];
    var node := o[i];
    var left := o[..i] + o[i + 1..];
    var pos := if j > |left| then |left| else j;
    var cand := left[..pos] + [node] + left[pos..];
    assert cand == Relocated(o, i, j);
    RelocatedMultiset(o, i, j);
    SameMembersKnown(p, o, cand);
    var s := SchedulePlan(p, p.vehicles[vi], cand);
    if !s.feasible { return best0; }
    var c := CostOf(p, ps[vi := cand]);
    if best0.NoneYet? || c + 0.000001 < best0.cost { return Found(cand, c); }
    return best0;
  }

  lemma StaysBeaten(p: Problem, ps: seq<Order>, vi: nat, i: nat, j: nat, was: Best, now: Best)
    requires p.speedKph > 0.0 && Plans(p, ps) && vi < |ps| && Beaten(p, ps, vi, i, j, was)
    requires now == was || (now.Found? && (was.Found? ==> now.cost < was.cost))
    ensures Beaten(p, ps, vi, i, j, now)
  {
  }

  ghost predicate BeatenBefore(p: Problem, ps: seq<Order>, vi: nat, i: nat, j: nat, best: Best)
    requires p.speedKph > 0.0 && Plans(p, ps) && vi < |ps|
  {
    forall x, y :: 0 <= x <= i && 0 <= y && (x < i || y < j) ==> Beaten(p, ps, vi, x, y, best)
  }

  lemma BeatenStep(p: Problem, ps: seq<Order>, vi: nat, i: nat, j: nat, was: Best, now: Best)
    requires p.speedKph > 0.0 && Plans(p, ps) && vi < |ps| && BeatenBefore(p, ps, vi, i, j, was)
    requires now == was || (now.Found? && (was.Found? ==> now.cost < was.cost))
    requires Beaten(p, ps, vi, i, j, now)
    ensures BeatenBefore(p, ps, vi, i, j + 1, now)
  {
    forall x, y | 0 <= x <= i && 0 <= y && (x < i || y < j + 1) ensures Beaten(p, ps, vi, x, y, now) {
      if x < i || y < j { StaysBeaten(p, ps, vi, x, y, was, now); }
    }
  }

  lemma BeatenRow(p: Problem, ps: seq<Order>, vi: nat, i: nat, j: nat, best: Best)
    requires p.speedKph > 0.0 && Plans(p, ps) && vi < |ps| && BeatenBefore(p, ps, vi, i, j, best) && j > |ps[vi]|
    ensures BeatenBefore(p, ps, vi, i + 1, 0, best)
  {
  }

  // All relocations within plan vi.
  method BestRelocation(p: Problem, ps: seq<Order>, vi: nat) returns (best: Best)
    requires p.speedKph > 0.0 && Plans(p, ps) && vi < |ps|
    ensures GoodBest(p, ps, vi, best)
    ensures forall i, j :: 0 <= i && 0 <= j ==> Beaten(p, ps, vi, i, j, best)
  {
    best := NoneYet;
    var n := |ps[vi]|;
    for i: nat := 0 to n
      invariant GoodBest(p, ps, vi, best) && BeatenBefore(p, ps, vi, i, 0, best)
    {
      var j: nat := 0;
      while j <= n
        invariant j <= n + 1 && GoodBest(p, ps, vi, best) && BeatenBefore(p, ps, vi, i, j, best)
      {
        ghost var was := best;
        if j != i && j != i + 1 { best := TryRelocation(p, ps, vi, i, j, best); }
        BeatenStep(p, ps, vi, i, j, was, best);
        j := j + 1;
      }
      BeatenRow(p, ps, vi, i, j, best);
    }
    forall i, j | 0 <= i && 0 <= j ensures Beaten(p, ps, vi, i, j, best) {
      assert i < n ==> Beaten(p, ps, vi, i, j, best);
    }
  }

  // No relocation within a plan that keeps it on schedule saves more than twice EPSILON.
  ghost predicate OrOptimal(p: Problem, ps: seq<Order>)
    requires p.speedKph > 0.0 && Plans(p, ps)
  {
    forall vi, i, j :: 0 <= vi < |ps| && 0 <= i && 0 <= j ==> SavesLittle(p, ps, vi, i, j)
  }

  // What relocations keep. Orders of one node have nowhere to go.
  ghost predicate Rearranged(p: Problem, was: seq<Order>, now: seq<Order>)
    requires p.speedKph > 0.0 && Plans(p, was)
  {
    Plans(p, now) && UntouchedOrFeasible(p, was, now) &&
    forall vi :: 0 <= vi < |was| ==> multiset(now[vi]) == multiset(was[vi]) && (|was[vi]| < 2 ==> now[vi] == was[vi])
  }

  lemma AcceptBest(p: Problem, ps: seq<Order>, vi: nat, best: Best)
    requires p.speedKph > 0.0 && Plans(p, ps) && vi < |ps| && best.Found? && GoodBest(p, ps, vi, best)
    ensures Rearranged(p, ps, ps[vi := best.order]) && Cost(p, ps[vi := best.order]) == best.cost
  {
  }

  lemma RearrangedThen(p: Problem, s: seq<Order>, t: seq<Order>, u: seq<Order>)
    requires p.speedKph > 0.0 && Plans(p, s) && Rearranged(p, s, t) && Rearranged(p, t, u)
    ensures Rearranged(p, s, u)
  {
  }

  lemma RejectBest(p: Problem, ps: seq<Order>, vi: nat, best: Best)
    requires p.speedKph > 0.0 && Plans(p, ps) && vi < |ps|
    requires forall i, j :: 0 <= i && 0 <= j ==> Beaten(p, ps, vi, i, j, best)
    requires best.Found? ==> best.cost + EPSILON >= Cost(p, ps)
    ensures forall i, j :: 0 <= i && 0 <= j ==> SavesLittle(p, ps, vi, i, j)
  {
    forall i, j | 0 <= i && 0 <= j ensures SavesLittle(p, ps, vi, i, j) {
      assert Beaten(p, ps, vi, i, j, best);
    }
  }

  // What the search of plan vi does: it relocates one node for a gain, or nothing is left to gain there.
  ghost predicate PlanSearched(p: Problem, was: seq<Order>, now: seq<Order>, vi: nat, found: bool)
    requires p.speedKph > 0.0 && Plans(p, was) && vi < |was|
  {
    if found then Rearranged(p, was, now) && Cost(p, now) + EPSILON < Cost(p, was)
    else now == was && forall i, j :: 0 <= i && 0 <= j ==> SavesLittle(p, was, vi, i, j)
  }

  method SearchPlan(p: Problem, plans: Fleet, vi: nat) returns (found: bool)
    requires p.speedKph > 0.0 && plans.Valid() && Plans(p, plans.orders) && vi < |plans.orders|
    modifies plans
    ensures plans.Valid() && PlanSearched(p, old(plans.orders), plans.orders, vi, found)
  {
    var ps := plans.ReadAll();
    var best := BestRelocation(p, ps, vi);
    var c := CostOf(p, ps);
    found := best.Found? && best.cost + 0.000001 < c;
    if found {
      AcceptBest(p, ps, vi, best);
      plans.Write(vi, best.order);
    } else {
      RejectBest(p, ps, vi, best);
    }
  }

  // A pass before plan vi: cheaper than its start, or unchanged with nothing to gain in the plans before.
  ghost predicate RelocationState(p: Problem, start: seq<Order>, now: seq<Order>, improved: bool, vi: nat)
    requires p.speedKph > 0.0 && Plans(p, start)
  {
    Rearranged(p, start, now) &&
    if improved then Cost(p, now) + EPSILON < Cost(p, start)
    else now == start && forall x, i, j :: 0 <= x < vi <= |start| && 0 <= i && 0 <= j ==> SavesLittle(p, start, x, i, j)
  }

  lemma RelocationStep(p: Problem, start: seq<Order>, base: seq<Order>, now: seq<Order>, improved: bool, vi: nat, found: bool)
    requires p.speedKph > 0.0 && Plans(p, start) && vi < |start| && RelocationState(p, start, base, improved, vi)
    requires PlanSearched(p, base, now, vi, found)
    ensures RelocationState(p, start, now, improved || found, vi + 1)
  {
    if found { RearrangedThen(p, start, base, now); }
  }

  method OrOptPass(p: Problem, plans: Fleet) returns (improved: bool)
    requires p.speedKph > 0.0 && plans.Valid() && Plans(p, plans.orders)
    modifies plans
    ensures plans.Valid() && RelocationState(p, old(plans.orders), plans.orders, improved, |plans.orders|)
  {
    ghost var start := plans.orders;
    improved := false;
    for vi: nat := 0 to |plans.slices|
      invariant plans.Valid() && RelocationState(p, start, plans.orders, improved, vi)
    {
      ghost var base := plans.orders;
      var found := SearchPlan(p, plans, vi);
      RelocationStep(p, start, base, plans.orders, improved, vi, found);
      improved := improved || found;
    }
  }

  // What the whole relocation search leaves behind.
  ghost predicate OrOptResult(p: Problem, was: seq<Order>, now: seq<Order>)
    requires p.speedKph > 0.0 && Plans(p, was)
  {
    Rearranged(p, was, now) && OrOptimal(p, now) && Cost(p, now) <= Cost(p, was) && Assigned(now) == Assigned(was)
  }

  lemma RearrangedBounded(p: Problem, was: seq<Order>, now: seq<Order>)
    requires p.speedKph > 0.0 && Plans(p, was) && Rearranged(p, was, now)
    ensures Assigned(now) == Assigned(was) && LeastCost(p, was) <= Cost(p, now)
  {
    AssignedPointwise(was, now);
    forall i | 0 <= i < |was| ensures |now[i]| == |was[i]| {
      assert |multiset(now[i])| == |multiset(was[i])|;
    }
    LeastCostBounds(p, was, now);
  }

  // Terminates whatever the weights: each round saves more than EPSILON, and LeastCost is out of reach.
  method OrOptImprove(p: Problem, sol: Solution) returns (out: Solution)
    requires p.speedKph > 0.0 && sol.plans.Valid() && Plans(p, sol.plans.orders)
    modifies sol.plans
    ensures out.plans.Valid()
    ensures out.plans == sol.plans && OrOptResult(p, old(sol.plans.orders), out.plans.orders) && out.cost == Cost(p, out.plans.orders)
  {
    var plans := sol.plans;
    ghost var start, least := plans.orders, LeastCost(p, plans.orders);
    var improved := true;
    RearrangedBounded(p, start, start);
    while improved
      invariant plans.Valid() && Rearranged(p, start, plans.orders) && least <= Cost(p, plans.orders) <= Cost(p, start)
      invariant !improved ==> OrOptimal(p, plans.orders)
      decreases Falls(Cost(p, plans.orders) - least), improved
    {
      ghost var was := plans.orders;
      improved := OrOptPass(p, plans);
      RearrangedThen(p, start, was, plans.orders);
      RearrangedBounded(p, start, plans.orders);
      if improved { FallsDecrease(Cost(p, plans.orders) - least, Cost(p, was) - least); }
    }
    RearrangedBounded(p, start, plans.orders);
    var c := CostOf(p, plans.ReadAll());
    out := Solution(plans, c);
  }

  // ----- the loop counter as written -----

  // The counter at the next test of `j <= n`, for a plan of n nodes and the node at i.
  function NextCounter(n: nat, i: nat, j: nat): nat
    requires i < n
  {
    if j == i || j == i + 1 then j + 1 else Min(j, n - 1) + 1
  }

  function CounterAfter(n: nat, i: nat, rounds: nat): nat
    requires i < n
  {
    if rounds == 0 then 0
    else
      var j := CounterAfter(n, i, rounds - 1);
      if j <= n then NextCounter(n, i, j) else j
  }

  lemma CounterStuck(n: nat, i: nat, rounds: nat)
    requires i < n - 1
    ensures CounterAfter(n, i, rounds) <= n
  {
  }

  lemma CounterCounts(n: nat, i: nat, rounds: nat)
    requires i == n - 1 && rounds <= n + 1
    ensures CounterAfter(n, i, rounds) == rounds
  {
  }

  ghost predicate InnerLoopEnds(n: nat, i: nat)
    requires i < n
  {
    exists rounds :: CounterAfter(n, i, rounds) > n
  }

  // The inner loop as written ends only for the last node of a plan.
  lemma InnerLoopEndsExactly(n: nat, i: nat)
    requires i < n
    ensures InnerLoopEnds(n, i) <==> i == n - 1
  {
    if i == n - 1 {
      CounterCounts(n, i, n + 1);
      assert CounterAfter(n, i, n + 1) > n;
    } else {
      forall rounds: nat ensures CounterAfter(n, i, rounds) <= n { CounterStuck(n, i, rounds); }
    }
  }

  ghost predicate WrittenSearchReturns(ps: seq<Order>) {
    forall vi, i: nat :: 0 <= vi < |ps| && i < |ps[vi]| ==> InnerLoopEnds(|ps[vi]|, i)
  }

  // As written the search returns exactly when no plan has two nodes; there is nothing to relocate then,
  // so whenever the written search returns, it has changed nothing.
  lemma WrittenSearchReturnsExactly(ps: seq<Order>)
    ensures WrittenSearchReturns(ps) <==> forall vi :: 0 <= vi < |ps| ==> |ps[vi]| <= 1
    ensures WrittenSearchReturns(ps) ==> forall vi, i, j :: 0 <= vi < |ps| && 0 <= i && 0 <= j ==> !Relocatable(ps[vi], i, j)
  {
    forall vi, i: nat | 0 <= vi < |ps| && i < |ps[vi]|
      ensures InnerLoopEnds(|ps[vi]|, i) <==> i == |ps[vi]| - 1
    {
      InnerLoopEndsExactly(|ps[vi]|, i);
    }
    if WrittenSearchReturns(ps) {
      forall vi | 0 <= vi < |ps| ensures |ps[vi]| <= 1 {
        if |ps[vi]| > 0 { assert InnerLoopEnds(|ps[vi]|, 0); }
      }
    }
  }
}
