// greedySeed: the first solution of a search (internal/opt/alns_engine.go:144-172, 362-371).
module Seeding {
  import opened Sequences
  import opened Problems
  import opened Slices
  import opened Costs
  import opened Insertion
  import opened Schedules
  import opened Solutions

  // deltaCostAppend
  function AppendCost(p: Problem, o: Order, x: nat): real {
    if o == [] then 0.0 else p.d(o[|o| - 1], x)
  }

  ghost predicate Addable(p: Problem, v: Vehicle, o: Order, used: seq<bool>, x: nat)
    requires KnownNodes(p, o) && |used| == |p.nodes|
  {
    x < |p.nodes| && !used[x] && CanAdd(p, v, o, x)
  }

  // The first of the unused nodes that are cheapest to append, if any can be added at all.
  method NearestAddable(p: Problem, v: Vehicle, o: Order, used: array<bool>) returns (best: Option<nat>)
    requires KnownNodes(p, o) && used.Length == |p.nodes|
    ensures match best
            case None => forall x: nat :: !Addable(p, v, o, used[..], x)
            case Some(b) =>
              Addable(p, v, o, used[..], b) &&
              forall x: nat :: Addable(p, v, o, used[..], x) ==>
                (AppendCost(p, o, b) <= AppendCost(p, o, x) && (x < b ==> AppendCost(p, o, b) < AppendCost(p, o, x)))
  {
    best := None;
    var bestDelta := 0.0;
    for i: nat := 0 to |p.nodes|
      invariant match best
                case None => forall x: nat :: x < i ==> !Addable(p, v, o, used[..], x)
                case Some(b) =>
                  b < i && Addable(p, v, o, used[..], b) && bestDelta == AppendCost(p, o, b) &&
                  forall x: nat :: x < i && Addable(p, v, o, used[..], x) ==>
                    (bestDelta <= AppendCost(p, o, x) && (x < b ==> bestDelta < AppendCost(p, o, x)))
    {
      if !used[i] {
        var ok := FeasibleAdd(p, v, o, i);
        if ok {
          var d := AppendCost(p, o, i);
          if best.None? || d < bestDelta { bestDelta := d; best := Some(i); }
        }
      }
    }
  }

  ghost predicate Serviceable(p: Problem, v: Vehicle, o: Order)
    requires KnownNodes(p, o)
  {
    CanCarry(p, v, o) && forall k :: 0 <= k < |o| ==> HasSkills(p, v, o[k])
  }

  // `used` marks exactly the assigned nodes, each assigned once, within every vehicle's rules.
  ghost predicate Seeded(p: Problem, ps: seq<Order>, used: seq<bool>, count: nat) {
    Plans(p, ps) && |used| == |p.nodes| && OnceEach(Assigned(ps)) && |Assigned(ps)| == count &&
    (forall x: nat :: x < |used| ==> (used[x] <==> x in Assigned(ps))) &&
    forall vi :: 0 <= vi < |ps| ==> Serviceable(p, p.vehicles[vi], ps[vi])
  }

  // No node left out can be added to any vehicle's plan.
  ghost predicate Maximal(p: Problem, ps: seq<Order>)
    requires Plans(p, ps)
  {
    forall x: nat, vi :: x < |p.nodes| && x !in Assigned(ps) && 0 <= vi < |ps| ==> !CanAdd(p, p.vehicles[vi], ps[vi], x)
  }

  lemma ServiceableAppend(p: Problem, v: Vehicle, o: Order, x: nat)
    requires KnownNodes(p, o) && x < |p.nodes| && Serviceable(p, v, o) && CanAdd(p, v, o, x)
    ensures KnownNodes(p, o + [x]) && Serviceable(p, v, o + [x])
  {
  }

  lemma SeedStep(p: Problem, ps: seq<Order>, used: seq<bool>, count: nat, vi: nat, x: nat)
    requires Seeded(p, ps, used, count) && vi < |ps| && Addable(p, p.vehicles[vi], ps[vi], used, x)
    ensures Seeded(p, ps[vi := ps[vi] + [x]], used[x := true], count + 1)
  {
    var o := ps[vi];
    var ps' := ps[vi := o + [x]];
    assert o + [x] == InsertAt(o, |o|, x);
    AssignedInsert(ps, vi, |o|, x);
    assert Assigned(ps') == Assigned(ps) + multiset{x};
    ServiceableAppend(p, p.vehicles[vi], o, x);
    forall j | 0 <= j < |ps'| ensures KnownNodes(p, ps'[j]) && Serviceable(p, p.vehicles[j], ps'[j]) {
      if j != vi { assert ps'[j] == ps[j]; }
    }
  }

  lemma AllAssigned(served: multiset<nat>, n: nat)
    requires OnceEach(served) && |served| >= n && forall x: nat :: x in served ==> x < n
    ensures forall x: nat :: x < n ==> x in served
  {
    if n > 0 {
      if n - 1 in served {
        var rest := served - multiset{n - 1};
        assert served == rest + multiset{n - 1};
        AllAssigned(rest, n - 1);
      } else {
        TooMany(served, n - 1);
      }
    }
  }

  lemma TooMany(served: multiset<nat>, n: nat)
    requires OnceEach(served) && forall x: nat :: x in served ==> x < n
    ensures |served| <= n
  {
    if n == 0 {
      assert served == multiset{};
    } else if n - 1 in served {
      var rest := served - multiset{n - 1};
      assert served == rest + multiset{n - 1};
      TooMany(rest, n - 1);
    } else {
      TooMany(served, n - 1);
    }
  }

  lemma AllUsedIsMaximal(p: Problem, ps: seq<Order>, used: seq<bool>, count: nat)
    requires Seeded(p, ps, used, count) && count >= |p.nodes|
    ensures Maximal(p, ps)
  {
    forall x: nat | x in Assigned(ps) ensures x < |p.nodes| { AssignedKnown(p, ps, x); }
    AllAssigned(Assigned(ps), |p.nodes|);
  }

  lemma NoProgressIsMaximal(p: Problem, ps: seq<Order>, used: seq<bool>, count: nat)
    requires Seeded(p, ps, used, count)
    requires forall vi: nat :: vi < |ps| ==> NoneAddable(p, ps, used, vi)
    ensures Maximal(p, ps)
  {
    forall x: nat, vi | x < |p.nodes| && x !in Assigned(ps) && 0 <= vi < |ps|
      ensures !CanAdd(p, p.vehicles[vi], ps[vi], x)
    {
      assert NoneAddable(p, ps, used, vi) && !used[x] && !Addable(p, p.vehicles[vi], ps[vi], used, x);
    }
  }

  ghost predicate NoneAddable(p: Problem, ps: seq<Order>, used: seq<bool>, vi: nat)
    requires Plans(p, ps) && |used| == |p.nodes| && vi < |ps|
  {
    forall x: nat :: !Addable(p, p.vehicles[vi], ps[vi], used, x)
  }

  // A round before vehicle vi: it has assigned a node, or none can be added to the plans before.
  ghost predicate RoundState(p: Problem, ps: seq<Order>, used: seq<bool>, count0: nat, count: nat, vi: nat) {
    Seeded(p, ps, used, count) && count0 <= count && vi <= |ps| &&
    (count == count0 ==> forall j: nat :: j < vi ==> NoneAddable(p, ps, used, j))
  }

  // One vehicle takes its nearest addable node, if it has one.
  method TakeNearest(p: Problem, plans: Fleet, used: array<bool>, ghost count0: nat, count: nat, vi: nat) returns (now: nat)
    requires plans.Valid() && plans.Separate() && vi < |plans.orders| && RoundState(p, plans.orders, used[..], count0, count, vi)
    modifies plans, plans.Stores(), used
    ensures plans.Valid() && plans.Separate() && fresh(plans.Stores() - old(plans.Stores()))
    ensures now >= count && RoundState(p, plans.orders, used[..], count0, now, vi + 1)
  {
    var best := NearestAddable(p, p.vehicles[vi], plans.Read(vi), used);
    if best.None? { return count; }
    SeedStep(p, plans.orders, used[..], count, vi, best.value);
    ghost var us := used[..];
    plans.AppendTo(vi, best.value);
    used[best.value] := true;
    assert used[..] == us[best.value := true];
    return count + 1;
  }

  // One round over the vehicles.
  method SeedRound(p: Problem, plans: Fleet, used: array<bool>, count0: nat) returns (count: nat, progress: bool)
    requires plans.Valid() && plans.Separate() && Seeded(p, plans.orders, used[..], count0) && count0 < |p.nodes|
    modifies plans, plans.Stores(), used
    ensures plans.Valid() && plans.Separate() && fresh(plans.Stores() - old(plans.Stores()))
    ensures Seeded(p, plans.orders, used[..], count)
    ensures if progress then count0 < count else count == count0 && Maximal(p, plans.orders)
  {
    count := count0;
    var vi: nat := 0;
    while vi < |p.vehicles| && count < |p.nodes|
      invariant plans.Valid() && plans.Separate() && fresh(plans.Stores() - old(plans.Stores()))
      invariant RoundState(p, plans.orders, used[..], count0, count, vi)
    {
      count := TakeNearest(p, plans, used, count0, count, vi);
      vi := vi + 1;
    }
    progress := count0 < count;
    if !progress { NoProgressIsMaximal(p, plans.orders, used[..], count); }
  }

  // Every node at most once, every vehicle within its rules, and nothing left out that would fit.
  ghost predicate GoodSeed(p: Problem, ps: seq<Order>)
    requires Plans(p, ps)
  {
    OnceEach(Assigned(ps)) && Maximal(p, ps) && forall vi :: 0 <= vi < |ps| ==> Serviceable(p, p.vehicles[vi], ps[vi])
  }

  lemma SeedStart(p: Problem, ps: seq<Order>, used: seq<bool>)
    requires |ps| == |p.vehicles| && |used| == |p.nodes|
    requires (forall vi :: 0 <= vi < |ps| ==> ps[vi] == []) && forall x :: 0 <= x < |used| ==> !used[x]
    ensures Seeded(p, ps, used, 0)
  {
    AssignedEmpty(ps);
  }

  // Rounds until every node is assigned or a round assigns none.
  method SeedRounds(p: Problem, plans: Fleet, used: array<bool>)
    requires plans.Valid() && plans.Separate() && Seeded(p, plans.orders, used[..], 0)
    modifies plans, plans.Stores(), used
    ensures plans.Valid() && Plans(p, plans.orders) && GoodSeed(p, plans.orders)
  {
    var n, count := |p.nodes|, 0;
    while count < n
      invariant plans.Valid() && plans.Separate() && fresh(plans.Stores() - old(plans.Stores()))
      invariant Seeded(p, plans.orders, used[..], count)
      decreases n - count
    {
      var progress;
      count, progress := SeedRound(p, plans, used, count);
      if !progress { break; }
    }
    if count >= n { AllUsedIsMaximal(p, plans.orders, used[..], count); }
  }

  method GreedySeed(p: Problem) returns (sol: Solution)
    requires p.speedKph > 0.0
    ensures fresh(sol.plans) && sol.plans.Valid() && Plans(p, sol.plans.orders) && sol.cost == Cost(p, sol.plans.orders)
    ensures GoodSeed(p, sol.plans.orders)
  {
    var used := new bool[|p.nodes|](_ => false);
    var plans := new Fleet(|p.vehicles|);
    SeedStart(p, plans.orders, used[..]);
    SeedRounds(p, plans, used);
    var c := CostOf(p, plans.ReadAll());
    sol := Solution(plans, c);
  }

  // ----- the seed ignores schedules -----

  predicate HasDeadline(tw: Option<Window>) {
    tw.Some? && tw.value.end != ZERO_TIME
  }

  // Every good seed is on schedule, for all problems whose nodes have these windows.
  ghost predicate SeedsOnTime(tws: seq<Option<Window>>) {
    forall p: Problem, ps: seq<Order> :: Usable(p) && WithWindows(p, tws) && Plans(p, ps) && GoodSeed(p, ps) ==> AllFeasible(p, ps)
  }

  ghost predicate WithWindows(p: Problem, tws: seq<Option<Window>>) {
    |p.nodes| == |tws| && forall i :: 0 <= i < |tws| ==> p.nodes[i].tw == tws[i]
  }

  // One vehicle, and every node farther from its depot than can be driven before node i closes.
  function FarProblem(tws: seq<Option<Window>>, i: nat): Problem
    requires i < |tws| && HasDeadline(tws[i])
  {
    var end := tws[i].value.end;
    var far := if end > 0.0 then end + 1.0 else 1.0;
    Problem(seq(|tws|, k requires 0 <= k < |tws| => Node(0, tws[k], 0.0, 0.0, [])), [Vehicle(0.0, 0.0, [], Some(|tws|))],
            (x: nat, y: nat) => if x == y then 0.0 else far, 0, 3.6, map[], 0, 0, 0, [], [])
  }

  lemma FarUsable(tws: seq<Option<Window>>, i: nat)
    requires i < |tws| && HasDeadline(tws[i])
    ensures Usable(FarProblem(tws, i)) && WithWindows(FarProblem(tws, i), tws)
  {
  }

  // Any good seed must serve node i, and comes too late for it.
  lemma FarSeedLate(tws: seq<Option<Window>>, i: nat, ps: seq<Order>)
    requires i < |tws| && HasDeadline(tws[i]) && Plans(FarProblem(tws, i), ps) && GoodSeed(FarProblem(tws, i), ps)
    ensures !AllFeasible(FarProblem(tws, i), ps)
  {
    var p := FarProblem(tws, i);
    assert CanAdd(p, p.vehicles[0], ps[0], i);
    assert ps[1..] == [] && Assigned(ps) == multiset(ps[0]);
    assert i in Assigned(ps) && i in ps[0];
    FarUsable(tws, i);
    NeverInTime(p, StartClock(p, p.vehicles[0], ps[0]), 0.0, ps[0], i);
  }

  lemma FarSeed(tws: seq<Option<Window>>, i: nat) returns (ps: seq<Order>)
    requires i < |tws| && HasDeadline(tws[i])
    ensures Plans(FarProblem(tws, i), ps) && GoodSeed(FarProblem(tws, i), ps)
  {
    var p, all := FarProblem(tws, i), seq(|tws|, k requires 0 <= k => k);
    ps := [all];
    EachOnce(all);
    assert ps[1..] == [] && Assigned(ps) == multiset(all);
  }

  // Seeds are certain to be on schedule exactly when no node closes.
  lemma SeedsOnTimeExactly(tws: seq<Option<Window>>)
    ensures SeedsOnTime(tws) <==> forall i :: 0 <= i < |tws| ==> !HasDeadline(tws[i])
  {
    if forall i :: 0 <= i < |tws| ==> !HasDeadline(tws[i]) {
      forall p: Problem, ps: seq<Order> | Usable(p) && WithWindows(p, tws) && Plans(p, ps) && GoodSeed(p, ps)
        ensures AllFeasible(p, ps)
      {
        forall vi | 0 <= vi < |ps| ensures Feasible(p, p.vehicles[vi], ps[vi]) {
          NoDeadlineOnTime(p, StartClock(p, p.vehicles[vi], ps[vi]), 0.0, ps[vi]);
        }
      }
    } else {
      var i :| 0 <= i < |tws| && HasDeadline(tws[i]);
      var ps := FarSeed(tws, i);
      FarUsable(tws, i);
      FarSeedLate(tws, i, ps);
    }
  }
}
