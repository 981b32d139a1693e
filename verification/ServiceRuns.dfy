// When runs of the optimiser keep the capacity and skill rules of the vehicles
// (internal/opt/alns_engine.go:75-142): certain of it are only runs with fewer than two vehicles or without
// nodes, because insertion falls back on a shortest plan and the exchanges look at schedules alone.
module ServiceRuns {
  import opened Sequences
  import opened Paths
  import opened Problems
  import opened Schedules
  import opened Costs
  import opened Solutions
  import opened Destroy
  import opened Insertion
  import opened Repair
  import opened TwoOpt
  import opened Exchange
  import opened ExchangeSearch
  import opened Seeding
  import opened Search
  import opened LosingRuns

  // Every vehicle within its capacities and skills.
  ghost predicate Serviced(p: Problem, ps: seq<Order>) {
    Plans(p, ps) && forall vi: nat :: vi < |ps| ==> Serviceable(p, p.vehicles[vi], ps[vi])
  }

  // ----- one vehicle: every plan is a permutation of the seed's -----

  lemma {:induction false} LoadRemove(p: Problem, o: Order, i: nat)
    requires KnownNodes(p, o) && i < |o|
    ensures KnownNodes(p, RemoveAt(o, i))
    ensures WeightOf(p, o) == WeightOf(p, RemoveAt(o, i)) + p.nodes[o[i]].weight
    ensures VolumeOf(p, o) == VolumeOf(p, RemoveAt(o, i)) + p.nodes[o[i]].volume
  {
    if i == 0 {
      assert RemoveAt(o, 0) == o[1..];
    } else {
      LoadRemove(p, o[1..], i - 1);
      assert RemoveAt(o, i)[0] == o[0] && RemoveAt(o, i)[1..] == RemoveAt(o[1..], i - 1);
    }
  }

  lemma {:induction false} LoadPermuted(p: Problem, o: Order, q: Order)
    requires KnownNodes(p, o) && KnownNodes(p, q) && multiset(o) == multiset(q)
    ensures WeightOf(p, o) == WeightOf(p, q) && VolumeOf(p, o) == VolumeOf(p, q)
    decreases |o|
  {
    if o == [] {
      assert |multiset(q)| == 0;
    } else {
      assert o[0] in multiset(q);
      var i :| 0 <= i < |q| && q[i] == o[0];
      RemoveAtMultiset(q, i);
      assert o == [o[0]] + o[1..];
      AddCancel(multiset(o[1..]), multiset(RemoveAt(q, i)), multiset{o[0]});
      LoadRemove(p, q, i);
      LoadPermuted(p, o[1..], RemoveAt(q, i));
    }
  }

  lemma ServicePermuted(p: Problem, v: Vehicle, o: Order, q: Order)
    requires KnownNodes(p, o) && KnownNodes(p, q) && multiset(o) == multiset(q) && Serviceable(p, v, o)
    ensures Serviceable(p, v, q)
  {
    LoadPermuted(p, o, q);
    forall k | 0 <= k < |q| ensures HasSkills(p, v, q[k]) {
      assert q[k] in multiset(o);
      var j :| 0 <= j < |o| && o[j] == q[k];
    }
  }

  lemma FewKeepService(p: Problem, mode: Mode, trace: seq<Visited>, t: nat)
    requires Usable(p) && IsRun(p, Follows(p, mode), trace) && t < |trace| && (|p.vehicles| < 2 || |p.nodes| == 0)
    ensures Serviced(p, trace[t].plans)
  {
    RunConserves(p, mode, trace, t);
    SameNodesSameService(p, trace[0].plans, trace[t].plans);
  }

  lemma NoNodeToServe(p: Problem, o: Order)
    requires KnownNodes(p, o) && |p.nodes| == 0
    ensures o == []
  {
    if o != [] { FirstIsKnown(p, o); }
  }

  lemma FirstIsKnown(p: Problem, o: Order)
    requires KnownNodes(p, o) && o != []
    ensures |p.nodes| > 0
  {
    assert o[0] < |p.nodes|;
  }

  lemma SameNodesSameService(p: Problem, ps: seq<Order>, qs: seq<Order>)
    requires Plans(p, ps) && Plans(p, qs) && Assigned(ps) == Assigned(qs) && (|p.vehicles| < 2 || |p.nodes| == 0)
    requires forall vi :: 0 <= vi < |ps| ==> Serviceable(p, p.vehicles[vi], ps[vi])
    ensures Serviced(p, qs)
  {
    forall vi: nat | vi < |qs| ensures Serviceable(p, p.vehicles[vi], qs[vi]) {
      if |p.nodes| == 0 {
        NoNodeToServe(p, ps[vi]);
        NoNodeToServe(p, qs[vi]);
      } else {
        assert ps[1..] == [] == qs[1..] && multiset(ps[0]) == Assigned(ps) == multiset(qs[0]);
        ServicePermuted(p, p.vehicles[0], ps[0], qs[0]);
      }
    }
  }

  // ----- two vehicles and a node: the fallback breaks a rule -----

  // All nodes stand together and need what only vehicle 1 has. Node 0 closes before that vehicle can be
  // there from its depot.
  function ApartDistance(n: nat): Distance {
    (x: nat, y: nat) => if (x == n) == (y == n) then 0.0 else 100.0
  }

  function ApartNode(x: nat): Node {
    Node(0, if x == 0 then Some(Window(ZERO_TIME, 1.0)) else None, 0.0, 0.0, ["b"])
  }

  function ApartVehicle(n: nat, v: nat): Vehicle {
    Vehicle(0.0, 0.0, [if v == 1 then "b" else "a"], if v == 1 then Some(n) else None)
  }

  function ApartProblem(m: nat, n: nat): Problem {
    Problem(seq(n, x requires 0 <= x => ApartNode(x)), seq(m, v requires 0 <= v => ApartVehicle(n, v)),
            ApartDistance(n), 0, 3.6, map[], 0, 0, 0, [], [])
  }

  lemma ApartUsable(m: nat, n: nat)
    ensures Usable(ApartProblem(m, n)) && ServiceNonNegative(ApartProblem(m, n))
  {
  }

  lemma ApartSkills(m: nat, n: nat, v: nat, x: nat)
    requires v < m && x < n
    ensures HasSkills(ApartProblem(m, n), ApartProblem(m, n).vehicles[v], x) <==> v == 1
  {
    var p := ApartProblem(m, n);
    var have, need := p.vehicles[v].skills, p.nodes[x].skills;
    assert need[0] in need && have[0] in have;
  }

  lemma ApartIsShort(m: nat, n: nat, o: Order)
    requires KnownNodes(ApartProblem(m, n), o)
    ensures Length(ApartDistance(n), o) == 0.0
  {
    ShortBetween(n, o);
  }

  lemma ShortBetween(n: nat, o: Order)
    requires forall k :: 0 <= k < |o| ==> o[k] < n
    ensures Length(ApartDistance(n), o) == 0.0
  {
  }

  // Every good seed leaves all plans empty but that of vehicle 1.
  lemma ApartIdle(m: nat, n: nat, ps: seq<Order>, i: nat)
    requires Plans(ApartProblem(m, n), ps) && GoodSeed(ApartProblem(m, n), ps) && i < m && i != 1
    ensures ps[i] == []
  {
    if ps[i] != [] {
      assert Serviceable(ApartProblem(m, n), ApartProblem(m, n).vehicles[i], ps[i]);
      ApartSkills(m, n, i, ps[i][0]);
    }
  }

  function ApartStart(m: nat, n: nat): seq<Order> {
    seq(m, i requires 0 <= i => if i == 1 then seq(n, k requires 0 <= k => k) else [])
  }

  lemma ApartSeed(m: nat, n: nat)
    requires m >= 2
    ensures Plans(ApartProblem(m, n), ApartStart(m, n)) && GoodSeed(ApartProblem(m, n), ApartStart(m, n))
  {
    var p, ps := ApartProblem(m, n), ApartStart(m, n);
    assert ps[0] + ps[1] == ps[1];
    FirstTwoServe(ps);
    EachOnce(ps[1]);
    forall i, k | 0 <= i < m && 0 <= k < |ps[i]| ensures HasSkills(p, p.vehicles[i], ps[i][k]) { ApartSkills(m, n, i, ps[i][k]); }
  }

  // ----- what an iteration makes of it that takes out node 0 alone -----

  lemma ApartMissesNode0(m: nat, n: nat, o: Order)
    requires m >= 2 && n >= 1 && KnownNodes(ApartProblem(m, n), o) && 0 in o
    ensures !Feasible(ApartProblem(m, n), ApartProblem(m, n).vehicles[1], o)
  {
    var p := ApartProblem(m, n);
    ApartUsable(m, n);
    NeverInTime(p, StartClock(p, p.vehicles[1], o), 0.0, o, 0);
  }

  lemma ApartNothingFits(m: nat, n: nat, ps: seq<Order>)
    requires m >= 2 && n >= 1 && Plans(ApartProblem(m, n), ps)
    ensures NothingFits(AllQuotes(ApartProblem(m, n), ps, [0]))
  {
    var p := ApartProblem(m, n);
    forall s ensures s !in Quotes(p, ps, 0) {
      if s in Slots(ps) {
        ApartSkills(m, n, s.plan, 0);
        var o := InsertAt(ps[s.plan], s.pos, 0);
        assert o[s.pos] == 0;
        if s.plan == 1 { ApartMissesNode0(m, n, o); }
      }
    }
    assert Quotes(p, ps, 0) == map[];
  }

  // Whatever the rule, node 0 can only fall back to the first empty plan.
  lemma ApartInsertion(m: nat, n: nat, rule: Rule, left: seq<Order>, fill: Fill, inserted: seq<Order>)
    requires m >= 2 && n >= 1 && Plans(ApartProblem(m, n), left) && left[0] == []
    requires Inserts(rule, ApartProblem(m, n), fill, Stage(left, [0]), Stage(inserted, []))
    ensures inserted == left[0 := [0]]
  {
    var p := ApartProblem(m, n);
    assert fill.choices != [];
    assert InsertStep(rule, p, fill.stages[0], fill.choices[0], fill.stages[1]);
    if |fill.choices| > 1 { SomeoneWaits(rule, p, fill.stages[1], fill.choices[1], fill.stages[2]); }
    ApartNothingFits(m, n, left);
    assert InsertAt([], 0, 0) == [0] && RemoveAt([0], 0) == [];
  }

  lemma ApartOptimal(m: nat, n: nat, kind: Kind, mode: Mode, ps: seq<Order>)
    requires Plans(ApartProblem(m, n), ps)
    ensures ExchangeOptimal(ApartProblem(m, n), kind, mode, ps)
  {
    var p := ApartProblem(m, n);
    ApartUsable(m, n);
    forall a, b, mv | 0 <= a < b < m ensures !MoveGains(p, kind, mode, p.vehicles[a], p.vehicles[b], ps[a], ps[b], mv) {
      ApartNoGain(m, n, kind, mode, ps[a], ps[b], p.vehicles[a], p.vehicles[b], mv);
    }
  }

  lemma ApartNoGain(m: nat, n: nat, kind: Kind, mode: Mode, pa: Order, pb: Order, va: Vehicle, vb: Vehicle, mv: Move)
    requires KnownNodes(ApartProblem(m, n), pa) && KnownNodes(ApartProblem(m, n), pb)
    ensures !MoveGains(ApartProblem(m, n), kind, mode, va, vb, pa, pb, mv)
  {
    ApartIsShort(m, n, pa);
    ApartIsShort(m, n, pb);
    ApartUsable(m, n);
    if Legal(kind, mv, pa, pb) {
      LengthNonNegative(ApartDistance(n), FirstAfter(kind, mode, mv, pa, pb));
      LengthNonNegative(ApartDistance(n), SecondAfter(kind, mode, mv, pa, pb));
    }
  }

  lemma ApartUnchanged(m: nat, n: nat, kind: Kind, mode: Mode, ps: seq<Order>, now: seq<Order>, play: Play)
    requires Plans(ApartProblem(m, n), ps) && ExchangeResult(ApartProblem(m, n), kind, mode, ps, now, play)
    ensures now == ps
  {
    var p := ApartProblem(m, n);
    if play.steps != [] {
      var st := play.steps[0];
      assert StepTaken(p, kind, mode, play, 0);
      ApartNoGain(m, n, kind, mode, ps[st.a], ps[st.b], p.vehicles[st.a], p.vehicles[st.b], st.move);
    }
  }

  lemma ApartTwoOpt(m: nat, n: nat, ps: seq<Order>)
    requires Plans(ApartProblem(m, n), ps)
    ensures TwoOptResult(ApartProblem(m, n), ps, ps)
  {
    var p := ApartProblem(m, n);
    ApartUsable(m, n);
    forall vi, i, k | 0 <= vi < m && 1 <= i < k < |ps[vi]| - 1 ensures NoGain(p, p.vehicles[vi], ps[vi], i, k) {
      var c := ReverseSegment(ps[vi], i, k);
      ApartIsShort(m, n, ps[vi]);
      ReverseSegmentMultiset(ps[vi], i, k);
      SameMembersKnown(p, ps[vi], c);
      LengthNonNegative(p.d, c);
    }
  }

  lemma OneNodePlanStays(p: Problem, v: Vehicle, was: Order, now: Order)
    requires p.speedKph > 0.0 && KnownNodes(p, was) && Reordered(p, v, was, now) && |was| == 1
    ensures now == was
  {
    assert |multiset(now)| == |multiset(was)|;
  }

  lemma ApartRepairs(m: nat, n: nat, mode: Mode, ps: seq<Order>, r: Trail)
    requires m >= 2 && n >= 1 && Plans(ApartProblem(m, n), ps) && GoodSeed(ApartProblem(m, n), ps)
    requires RepairStages(ApartProblem(m, n), mode, ps, r) && r.removed == [0]
    ensures r.repaired[0] == [0]
  {
    var left := WithoutAll(ps, {0});
    ApartIdle(m, n, ps, 0);
    assert Elements(r.removed) == {0};
    WithoutAllIndex(ps, {0});
    WithoutAllPlans(ApartProblem(m, n), ps, {0});
    ApartInsertion(m, n, r.rule, left, r.fill, r.inserted);
  }

  // Vehicle 0 ends up with node 0, whose skill it lacks.
  lemma ApartIterationBreaksRules(m: nat, n: nat, mode: Mode, ps: seq<Order>, r: Trail, now: Visited)
    requires m >= 2 && n >= 1 && Plans(ApartProblem(m, n), ps) && GoodSeed(ApartProblem(m, n), ps)
    requires Iterated(ApartProblem(m, n), mode, ps, r, now) && r.removed == [0]
    ensures now.plans[0] == [0] && !Serviceable(ApartProblem(m, n), ApartProblem(m, n).vehicles[0], now.plans[0])
  {
    ApartRepairs(m, n, mode, ps, r);
    ApartSearches(m, n, mode, r);
    ApartSkills(m, n, 0, 0);
    assert now.plans[0][0] == 0;
  }

  lemma ApartSearches(m: nat, n: nat, mode: Mode, r: Trail)
    requires m >= 2 && n >= 1 && Plans(ApartProblem(m, n), r.repaired) && r.repaired[0] == [0]
    requires SearchStages(ApartProblem(m, n), mode, r)
    ensures |r.exchanged| == m && r.exchanged[0] == [0]
  {
    var p := ApartProblem(m, n);
    assert Reordered(p, p.vehicles[0], r.repaired[0], r.reversed[0]);
    OneNodePlanStays(p, p.vehicles[0], r.repaired[0], r.reversed[0]);
    ApartUnchanged(m, n, Cross, AsWritten, r.reversed, r.swapped, r.swaps);
    ApartUnchanged(m, n, TwoOptStar, mode, r.swapped, r.exchanged, r.exchanges);
  }

  // ----- there is such an iteration -----

  function FallbackTrail(left: seq<Order>, back: seq<Order>): Trail {
    Trail(AtRandom, 1, [0], Greedy, Fill([Stage(left, [0]), Stage(back, [])], [FIRST_SLOT]), back, back,
          back, Play([back], []), back, Play([back], []), back)
  }

  lemma ApartFallsBack(m: nat, n: nat, left: seq<Order>)
    requires m >= 2 && n >= 1 && Plans(ApartProblem(m, n), left) && left[0] == []
    ensures InsertStep(Greedy, ApartProblem(m, n), Stage(left, [0]), FIRST_SLOT, Stage(left[0 := [0]], []))
  {
    ApartNothingFits(m, n, left);
    assert InsertAt([], 0, 0) == [0] && RemoveAt([0], 0) == [];
  }

  lemma ApartPicks(m: nat, n: nat, ps: seq<Order>)
    requires m >= 2 && n >= 1 && Plans(ApartProblem(m, n), ps) && GoodSeed(ApartProblem(m, n), ps)
    ensures Picked(ApartProblem(m, n), ps, AtRandom, 1, [0])
  {
    var p := ApartProblem(m, n);
    ApartSkills(m, n, 1, 0);
    assert CanAdd(p, p.vehicles[1], ps[1], 0);
    assert 0 in NodesOf(ps);
  }

  lemma ApartRepairStages(m: nat, n: nat, mode: Mode, ps: seq<Order>, left: seq<Order>, back: seq<Order>)
    requires m >= 2 && n >= 1 && Plans(ApartProblem(m, n), ps) && Picked(ApartProblem(m, n), ps, AtRandom, 1, [0])
    requires left == WithoutAll(ps, {0}) && Plans(ApartProblem(m, n), left) && left[0] == [] && back == left[0 := [0]]
    ensures Plans(ApartProblem(m, n), back) && RepairStages(ApartProblem(m, n), mode, ps, FallbackTrail(left, back))
  {
    ApartFallsBack(m, n, left);
    InsertsOne(ApartProblem(m, n), Stage(left, [0]), FIRST_SLOT, Stage(back, []));
    GreedyStages(ApartProblem(m, n), mode, ps, left, FallbackTrail(left, back));
  }

  lemma ApartSearchStages(m: nat, n: nat, mode: Mode, left: seq<Order>, back: seq<Order>)
    requires Plans(ApartProblem(m, n), back)
    ensures SearchStages(ApartProblem(m, n), mode, FallbackTrail(left, back))
  {
    ApartTwoOpt(m, n, back);
    ApartOptimal(m, n, Cross, AsWritten, back);
    ApartOptimal(m, n, TwoOptStar, mode, back);
  }

  lemma ApartIterates(m: nat, n: nat, mode: Mode, ps: seq<Order>, back: seq<Order>)
    requires m >= 2 && n >= 1 && Plans(ApartProblem(m, n), ps) && GoodSeed(ApartProblem(m, n), ps)
    requires |WithoutAll(ps, {0})| == m && back == WithoutAll(ps, {0})[0 := [0]]
    ensures Plans(ApartProblem(m, n), back)
    ensures Iterated(ApartProblem(m, n), mode, ps, FallbackTrail(WithoutAll(ps, {0}), back), Visited(back, Cost(ApartProblem(m, n), back)))
  {
    var left := WithoutAll(ps, {0});
    ApartIdle(m, n, ps, 0);
    WithoutAllIndex(ps, {0});
    WithoutAllPlans(ApartProblem(m, n), ps, {0});
    ApartPicks(m, n, ps);
    ApartRepairStages(m, n, mode, ps, left, back);
    ApartSearchStages(m, n, mode, left, back);
  }

  // ----- exactly when runs keep the rules -----

  ghost predicate RunsKeepService(mode: Mode, m: nat, n: nat) {
    forall p: Problem, trace: seq<Visited>, t: nat :: Usable(p) && |p.vehicles| == m && |p.nodes| == n ==>
      IsRun(p, Follows(p, mode), trace) && t < |trace| ==> Serviced(p, trace[t].plans)
  }

  // In either mode, all solutions of all runs with m vehicles and n nodes respect capacities and skills
  // exactly when there are fewer than two vehicles or no nodes.
  lemma RunsKeepServiceExactly(mode: Mode, m: nat, n: nat)
    ensures RunsKeepService(mode, m, n) <==> m < 2 || n == 0
  {
    if m < 2 || n == 0 {
      forall p: Problem, trace: seq<Visited>, t: nat
        | Usable(p) && |p.vehicles| == m && |p.nodes| == n && IsRun(p, Follows(p, mode), trace) && t < |trace|
        ensures Serviced(p, trace[t].plans)
      {
        FewKeepService(p, mode, trace, t);
      }
    } else {
      ApartUsable(m, n);
      ApartSeed(m, n);
      ApartRunBreaksRules(m, n, mode, ApartStart(m, n));
    }
  }

  lemma ApartRunBreaksRules(m: nat, n: nat, mode: Mode, ps: seq<Order>)
    requires m >= 2 && n >= 1 && Plans(ApartProblem(m, n), ps) && GoodSeed(ApartProblem(m, n), ps)
    ensures exists trace: seq<Visited> :: IsRun(ApartProblem(m, n), Follows(ApartProblem(m, n), mode), trace) &&
                                          |trace| == 2 && trace[0].plans == ps && !Serviced(ApartProblem(m, n), trace[1].plans)
  {
    var p, left := ApartProblem(m, n), WithoutAll(ps, {0});
    WithoutAllIndex(ps, {0});
    var back := left[0 := [0]];
    ApartIterates(m, n, mode, ps, back);
    var now := Visited(back, Cost(p, back));
    ApartIterationBreaksRules(m, n, mode, ps, FallbackTrail(left, back), now);
    assert Follows(p, mode)(ps, now);
    TwoVisits(p, mode, ps, now);
    assert [Visited(ps, Cost(p, ps)), now][1] == now;
  }
}
