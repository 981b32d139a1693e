// Solve: the adaptive large-neighbourhood search (internal/opt/alns_engine.go:74-142, 625-636).
//
// Random draws, the deadline and the acceptance of worse solutions are arbitrary, so every statement
// holds for every run.
module Search {
  import opened Sequences
  import opened Paths
  import opened Problems
  import opened Slices
  import opened Costs
  import opened Schedules
  import opened Solutions
  import opened Destroy
  import opened Repair
  import opened TwoOpt
  import opened Exchange
  import opened ExchangeSearch
  import opened LostNodes
  import opened OrOpt
  import opened Seeding

  // ----- choosing an operator -----

  ghost function SumTo(w: seq<real>, n: nat): real
    requires n <= |w|
  {
    if n == 0 then 0.0 else SumTo(w, n - 1) + w[n - 1]
  }

  // The point at which the wheel stops.
  function Share(draw: real, sum: real): real { draw * sum }

  lemma ShareBelow(draw: real, sum: real)
    requires 0.0 <= draw < 1.0 && sum > 0.0
    ensures Share(draw, sum) < sum
  {
  }

  // The first operator whose cumulated weight reaches the drawn share of the sum.
  method SelectOp(weights: seq<real>, draw: real) returns (op: int)
    requires weights != [] && 0.0 <= draw
    ensures 0 <= op < |weights|
    ensures SumTo(weights, |weights|) <= 0.0 ==> op == 0
    ensures SumTo(weights, |weights|) > 0.0 ==>
              forall n :: 1 <= n <= op ==> SumTo(weights, n) < Share(draw, SumTo(weights, |weights|))
    ensures SumTo(weights, |weights|) > 0.0 && draw < 1.0 ==> Share(draw, SumTo(weights, |weights|)) <= SumTo(weights, op + 1)
  {
    var sum := 0.0;
    for k := 0 to |weights|
      invariant sum == SumTo(weights, k)
    {
      sum := sum + weights[k];
    }
    if sum <= 0.0 { return 0; }
    var r := Share(draw, sum);
    if draw < 1.0 { ShareBelow(draw, sum); }
    op := FirstReaching(weights, r);
  }

  method FirstReaching(weights: seq<real>, r: real) returns (op: int)
    requires weights != []
    ensures 0 <= op < |weights|
    ensures forall n :: 1 <= n <= op ==> SumTo(weights, n) < r
    ensures r <= SumTo(weights, op + 1) || SumTo(weights, |weights|) < r
  {
    var acc := 0.0;
    for i := 0 to |weights|
      invariant acc == SumTo(weights, i)
      invariant forall n :: 1 <= n <= i ==> SumTo(weights, n) < r
    {
      acc := acc + weights[i];
      if r <= acc { return i; }
    }
    assert SumTo(weights, |weights|) < r;
    return |weights| - 1;
  }

  // ----- one iteration -----

  method ChooseRemoved(p: Problem, ps: seq<Order>, op: int, k: nat) returns (removed: seq<nat>)
    requires Plans(p, ps) && k >= 1
    ensures Picked(p, ps, if op == 0 then AtRandom else Related, k, removed)
  {
    if op == 0 {
      removed := PickRandomNodes(ps, k);
      NothingToPick(ps, removed, k);
      forall m | 0 <= m < |removed| ensures removed[m] < |p.nodes| {
        assert removed[m] in removed;
        AssignedKnown(p, ps, removed[m]);
      }
    } else {
      removed := ShawRemoval(p, ps, k);
    }
  }

  // With no driving limit, destroying part of a solution on schedule leaves every plan on schedule.
  lemma DestroyKeepsSchedules(p: Problem, ps: seq<Order>, gone: set<nat>)
    requires Usable(p) && ServiceNonNegative(p) && p.hosMaxDriveSec <= 0 && Plans(p, ps) && AllFeasible(p, ps)
    ensures Plans(p, WithoutAll(ps, gone)) && AllFeasible(p, WithoutAll(ps, gone))
  {
    WithoutAllPlans(p, ps, gone);
    WithoutAllIndex(ps, gone);
    forall i | 0 <= i < |ps| ensures Feasible(p, p.vehicles[i], WithoutAll(ps, gone)[i]) {
      RemovalKeepsFeasible(p, p.vehicles[i], ps[i], gone);
    }
  }

  // The stages of an iteration: how nodes were chosen, how many at most, and which; the rule and the
  // choices that put them back; and the plans after insertion, relocation, 2-opt, node swaps and
  // segment exchanges, with the moves of the last two.
  datatype Trail = Trail(how: Removal, k: nat, removed: seq<nat>, rule: Rule, fill: Fill, inserted: seq<Order>, repaired: seq<Order>,
                         reversed: seq<Order>, swaps: Play, swapped: seq<Order>, exchanges: Play, exchanged: seq<Order>)

  // The stages up to repair; the later ones are yet to come.
  function Repairing(how: Removal, k: nat, removed: seq<nat>, rule: Rule, fill: Fill, inserted: seq<Order>, repaired: seq<Order>): Trail {
    Trail(how, k, removed, rule, fill, inserted, repaired, [], Play([], []), [], Play([], []), [])
  }

  // From one to three assigned nodes are taken out, unless there are none, and put back by the rule.
  // As written, the relocation search after a regret insertion either changes nothing or does not return
  // (OrOpt.WrittenSearchReturnsExactly).
  ghost predicate RepairStages(p: Problem, mode: Mode, was: seq<Order>, r: Trail)
    requires p.speedKph > 0.0
  {
    1 <= r.k <= 3 && Picked(p, was, r.how, r.k, r.removed) && Plans(p, was) && Plans(p, r.repaired) &&
    if r.removed == [] then r.repaired == was
    else
      Plans(p, r.inserted) &&
      Inserts(r.rule, p, r.fill, Stage(WithoutAll(was, Elements(r.removed)), r.removed), Stage(r.inserted, [])) &&
      if r.rule == Regret2 && mode == Intended then OrOptResult(p, r.inserted, r.repaired) else r.repaired == r.inserted
  }

  ghost predicate SearchStages(p: Problem, mode: Mode, r: Trail)
    requires p.speedKph > 0.0 && Plans(p, r.repaired)
  {
    TwoOptResult(p, r.repaired, r.reversed) && ExchangeResult(p, Cross, AsWritten, r.reversed, r.swapped, r.swaps) &&
    ExchangeResult(p, TwoOptStar, mode, r.swapped, r.exchanged, r.exchanges)
  }

  // A solution as it stands when the search visits it.
  datatype Visited = Visited(plans: seq<Order>, cost: real)

  // An iteration that goes through the stages of r leads from `was` to `now`.
  ghost predicate Iterated(p: Problem, mode: Mode, was: seq<Order>, r: Trail, now: Visited)
    requires p.speedKph > 0.0
  {
    RepairStages(p, mode, was, r) && SearchStages(p, mode, r) && r.exchanged == now.plans &&
    Plans(p, now.plans) && now.cost == Cost(p, now.plans)
  }

  // What destroy and repair do to the nodes.
  lemma {:induction false} RepairNodes(p: Problem, mode: Mode, was: seq<Order>, r: Trail)
    requires p.speedKph > 0.0 && RepairStages(p, mode, was, r)
    ensures NoNewNodes(Assigned(was), Assigned(r.repaired))
    ensures OnceEach(Assigned(was)) ==> Assigned(r.repaired) == Assigned(was)
  {
    if r.removed != [] {
      var left := WithoutAll(was, Elements(r.removed));
      WithoutAllPlans(p, was, Elements(r.removed));
      InsertsConserves(r.rule, p, r.fill, Stage(left, r.removed), Stage(r.inserted, []), |r.fill.choices|);
      PutBackAddsNothing(was, r.removed, Assigned(r.inserted));
      if OnceEach(Assigned(was)) { RemovalTakesExactly(was, r.removed); }
    }
  }

  lemma {:induction false} RepairKeepsSchedules(p: Problem, mode: Mode, was: seq<Order>, r: Trail)
    requires Usable(p) && ServiceNonNegative(p) && p.hosMaxDriveSec <= 0 && OnSchedule(p, was)
    requires RepairStages(p, mode, was, r) && NoFallback(p, r.fill)
    ensures OnSchedule(p, r.repaired)
  {
    if r.removed != [] {
      var left := WithoutAll(was, Elements(r.removed));
      DestroyKeepsSchedules(p, was, Elements(r.removed));
      InsertsKeepSchedules(r.rule, p, r.fill, Stage(left, r.removed), Stage(r.inserted, []));
    }
  }

  // With no driving limit, an iteration from a solution on schedule ends on schedule, unless a node had
  // to be appended where it does not fit.
  lemma {:induction false} IterationKeepsSchedules(p: Problem, mode: Mode, was: seq<Order>, r: Trail)
    requires Usable(p) && ServiceNonNegative(p) && p.hosMaxDriveSec <= 0 && OnSchedule(p, was)
    requires RepairStages(p, mode, was, r) && SearchStages(p, mode, r) && NoFallback(p, r.fill)
    ensures OnSchedule(p, r.exchanged)
  {
    RepairKeepsSchedules(p, mode, was, r);
    assert OnSchedule(p, r.reversed);
    ResultEffect(p, Cross, AsWritten, r.reversed, r.swapped, r.swaps);
    ResultEffect(p, TwoOptStar, mode, r.swapped, r.exchanged, r.exchanges);
  }

  method PutBack(p: Problem, mode: Mode, plans: Fleet, removed: seq<nat>, rule: Rule)
    returns (next: Solution, ghost fill: Fill, ghost inserted: seq<Order>)
    requires Usable(p) && Plans(p, plans.orders) && KnownNodes(p, removed) && plans.orders != []
    requires plans.Valid() && plans.Separate()
    modifies plans, plans.Stores()
    ensures next.plans == plans && plans.Valid() && Plans(p, inserted) && Plans(p, plans.orders)
    ensures Inserts(rule, p, fill, Stage(old(plans.orders), removed), Stage(inserted, []))
    ensures if rule == Regret2 && mode == Intended then OrOptResult(p, inserted, plans.orders) else plans.orders == inserted
  {
    fill := InsertNodes(rule, p, plans, removed);
    inserted := plans.orders;
    var c := CostOf(p, plans.ReadAll());
    next := Solution(plans, c);
    if rule == Regret2 && mode == Intended { next := OrOptImprove(p, next); }
  }

  // Destroy and repair never write to the plans they start from, nor within their orders: all that they
  // edit in place is freshly allocated, unless there is nothing to remove.
  method DestroyAndRepair(p: Problem, mode: Mode, curr: Solution, op: int, ip: int, k: nat) returns (next: Solution, ghost r: Trail)
    requires Usable(p) && curr.plans.Valid() && Plans(p, curr.plans.orders) && 1 <= k <= 3
    ensures next.plans.Valid()
    ensures if Assigned(curr.plans.orders) == multiset{} then next.plans == curr.plans else fresh(next.plans)
    ensures RepairStages(p, mode, curr.plans.orders, r) && r.repaired == next.plans.orders
    ensures r.k == k && r.how == (if op == 0 then AtRandom else Related) && r.rule == (if ip == 0 then Greedy else Regret2)
  {
    ghost var ps := curr.plans.orders;
    ghost var how := if op == 0 then AtRandom else Related;
    var removed := ChooseRemoved(p, curr.plans.ReadAll(), op, k);
    var plans := RemoveNodes(curr.plans, removed);
    var rule := if ip == 0 then Greedy else Regret2;
    if removed == [] {
      r := Repairing(how, k, removed, rule, Fill([], []), ps, ps);
      return Solution(plans, curr.cost), r;
    }
    WithoutAllPlans(p, ps, Elements(removed));
    HasPlans(ps, removed[0]);
    ghost var fill, inserted;
    next, fill, inserted := PutBack(p, mode, plans, removed, rule);
    r := Repairing(how, k, removed, rule, fill, inserted, next.plans.orders);
  }

  lemma PutBackAddsNothing(ps: seq<Order>, removed: seq<nat>, after: multiset<nat>)
    requires forall x :: x in removed ==> x in Assigned(ps)
    requires after == Assigned(WithoutAll(ps, Elements(removed))) + multiset(removed)
    ensures NoNewNodes(Assigned(ps), after)
  {
    var gone := Elements(removed);
    WithoutAllCounts(ps, gone);
    forall x | x in after ensures x in Assigned(ps) {
      if x in multiset(removed) {
        assert x in removed;
      } else {
        assert Assigned(WithoutAll(ps, gone))[x] > 0;
      }
    }
  }

  lemma NothingToPick(ps: seq<Order>, removed: seq<nat>, k: nat)
    requires k >= 1 && |removed| == Min(k, |NodesOf(ps)|)
    ensures removed == [] <==> Assigned(ps) == multiset{}
  {
    if Assigned(ps) != multiset{} {
      var x :| x in Assigned(ps);
      assert x in NodesOf(ps);
    } else {
      assert NodesOf(ps) == {};
    }
  }

  lemma WithoutAllPlans(p: Problem, ps: seq<Order>, gone: set<nat>)
    requires Plans(p, ps)
    ensures Plans(p, WithoutAll(ps, gone))
  {
    WithoutAllIndex(ps, gone);
    forall i | 0 <= i < |ps| ensures KnownNodes(p, WithoutAll(ps, gone)[i]) {
      WithoutMembers(ps[i], gone);
      var o := Without(ps[i], gone);
      forall k | 0 <= k < |o| ensures o[k] < |p.nodes| { assert o[k] in o; }
    }
  }

  lemma HasPlans(ps: seq<Order>, x: nat)
    requires x in Assigned(ps)
    ensures ps != []
  {
  }

  // Sizes with which the search keeps the nodes even as written (LostNodes.WrittenSearchKeepsNodesExactly).
  predicate Harmless(vehicles: nat, nodes: nat) {
    vehicles < 2 || nodes < 4
  }

  // The three local searches, one after the other, in place.
  method LocalSearch(p: Problem, mode: Mode, sol: Solution, ghost r0: Trail) returns (out: Solution, ghost r: Trail)
    requires Usable(p) && sol.plans.Valid() && Plans(p, sol.plans.orders) && r0.repaired == sol.plans.orders
    modifies sol.plans
    ensures out.plans == sol.plans && out.plans.Valid() && Plans(p, out.plans.orders) && out.cost == Cost(p, out.plans.orders)
    ensures r == r0.(reversed := r.reversed, swaps := r.swaps, swapped := r.swapped,
                         exchanges := r.exchanges, exchanged := out.plans.orders)
    ensures SearchStages(p, mode, r)
  {
    out := TwoOptImprove(p, sol);
    ghost var reversed, swaps, exchanges := out.plans.orders, Play([], []), Play([], []);
    out, swaps := CrossExchangeImprove(p, out);
    ghost var swapped := out.plans.orders;
    out, exchanges := TwoOptStarImprove(p, mode, out);
    r := r0.(reversed := reversed, swaps := swaps, swapped := swapped, exchanges := exchanges, exchanged := out.plans.orders);
    var c := CostOf(p, out.plans.ReadAll());
    out := out.(cost := c);
  }

  // What the local searches do to the nodes.
  lemma {:induction false} SearchNodes(p: Problem, mode: Mode, r: Trail)
    requires Usable(p) && Plans(p, r.repaired) && SearchStages(p, mode, r)
    ensures KeepsNodes(r.repaired, r.exchanged, CrookedMoves(mode, r.exchanges))
    ensures mode == Intended || Harmless(|p.vehicles|, |Assigned(r.repaired)|) ==> CrookedMoves(mode, r.exchanges) == 0
  {
    AssignedPointwise(r.repaired, r.reversed);
    ResultEffect(p, Cross, AsWritten, r.reversed, r.swapped, r.swaps);
    ResultEffect(p, TwoOptStar, mode, r.swapped, r.exchanged, r.exchanges);
    if Harmless(|p.vehicles|, |Assigned(r.repaired)|) {
      FewNodesStayStraight(p, TwoOptStar, mode, r.exchanges, r.swapped, r.exchanged);
    }
  }

  // What an iteration does to the nodes.
  lemma {:induction false} IterationNodes(p: Problem, mode: Mode, was: seq<Order>, r: Trail)
    requires Usable(p) && RepairStages(p, mode, was, r) && SearchStages(p, mode, r)
    ensures NodesAfter(Assigned(was), Assigned(r.exchanged), CrookedMoves(mode, r.exchanges))
    ensures mode == Intended || (OnceEach(Assigned(was)) && Harmless(|p.vehicles|, |p.nodes|)) ==> CrookedMoves(mode, r.exchanges) == 0
    ensures Assigned(was) == multiset{} ==> r.exchanged == was
  {
    RepairNodes(p, mode, was, r);
    SearchNodes(p, mode, r);
    if OnceEach(Assigned(was)) {
      forall x: nat | x in Assigned(was) ensures x < |p.nodes| { AssignedKnown(p, was, x); }
      TooMany(Assigned(was), |p.nodes|);
    }
    if Assigned(was) == multiset{} { EmptyPlansEqual(was, r.exchanged); }
  }

  lemma StagesTogether(p: Problem, mode: Mode, was: seq<Order>, r0: Trail, r: Trail, now: Visited)
    requires p.speedKph > 0.0 && RepairStages(p, mode, was, r0) && Plans(p, r.repaired) && SearchStages(p, mode, r)
    requires r == r0.(reversed := r.reversed, swaps := r.swaps, swapped := r.swapped, exchanges := r.exchanges, exchanged := r.exchanged)
    requires r.exchanged == now.plans && Plans(p, now.plans) && now.cost == Cost(p, now.plans)
    ensures Iterated(p, mode, was, r, now)
  {
  }

  lemma IterationDone(p: Problem, mode: Mode, was: seq<Order>, r0: Trail, r: Trail, now: Visited)
    requires Usable(p) && RepairStages(p, mode, was, r0) && Plans(p, r.repaired) && SearchStages(p, mode, r)
    requires r == r0.(reversed := r.reversed, swaps := r.swaps, swapped := r.swapped, exchanges := r.exchanges, exchanged := r.exchanged)
    requires r.exchanged == now.plans && Plans(p, now.plans) && now.cost == Cost(p, now.plans)
    ensures Iterated(p, mode, was, r, now) && Next(p, mode, Follows(p, mode), was, CrookedMoves(mode, r.exchanges), now)
    ensures Assigned(was) == multiset{} ==> now.plans == was
  {
    StagesTogether(p, mode, was, r0, r, now);
    IteratedNext(p, mode, was, r, now);
  }

  // The plans that an iteration starts from, and their orders, are the same afterwards, although the
  // next solution may share them: it does so only when they are all empty.
  method OneIteration(p: Problem, mode: Mode, curr: Solution, op: int, ip: int, k: nat) returns (next: Solution, ghost r: Trail)
    requires Usable(p) && curr.plans.Valid() && Plans(p, curr.plans.orders) && 1 <= k <= 3
    modifies curr.plans
    ensures curr.plans.Valid() && next.plans.Valid() && curr.plans.orders == old(curr.plans.orders)
    ensures next.plans == curr.plans || fresh(next.plans)
    ensures Iterated(p, mode, curr.plans.orders, r, Visited(next.plans.orders, next.cost))
    ensures Next(p, mode, Follows(p, mode), curr.plans.orders, CrookedMoves(mode, r.exchanges), Visited(next.plans.orders, next.cost))
    ensures r.k == k && r.how == (if op == 0 then AtRandom else Related) && r.rule == (if ip == 0 then Greedy else Regret2)
  {
    ghost var ps, r0 := curr.plans.orders, Repairing(AtRandom, 0, [], Greedy, Fill([], []), [], []);
    next, r0 := DestroyAndRepair(p, mode, curr, op, ip, k);
    next, r := LocalSearch(p, mode, next, r0);
    IterationDone(p, mode, ps, r0, r, Visited(next.plans.orders, next.cost));
  }

  // What an iteration does to the served nodes: it never adds one, and if each was served once it keeps
  // them all exactly when it made no crooked move.
  ghost predicate NodesAfter(was: multiset<nat>, now: multiset<nat>, crooked: nat) {
    NoNewNodes(was, now) && (OnceEach(was) ==> if crooked == 0 then now == was else LosesNode(was, now))
  }

  lemma EmptyPlansEqual(ps: seq<Order>, qs: seq<Order>)
    requires |ps| == |qs| && Assigned(ps) == multiset{} && |Assigned(qs)| == 0
    ensures ps == qs
  {
  }

  // ----- the whole search -----

  datatype Snapshot = Snapshot(iteration: nat, removal: seq<real>, insertion: seq<real>)

  datatype Metrics = Metrics(
    removalSelects: seq<nat>, insertSelects: seq<nat>, iterations: nat, improvements: nat, acceptedWorse: nat,
    bestCost: real, finalCost: real, removal: seq<real>, insertion: seq<real>, snapshots: seq<Snapshot>)

  function RealMax(x: real, y: real): real { if x > y then x else y }

  function RealMin(x: real, y: real): real { if x < y then x else y }

  // Weights stay above the floor of the penalty, or above where they started.
  ghost predicate Floored(w: seq<real>, initial: seq<real>) {
    |w| == |initial| == 2 && forall i :: 0 <= i < 2 ==> w[i] >= RealMin(0.01, initial[i])
  }

  // The counters after n iterations.
  ghost predicate Books(m: Metrics, n: nat, remW: seq<real>, insW: seq<real>, rem0: seq<real>, ins0: seq<real>) {
    |m.removalSelects| == |m.insertSelects| == 2 &&
    m.removalSelects[0] + m.removalSelects[1] == m.insertSelects[0] + m.insertSelects[1] == n &&
    m.improvements + m.acceptedWorse <= n && |m.snapshots| == n / 50 &&
    Floored(remW, rem0) && Floored(insW, ins0)
  }

  function Reweighted(w: real, better: bool, accepted: bool): real {
    if better then w + 0.1 else if accepted then w + 0.01 else RealMax(0.01, w * 0.999)
  }

  // The reward or penalty of the two operators used, and the counters.
  method Adapt(m0: Metrics, remW0: seq<real>, insW0: seq<real>, op: int, ip: int, better: bool, accepted: bool, cost: real,
               ghost n: nat, ghost rem0: seq<real>, ghost ins0: seq<real>)
    returns (m: Metrics, remW: seq<real>, insW: seq<real>)
    requires Books(m0, n, remW0, insW0, rem0, ins0) && 0 <= op < 2 && 0 <= ip < 2 && m0.iterations == n + 1
    ensures Books(m, n + 1, remW, insW, rem0, ins0)
    ensures m.iterations == m0.iterations && m.bestCost == if better then cost else m0.bestCost
    ensures remW == remW0[op := Reweighted(remW0[op], better, accepted)] && insW == insW0[ip := Reweighted(insW0[ip], better, accepted)]
    ensures m.removalSelects == m0.removalSelects[op := m0.removalSelects[op] + 1]
    ensures m.insertSelects == m0.insertSelects[ip := m0.insertSelects[ip] + 1]
    ensures m.improvements == m0.improvements + (if better then 1 else 0)
    ensures m.acceptedWorse == m0.acceptedWorse + (if accepted && !better then 1 else 0)
    ensures m.snapshots == if (n + 1) % 50 == 0 then m0.snapshots + [Snapshot(n + 1, remW, insW)] else m0.snapshots
  {
    m, remW, insW := m0, remW0, insW0;
    m := m.(removalSelects := m.removalSelects[op := m.removalSelects[op] + 1]);
    m := m.(insertSelects := m.insertSelects[ip := m.insertSelects[ip] + 1]);
    if better || accepted {
      if better {
        remW := remW[op := remW[op] + 0.1];
        insW := insW[ip := insW[ip] + 0.1];
        m := m.(improvements := m.improvements + 1, bestCost := cost);
      } else {
        remW := remW[op := remW[op] + 0.01];
        insW := insW[ip := insW[ip] + 0.01];
        m := m.(acceptedWorse := m.acceptedWorse + 1);
      }
    } else {
      remW := remW[op := RealMax(0.01, remW[op] * 0.999)];
      insW := insW[ip := RealMax(0.01, insW[ip] * 0.999)];
    }
    if m.iterations % 50 == 0 {
      m := m.(snapshots := m.snapshots + [Snapshot(m.iterations, remW, insW)]);
    }
  }

  function StartWeights(given: seq<real>): seq<real> {
    if |given| == 2 then given else [1.0, 1.0]
  }

  ghost predicate Truthful(p: Problem, v: Visited, bestCost: real)
    requires p.speedKph > 0.0
  {
    Plans(p, v.plans) && v.cost == Cost(p, v.plans) && bestCost <= v.cost
  }

  // The history of a run: every visited solution carries its own cost, and `best` is the cheapest.
  ghost predicate History(p: Problem, trace: seq<Visited>, best: seq<Order>, bestCost: real)
    requires p.speedKph > 0.0
  {
    (forall t :: 0 <= t < |trace| ==> Truthful(p, trace[t], bestCost)) &&
    exists t :: 0 <= t < |trace| && trace[t].plans == best && trace[t].cost == bestCost
  }

  ghost predicate Conserved(trace: seq<Visited>) {
    forall t :: 0 <= t < |trace| ==> Assigned(trace[t].plans) == Assigned(trace[0].plans)
  }

  function Running(p: Problem): Problem {
    if p.speedKph <= 0.0 then p.(speedKph := 50.0) else p
  }

  lemma {:induction false} HistoryExtend(p: Problem, trace: seq<Visited>, best: seq<Order>, bestCost: real, now: Visited)
    requires p.speedKph > 0.0 && History(p, trace, best, bestCost)
    requires Plans(p, now.plans) && now.cost == Cost(p, now.plans)
    ensures if now.cost < bestCost then History(p, trace + [now], now.plans, now.cost)
            else History(p, trace + [now], best, bestCost)
  {
    var longer := trace + [now];
    assert longer[|trace|] == now;
    var t :| 0 <= t < |trace| && trace[t].plans == best && trace[t].cost == bestCost;
    assert longer[t] == trace[t];
  }

  // Which solution may follow which in a run.
  type Link = (seq<Order>, Visited) -> bool

  // The link of the search: an iteration leads from the one to the other.
  ghost function Follows(p: Problem, mode: Mode): Link
    requires p.speedKph > 0.0
  {
    (was: seq<Order>, now: Visited) => exists r :: Iterated(p, mode, was, r, now)
  }

  // A run begins at a good seed, and every visited solution follows from the one before it.
  ghost predicate IsRun(p: Problem, link: Link, trace: seq<Visited>)
    requires p.speedKph > 0.0
  {
    trace != [] && Plans(p, trace[0].plans) && trace[0].cost == Cost(p, trace[0].plans) && GoodSeed(p, trace[0].plans) &&
    Chain(link, trace)
  }

  // A run so far, its history, and the nodes it has kept. It keeps them all exactly as long as no
  // crooked move is made, and a node that is lost never comes back.
  ghost predicate RunState(p: Problem, mode: Mode, link: Link, trace: seq<Visited>, crooked: nat,
                           curr: seq<Order>, best: seq<Order>, bestCost: real)
    requires p.speedKph > 0.0
  {
    IsRun(p, link, trace) && trace[|trace| - 1].plans == curr && Plans(p, curr) && Plans(p, best) &&
    History(p, trace, best, bestCost) && Served(trace, crooked) && (mode == Intended || Harmless(|p.vehicles|, |p.nodes|) ==> crooked == 0)
  }

  // The run serves the seed's nodes throughout, unless a crooked splice has cost it one for good.
  ghost predicate Served(trace: seq<Visited>, crooked: nat)
    requires trace != []
  {
    (crooked == 0 <==> Conserved(trace)) &&
    (crooked > 0 ==> LosesNode(Assigned(trace[0].plans), Assigned(trace[|trace| - 1].plans)))
  }

  lemma {:induction false} ServedExtend(trace: seq<Visited>, crooked: nat, now: Visited, bent: nat)
    requires trace != [] && Served(trace, crooked) && OnceEach(Assigned(trace[0].plans))
    requires NodesAfter(Assigned(trace[|trace| - 1].plans), Assigned(now.plans), bent)
    ensures Served(trace + [now], crooked + bent)
  {
    var longer := trace + [now];
    assert longer[0] == trace[0] && longer[|longer| - 1] == now;
    if crooked > 0 {
      var x :| x in Assigned(trace[0].plans) && x !in Assigned(trace[|trace| - 1].plans);
      assert x !in Assigned(now.plans);
    }
    if crooked + bent == 0 {
      assert Assigned(trace[|trace| - 1].plans) == Assigned(trace[0].plans);
      forall t | 0 <= t < |longer| ensures Assigned(longer[t].plans) == Assigned(longer[0].plans) {
        if t < |trace| { assert longer[t] == trace[t]; }
      }
    } else {
      assert Assigned(longer[|longer| - 1].plans) != Assigned(longer[0].plans);
    }
  }

  ghost predicate Chain(link: Link, trace: seq<Visited>) {
    forall t :: 0 < t < |trace| ==> link(trace[t - 1].plans, trace[t])
  }

  lemma {:induction false} ChainExtend(link: Link, trace: seq<Visited>, now: Visited)
    requires trace != [] && Chain(link, trace) && link(trace[|trace| - 1].plans, now)
    ensures Chain(link, trace + [now])
  {
    var longer := trace + [now];
    forall t | 0 < t < |longer| ensures link(longer[t - 1].plans, longer[t]) {
      assert longer[t - 1] == trace[t - 1] && (t < |trace| ==> longer[t] == trace[t]);
    }
  }

  lemma RunBegins(p: Problem, mode: Mode, link: Link, seeded: seq<Order>, cost: real)
    requires p.speedKph > 0.0 && Plans(p, seeded) && cost == Cost(p, seeded) && GoodSeed(p, seeded)
    ensures RunState(p, mode, link, [Visited(seeded, cost)], 0, seeded, seeded, cost)
  {
  }

  // What is known of a run: the visited solutions, the crooked moves so far, the current plans, and the
  // incumbent with its cost. The loop below carries any such facts along that an iteration keeps.
  type Facts = (seq<Visited>, nat, seq<Order>, seq<Order>, real) -> bool

  ghost predicate After(facts: Facts, trace: seq<Visited>, crooked: nat, best: seq<Order>, bestCost: real, now: Visited) {
    if now.cost < bestCost then facts(trace + [now], crooked, now.plans, now.plans, now.cost)
    else facts(trace + [now], crooked, now.plans, best, bestCost)
  }

  // What is used of the iteration that leads to `now`, with `bent` crooked moves.
  ghost predicate Next(p: Problem, mode: Mode, link: Link, curr: seq<Order>, bent: nat, now: Visited)
    requires p.speedKph > 0.0
  {
    link(curr, now) && Plans(p, now.plans) && now.cost == Cost(p, now.plans) &&
    NodesAfter(Assigned(curr), Assigned(now.plans), bent) &&
    (mode == Intended || (OnceEach(Assigned(curr)) && Harmless(|p.vehicles|, |p.nodes|)) ==> bent == 0)
  }

  // Such an iteration carries the facts on from one solution to the next.
  ghost predicate CarriedOn(p: Problem, mode: Mode, link: Link, facts: Facts, trace: seq<Visited>, crooked: nat,
                            curr: seq<Order>, best: seq<Order>, bestCost: real, bent: nat, now: Visited)
    requires p.speedKph > 0.0
  {
    facts(trace, crooked, curr, best, bestCost) && Next(p, mode, link, curr, bent, now) ==>
      After(facts, trace, crooked + bent, best, bestCost, now)
  }

  // Every iteration does so.
  ghost predicate Inductive(p: Problem, mode: Mode, link: Link, facts: Facts)
    requires p.speedKph > 0.0
  {
    forall trace, crooked: nat, curr, best, bestCost, bent: nat, now ::
      CarriedOn(p, mode, link, facts, trace, crooked, curr, best, bestCost, bent, now)
  }

  lemma {:induction false} IteratedNext(p: Problem, mode: Mode, curr: seq<Order>, r: Trail, now: Visited)
    requires Usable(p) && Iterated(p, mode, curr, r, now)
    ensures Next(p, mode, Follows(p, mode), curr, CrookedMoves(mode, r.exchanges), now)
    ensures Assigned(curr) == multiset{} ==> now.plans == curr
  {
    IterationNodes(p, mode, curr, r);
  }

  ghost function RunFacts(p: Problem, mode: Mode, link: Link): Facts
    requires p.speedKph > 0.0
  {
    (trace, crooked: nat, curr, best, bestCost) => RunState(p, mode, link, trace, crooked, curr, best, bestCost)
  }

  // One iteration carries a run on.
  lemma {:induction false} IsRunExtend(p: Problem, link: Link, trace: seq<Visited>, now: Visited)
    requires p.speedKph > 0.0 && IsRun(p, link, trace) && link(trace[|trace| - 1].plans, now)
    ensures IsRun(p, link, trace + [now]) && (trace + [now])[|trace|] == now
  {
    ChainExtend(link, trace, now);
    assert (trace + [now])[0] == trace[0];
  }

  lemma {:induction false} ServedByNext(p: Problem, mode: Mode, link: Link, trace: seq<Visited>, crooked: nat, bent: nat, now: Visited)
    requires p.speedKph > 0.0 && IsRun(p, link, trace) && Served(trace, crooked)
    requires mode == Intended || Harmless(|p.vehicles|, |p.nodes|) ==> crooked == 0
    requires Next(p, mode, link, trace[|trace| - 1].plans, bent, now)
    ensures Served(trace + [now], crooked + bent)
    ensures mode == Intended || Harmless(|p.vehicles|, |p.nodes|) ==> crooked + bent == 0
  {
    ServedExtend(trace, crooked, now, bent);
    assert crooked == 0 ==> Assigned(trace[|trace| - 1].plans) == Assigned(trace[0].plans);
  }

  // One iteration carries a run on.
  lemma {:induction false} RunStep(p: Problem, mode: Mode, link: Link, trace: seq<Visited>, crooked: nat,
                                   curr: seq<Order>, best: seq<Order>, bestCost: real, bent: nat, now: Visited)
    requires p.speedKph > 0.0 && RunFacts(p, mode, link)(trace, crooked, curr, best, bestCost)
    requires Next(p, mode, link, curr, bent, now)
    ensures After(RunFacts(p, mode, link), trace, crooked + bent, best, bestCost, now)
  {
    HistoryExtend(p, trace, best, bestCost, now);
    IsRunExtend(p, link, trace, now);
    ServedByNext(p, mode, link, trace, crooked, bent, now);
  }

  lemma {:induction false} RunInductive(p: Problem, mode: Mode, link: Link)
    requires p.speedKph > 0.0
    ensures Inductive(p, mode, link, RunFacts(p, mode, link))
  {
    var facts := RunFacts(p, mode, link);
    forall trace, crooked: nat, curr, best, bestCost, bent: nat, now
      ensures CarriedOn(p, mode, link, facts, trace, crooked, curr, best, bestCost, bent, now)
    {
      CarriesOn(p, mode, link, trace, crooked, curr, best, bestCost, bent, now);
    }
  }

  lemma {:induction false} CarriesOn(p: Problem, mode: Mode, link: Link, trace: seq<Visited>, crooked: nat,
                                     curr: seq<Order>, best: seq<Order>, bestCost: real, bent: nat, now: Visited)
    requires p.speedKph > 0.0
    ensures CarriedOn(p, mode, link, RunFacts(p, mode, link), trace, crooked, curr, best, bestCost, bent, now)
  {
    if RunFacts(p, mode, link)(trace, crooked, curr, best, bestCost) && Next(p, mode, link, curr, bent, now) {
      RunStep(p, mode, link, trace, crooked, curr, best, bestCost, bent, now);
    }
  }

  // An iteration leaves the plans and orders of the incumbent alone, shared or not.
  method IterateBeside(p: Problem, mode: Mode, curr0: Solution, best0: Solution, op: int, ip: int, k: nat)
    returns (curr: Solution, ghost bent: nat)
    requires Usable(p) && curr0.plans.Valid() && best0.plans.Valid() && Plans(p, curr0.plans.orders) && 1 <= k <= 3
    modifies curr0.plans
    ensures curr.plans.Valid() && best0.plans.Valid() && best0.plans.orders == old(best0.plans.orders)
    ensures curr.plans == curr0.plans || fresh(curr.plans)
    ensures Next(p, mode, Follows(p, mode), old(curr0.plans.orders), bent, Visited(curr.plans.orders, curr.cost))
  {
    ghost var r;
    curr, r := OneIteration(p, mode, curr0, op, ip, k);
    bent := CrookedMoves(mode, r.exchanges);
  }

  // One pass of the main loop: the new solution becomes `best` only if it is strictly cheaper, and
  // working on it never disturbs the plans and orders that `best` refers to.
  method Advance(p: Problem, mode: Mode, curr0: Solution, best0: Solution, op: int, ip: int, k: nat,
                 ghost facts: Facts, ghost trace0: seq<Visited>, ghost crooked0: nat)
    returns (curr: Solution, best: Solution, better: bool, ghost trace: seq<Visited>, ghost crooked: nat)
    requires Usable(p) && Inductive(p, mode, Follows(p, mode), facts) && 1 <= k <= 3
    requires curr0.plans.Valid() && best0.plans.Valid() && Plans(p, curr0.plans.orders)
    requires facts(trace0, crooked0, curr0.plans.orders, best0.plans.orders, best0.cost)
    modifies curr0.plans
    ensures curr.plans.Valid() && best.plans.Valid() && best0.plans.Valid() && Plans(p, curr.plans.orders)
    ensures facts(trace, crooked, curr.plans.orders, best.plans.orders, best.cost)
    ensures trace == trace0 + [Visited(curr.plans.orders, curr.cost)]
    ensures curr.plans == curr0.plans || fresh(curr.plans)
    ensures best0.plans.orders == old(best0.plans.orders)
    ensures better == (curr.cost < best0.cost) && best == if better then curr else best0
  {
    ghost var was, bestWas, bent := curr0.plans.orders, best0.plans.orders, 0;
    curr, bent := IterateBeside(p, mode, curr0, best0, op, ip, k);
    ghost var now := Visited(curr.plans.orders, curr.cost);
    trace, crooked := trace0 + [now], crooked0 + bent;
    assert CarriedOn(p, mode, Follows(p, mode), facts, trace0, crooked0, was, bestWas, best0.cost, bent, now);
    better := curr.cost < best0.cost;
    best := if better then curr else best0;
  }

  // The variables of the main loop.
  datatype Loop = Loop(curr: Solution, best: Solution, m: Metrics, remW: seq<real>, insW: seq<real>)

  ghost predicate Sound(l: Loop)
    reads l.curr.plans, l.curr.plans.Stores(), l.best.plans, l.best.plans.Stores()
  {
    l.curr.plans.Valid() && l.best.plans.Valid()
  }

  ghost predicate Going(p: Problem, facts: Facts, l: Loop, trace: seq<Visited>, crooked: nat, n: nat)
    reads l.curr.plans, l.best.plans
  {
    |trace| == n + 1 && Plans(p, l.curr.plans.orders) &&
    facts(trace, crooked, l.curr.plans.orders, l.best.plans.orders, l.best.cost) &&
    l.m.bestCost == l.best.cost &&
    Books(l.m, n, l.remW, l.insW, StartWeights(p.initialRemovalWeights), StartWeights(p.initialInsertionWeights))
  }

  // The body of the main loop, after the iteration has been counted.
  method Work(p: Problem, mode: Mode, l0: Loop, ghost facts: Facts, ghost trace0: seq<Visited>, ghost crooked0: nat, ghost n: nat)
    returns (l: Loop, ghost trace: seq<Visited>, ghost crooked: nat)
    requires Usable(p) && Inductive(p, mode, Follows(p, mode), facts) && Sound(l0)
    requires Going(p, facts, l0, trace0, crooked0, n) && l0.m.iterations == n + 1
    modifies l0.curr.plans
    ensures Sound(l) && Going(p, facts, l, trace, crooked, n + 1) && l.m.iterations == n + 1
    ensures l.curr.plans == l0.curr.plans || fresh(l.curr.plans)
  {
    var k: nat :| 1 <= k <= 3;
    var drawR: real :| 0.0 <= drawR < 1.0;
    var drawI: real :| 0.0 <= drawI < 1.0;
    var op := SelectOp(l0.remW, drawR);
    var ip := SelectOp(l0.insW, drawI);
    var curr, best, better;
    curr, best, better, trace, crooked := Advance(p, mode, l0.curr, l0.best, op, ip, k, facts, trace0, crooked0);
    var accepted: bool := *;
    var m, remW, insW := Adapt(l0.m, l0.remW, l0.insW, op, ip, better, accepted, curr.cost, n,
                               StartWeights(p.initialRemovalWeights), StartWeights(p.initialInsertionWeights));
    l := Loop(curr, best, m, remW, insW);
  }

  function Counted(l: Loop): Loop {
    l.(m := l.m.(iterations := l.m.iterations + 1))
  }

  method Begin(p: Problem, mode: Mode, seeded: Solution) returns (l: Loop, ghost trace: seq<Visited>)
    requires p.speedKph > 0.0 && seeded.plans.Valid() && Plans(p, seeded.plans.orders)
    requires seeded.cost == Cost(p, seeded.plans.orders) && GoodSeed(p, seeded.plans.orders)
    ensures |trace| == 1 && Sound(l) && Going(p, RunFacts(p, mode, Follows(p, mode)), l, trace, 0, 0)
    ensures l.m.iterations == 0 && l.curr == seeded
  {
    l := Loop(seeded, seeded, Metrics([0, 0], [0, 0], 0, 0, 0, seeded.cost, 0.0, [], [], []),
              StartWeights(p.initialRemovalWeights), StartWeights(p.initialInsertionWeights));
    trace := [Visited(seeded.plans.orders, seeded.cost)];
    RunBegins(p, mode, Follows(p, mode), seeded.plans.orders, seeded.cost);
  }

  // One round of the main loop: count the iteration, stop at the limit, else do the work.
  method Pass(p: Problem, mode: Mode, l0: Loop, ghost facts: Facts, ghost trace0: seq<Visited>, ghost crooked0: nat, ghost n: nat)
    returns (l: Loop, stop: bool, ghost trace: seq<Visited>, ghost crooked: nat)
    requires Usable(p) && Inductive(p, mode, Follows(p, mode), facts) && Sound(l0)
    requires Going(p, facts, l0, trace0, crooked0, n) && l0.m.iterations == n
    modifies l0.curr.plans
    ensures Sound(l) && Going(p, facts, l, trace, crooked, if stop then n else n + 1) && l.m.iterations == n + 1
    ensures stop <==> 0 < p.iterationsLimit <= n + 1
    ensures l.curr.plans == l0.curr.plans || fresh(l.curr.plans)
  {
    l, trace, crooked := Counted(l0), trace0, crooked0;
    stop := p.iterationsLimit > 0 && l.m.iterations >= p.iterationsLimit;
    if !stop { l, trace, crooked := Work(p, mode, l, facts, trace, crooked, n); }
  }

  // The main loop.
  method Run(p: Problem, mode: Mode, ticks: nat, l0: Loop, ghost facts: Facts, ghost trace0: seq<Visited>)
    returns (l: Loop, ghost trace: seq<Visited>, ghost crooked: nat)
    requires Usable(p) && Inductive(p, mode, Follows(p, mode), facts) && Sound(l0)
    requires Going(p, facts, l0, trace0, 0, 0) && l0.m.iterations == 0
    modifies l0.curr.plans
    ensures trace != [] && Sound(l) && Going(p, facts, l, trace, crooked, |trace| - 1)
    ensures |trace| <= ticks + 1 && (p.iterationsLimit > 0 ==> |trace| <= p.iterationsLimit)
    ensures |trace| - 1 <= l.m.iterations <= |trace|
  {
    l, trace, crooked := l0, trace0, 0;
    ghost var n: nat := 0;
    var tick, stop := 0, false;
    while tick < ticks && !stop
      invariant l.curr.plans == l0.curr.plans || fresh(l.curr.plans)
      invariant 0 <= n <= tick <= ticks && Sound(l) && Going(p, facts, l, trace, crooked, n)
      invariant if stop then l.m.iterations == n + 1 else l.m.iterations == n
      invariant p.iterationsLimit > 0 ==> n == 0 || n < p.iterationsLimit
    {
      l, stop, trace, crooked := Pass(p, mode, l, facts, trace, crooked, n);
      if !stop { n := n + 1; }
      tick := tick + 1;
    }
    assert |trace| == n + 1;
  }

  // `ticks` is how often the clock is found to be before the deadline.
  method Solve(given: Problem, mode: Mode, ticks: nat) returns (best: Solution, m: Metrics, ghost trace: seq<Visited>, ghost crooked: nat)
    requires Metric(given.d)
    ensures best.plans.Valid() && trace != []
    ensures RunState(Running(given), mode, Follows(Running(given), mode), trace, crooked,
                     trace[|trace| - 1].plans, best.plans.orders, best.cost)
    ensures m.bestCost == m.finalCost == best.cost
    ensures |trace| <= ticks + 1 && (given.iterationsLimit > 0 ==> |trace| <= given.iterationsLimit)
    ensures |trace| - 1 <= m.iterations <= |trace|
    ensures Books(m, |trace| - 1, m.removal, m.insertion,
                  StartWeights(given.initialRemovalWeights), StartWeights(given.initialInsertionWeights))
  {
    var p := Running(given);
    var seeded := GreedySeed(p);
    var l;
    l, trace := Begin(p, mode, seeded);
    ghost var facts := RunFacts(p, mode, Follows(p, mode));
    RunInductive(p, mode, Follows(p, mode));
    l, trace, crooked := Run(p, mode, ticks, l, facts, trace);
    best := l.best;
    m := l.m.(finalCost := best.cost, removal := l.remW, insertion := l.insW);
  }

  // As intended, or with fewer than two vehicles or four nodes, every run serves the seed's nodes throughout.
  lemma {:induction false} RunConserves(p: Problem, mode: Mode, trace: seq<Visited>, t: nat)
    requires Usable(p) && IsRun(p, Follows(p, mode), trace) && t < |trace|
    requires mode == Intended || Harmless(|p.vehicles|, |p.nodes|)
    ensures Plans(p, trace[t].plans) && Assigned(trace[t].plans) == Assigned(trace[0].plans)
  {
    if t > 0 {
      RunConserves(p, mode, trace, t - 1);
      assert Follows(p, mode)(trace[t - 1].plans, trace[t]);
      var r :| Iterated(p, mode, trace[t - 1].plans, r, trace[t]);
      IterationNodes(p, mode, trace[t - 1].plans, r);
    }
  }

  // While a run keeps its nodes, every iterate pays the seed's penalty for unserved nodes, so the
  // incumbent is also the cheapest by the cost of its routes alone.
  lemma {:induction false} CheapestByRoutes(p: Problem, mode: Mode, link: Link, trace: seq<Visited>, crooked: nat,
                                            curr: seq<Order>, best: seq<Order>, bestCost: real, t: nat)
    requires p.speedKph > 0.0 && RunState(p, mode, link, trace, crooked, curr, best, bestCost) && t < |trace|
    requires mode == Intended || Harmless(|p.vehicles|, |p.nodes|)
    ensures UnservedCost(p, trace[t].plans) == UnservedCost(p, trace[0].plans)
    ensures Plans(p, trace[t].plans) && PlansCost(p, best, |best|) <= PlansCost(p, trace[t].plans, |best|)
  {
    assert Truthful(p, trace[t], bestCost);
    SamePenalty(p, trace, best, bestCost, t);
  }

  lemma {:induction false} SamePenalty(p: Problem, trace: seq<Visited>, best: seq<Order>, bestCost: real, t: nat)
    requires p.speedKph > 0.0 && Plans(p, best) && History(p, trace, best, bestCost) && Conserved(trace) && t < |trace|
    ensures UnservedCost(p, trace[t].plans) == UnservedCost(p, trace[0].plans) == UnservedCost(p, best)
    ensures bestCost == Cost(p, best)
  {
    var s :| 0 <= s < |trace| && trace[s].plans == best && trace[s].cost == bestCost;
    assert Truthful(p, trace[s], bestCost);
    EqualPenalty(p, trace[s].plans, trace[0].plans);
    EqualPenalty(p, trace[t].plans, trace[0].plans);
  }

  lemma EqualPenalty(p: Problem, ps: seq<Order>, qs: seq<Order>)
    requires Assigned(ps) == Assigned(qs)
    ensures UnservedCost(p, ps) == UnservedCost(p, qs)
  {
  }
}
