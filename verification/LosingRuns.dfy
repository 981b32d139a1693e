// When a run of the optimiser as written can lose nodes (internal/opt/alns_engine.go:75-142): whatever
// seed it begins with, the line problem has an iteration that loses one.
module LosingRuns {
  import opened Sequences
  import opened Paths
  import opened Problems
  import opened Schedules
  import opened Costs
  import opened Solutions
  import opened Destroy
  import opened Insertion
  import opened Repair
  import opened TwoOpt
  import opened Exchange
  import opened ExchangeSearch
  import opened LostNodes
  import opened Seeding
  import opened Search

  // ----- the seeds of the line problem -----

  lemma LineSkills(m: nat, n: nat, v: nat, x: nat)
    requires v < m && x < n
    ensures var p := LineProblem(m, n); HasSkills(p, p.vehicles[v], x) <==> v == if x < 2 then 0 else 1
  {
    var p := LineProblem(m, n);
    var have, need := p.vehicles[v].skills, p.nodes[x].skills;
    assert need[0] in need && have[0] in have;
  }

  lemma LineAssigns(m: nat, n: nat, ps: seq<Order>, x: nat)
    requires m >= 2 && x < n && Plans(LineProblem(m, n), ps) && GoodSeed(LineProblem(m, n), ps)
    ensures x in ps[if x < 2 then 0 else 1]
  {
    var p := LineProblem(m, n);
    var v := if x < 2 then 0 else 1;
    LineSkills(m, n, v, x);
    assert CanAdd(p, p.vehicles[v], ps[v], x);
    assert x in Assigned(ps);
    AssignedMembers(ps, x);
    var i :| 0 <= i < |ps| && x in ps[i];
    var k :| 0 <= k < |ps[i]| && ps[i][k] == x;
    assert Serviceable(p, p.vehicles[i], ps[i]);
    LineSkills(m, n, i, x);
  }

  lemma OthersIdle(m: nat, n: nat, ps: seq<Order>, i: nat)
    requires Plans(LineProblem(m, n), ps) && 2 <= i < m && Serviceable(LineProblem(m, n), LineProblem(m, n).vehicles[i], ps[i])
    ensures ps[i] == []
  {
    if ps[i] != [] { LineSkills(m, n, i, ps[i][0]); }
  }

  // Every good seed gives vehicle 0 exactly nodes 0 and 1, and vehicle 1 the others.
  lemma LineSeeds(m: nat, n: nat, ps: seq<Order>)
    requires m >= 2 && n >= 4 && Plans(LineProblem(m, n), ps) && GoodSeed(LineProblem(m, n), ps)
    ensures Without(ps[0], {0}) == [1] && OnLine(m, n, ps[0 := [0, 1]])
  {
    var p := LineProblem(m, n);
    forall i, k | 0 <= i < m && 0 <= k < |ps[i]| ensures i == if ps[i][k] < 2 then 0 else 1 {
      assert Serviceable(p, p.vehicles[i], ps[i]);
      LineSkills(m, n, i, ps[i][k]);
    }
    LineAssigns(m, n, ps, 0);
    LineAssigns(m, n, ps, 1);
    LineAssigns(m, n, ps, 2);
    LineAssigns(m, n, ps, 3);
    DistinctPair(ps, 0, 1);
    forall i, j | 0 <= i < j < |ps[0]| ensures ps[0][i] != ps[0][j] {
      assert (ps[0] + ps[1])[i] == ps[0][i] && (ps[0] + ps[1])[j] == ps[0][j];
    }
    TwoNodes(ps[0]);
    forall i | 2 <= i < m ensures ps[i] == [] { OthersIdle(m, n, ps, i); }
  }

  lemma TwoNodes(o: Order)
    requires Distinct(o) && 0 in o && 1 in o && forall k :: 0 <= k < |o| ==> o[k] < 2
    ensures Without(o, {0}) == [1]
  {
    if |o| > 2 { Pigeonhole(o, 2); }
    assert o == [0, 1] || o == [1, 0];
    WithoutStep([1], {0});
    WithoutStep([0], {0});
    WithoutStep(o, {0});
    assert o[1..] == [1] || o[1..] == [0];
  }

  // ----- an iteration that takes node 0 out and puts it back in front of node 1 -----

  const FIRST_SLOT := Choice(0, Slot(0, 0))

  lemma LineQuotes(m: nat, n: nat, left: seq<Order>, s: Slot)
    requires m >= 2 && n >= 4 && Plans(LineProblem(m, n), left) && left[0] == [1]
    ensures s in Quotes(LineProblem(m, n), left, 0) ==>
              s.plan == 0 && s.pos <= 1 && Quotes(LineProblem(m, n), left, 0)[s] == 200.0
    ensures s == Slot(0, 0) ==> s in Quotes(LineProblem(m, n), left, 0)
  {
    var p := LineProblem(m, n);
    if s in Quotes(p, left, 0) { LineSkills(m, n, s.plan, 0); }
    if s == Slot(0, 0) {
      assert s in Slots(left);
      LineSkills(m, n, 0, 0);
      assert InsertAt([1], 0, 0) == [0, 1];
      Vehicle0MakesNode1(m, n);
    }
  }

  lemma PutsBack(m: nat, n: nat, left: seq<Order>)
    requires m >= 2 && n >= 4 && Plans(LineProblem(m, n), left) && left[0] == [1]
    ensures InsertStep(Greedy, LineProblem(m, n), Stage(left, [0]), FIRST_SLOT, Stage(left[0 := [0, 1]], []))
  {
    var p := LineProblem(m, n);
    var qs := AllQuotes(p, left, [0]);
    LineQuotes(m, n, left, Slot(0, 0));
    assert qs[0] == Quotes(p, left, 0) && Quoted(qs, FIRST_SLOT);
    forall e | Quoted(qs, e) ensures qs[0][Slot(0, 0)] <= qs[e.node][e.slot] && !Precedes(e, FIRST_SLOT) {
      LineQuotes(m, n, left, e.slot);
    }
    assert InsertAt([1], 0, 0) == [0, 1] && RemoveAt([0], 0) == [];
  }

  lemma LineTwoOptDone(m: nat, n: nat, ps: seq<Order>)
    requires OnLine(m, n, ps) && Plans(LineProblem(m, n), ps)
    ensures TwoOptResult(LineProblem(m, n), ps, ps)
  {
    var p := LineProblem(m, n);
    LineUsable(m, n);
    forall vi, i, k | 0 <= vi < m && 1 <= i < k < |ps[vi]| - 1 ensures NoGain(p, p.vehicles[vi], ps[vi], i, k) {
      var c := ReverseSegment(ps[vi], i, k);
      TogetherIsShort(n, ps[vi]);
      ReverseSegmentMultiset(ps[vi], i, k);
      SameMembersKnown(p, ps[vi], c);
      LengthNonNegative(p.d, c);
    }
  }

  lemma LineSwapsDone(m: nat, n: nat, ps: seq<Order>)
    requires OnLine(m, n, ps) && Plans(LineProblem(m, n), ps)
    ensures ExchangeResult(LineProblem(m, n), Cross, AsWritten, ps, ps, Play([ps], []))
  {
    var p := LineProblem(m, n);
    LineUsable(m, n);
    forall a, b, mv | 0 <= a < b < m ensures !MoveGains(p, Cross, AsWritten, p.vehicles[a], p.vehicles[b], ps[a], ps[b], mv) {
      if Legal(Cross, mv, ps[a], ps[b]) { SwapGainsNothing(m, n, ps, mv); }
    }
  }

  lemma SwapGainsNothing(m: nat, n: nat, ps: seq<Order>, mv: Move)
    requires OnLine(m, n, ps) && Plans(LineProblem(m, n), ps) && Legal(Cross, mv, ps[0], ps[1])
    ensures var p := LineProblem(m, n);
            !MoveGains(p, Cross, AsWritten, p.vehicles[0], p.vehicles[1], ps[0], ps[1], mv)
  {
    var p := LineProblem(m, n);
    var ca, cb := ps[0][mv.i := ps[1][mv.j]], ps[1][mv.j := ps[0][mv.i]];
    LineUsable(m, n);
    LengthNonNegative(p.d, cb);
    TogetherIsShort(n, ps[1]);
    if mv.i == 1 {
      assert cb[mv.j] == 1;
      if KnownNodes(p, cb) { Vehicle1MissesNode1(m, n, cb); }
    } else {
      assert ca == [ps[1][mv.j], 1] && ca[1..] == [1] && ps[0][1..] == [1];
    }
  }

  function LosingTrail(left: seq<Order>, back: seq<Order>): Trail
    requires |back| >= 2 && |back[1]| >= 2
  {
    Trail(AtRandom, 1, [0], Greedy, Fill([Stage(left, [0]), Stage(back, [])], [FIRST_SLOT]), back, back,
          back, Play([back], []), back, LinePlay(back), LineEnd(back))
  }

  lemma LineRepairs(m: nat, n: nat, ps: seq<Order>, back: seq<Order>)
    requires m >= 2 && n >= 4 && Plans(LineProblem(m, n), ps) && GoodSeed(LineProblem(m, n), ps) && back == ps[0 := [0, 1]]
    ensures OnLine(m, n, back) && RepairStages(LineProblem(m, n), AsWritten, ps, LosingTrail(WithoutAll(ps, {0}), back))
  {
    LineSeeds(m, n, ps);
    OnLinePlans(m, n, back);
    LineLeft(m, n, ps, back);
    PicksNode0(m, n, ps);
    LineStages(m, n, ps, WithoutAll(ps, {0}), back);
  }

  lemma LineStages(m: nat, n: nat, ps: seq<Order>, left: seq<Order>, back: seq<Order>)
    requires m >= 2 && n >= 4 && Plans(LineProblem(m, n), ps) && Picked(LineProblem(m, n), ps, AtRandom, 1, [0])
    requires left == WithoutAll(ps, {0}) && Plans(LineProblem(m, n), left) && left[0] == [1]
    requires back == left[0 := [0, 1]] && |back[1]| >= 2 && Plans(LineProblem(m, n), back)
    ensures RepairStages(LineProblem(m, n), AsWritten, ps, LosingTrail(left, back))
  {
    PutsBack(m, n, left);
    InsertsOne(LineProblem(m, n), Stage(left, [0]), FIRST_SLOT, Stage(back, []));
    GreedyStages(LineProblem(m, n), AsWritten, ps, left, LosingTrail(left, back));
  }

  lemma GreedyStages(p: Problem, mode: Mode, was: seq<Order>, left: seq<Order>, r: Trail)
    requires p.speedKph > 0.0 && r.rule == Greedy && 1 <= r.k <= 3 && r.removed == [0] && left == WithoutAll(was, {0})
    requires Picked(p, was, r.how, r.k, r.removed) && Plans(p, was) && Plans(p, r.inserted) && r.repaired == r.inserted
    requires Inserts(r.rule, p, r.fill, Stage(left, r.removed), Stage(r.inserted, []))
    ensures RepairStages(p, mode, was, r)
  {
    assert Elements(r.removed) == {0};
  }

  lemma InsertsOne(p: Problem, was: Stage, c: Choice, now: Stage)
    requires p.speedKph > 0.0 && InsertStep(Greedy, p, was, c, now)
    ensures Inserts(Greedy, p, Fill([was, now], [c]), was, now)
  {
  }

  lemma PicksNode0(m: nat, n: nat, ps: seq<Order>)
    requires m >= 2 && n >= 4 && Plans(LineProblem(m, n), ps) && GoodSeed(LineProblem(m, n), ps)
    ensures Picked(LineProblem(m, n), ps, AtRandom, 1, [0])
  {
    LineAssigns(m, n, ps, 0);
    AssignedMembers(ps, 0);
    assert 0 in NodesOf(ps);
  }

  lemma LineLeft(m: nat, n: nat, ps: seq<Order>, back: seq<Order>)
    requires |ps| == m >= 2 && Plans(LineProblem(m, n), ps) && back == ps[0 := [0, 1]]
    requires Without(ps[0], {0}) == [1] && OnLine(m, n, back)
    ensures var left := WithoutAll(ps, {0}); Plans(LineProblem(m, n), left) && left[0] == [1] && left[0 := [0, 1]] == back
  {
    var left := WithoutAll(ps, {0});
    WithoutAllIndex(ps, {0});
    WithoutAllPlans(LineProblem(m, n), ps, {0});
    forall i | 1 <= i < m ensures left[i] == back[i] { assert back[i] == ps[i]; NothingToRemove(ps[i]); }
  }

  lemma NothingToRemove(o: Order)
    requires forall k :: 0 <= k < |o| ==> o[k] != 0
    ensures Without(o, {0}) == o
  {
  }

  // The iteration from any good seed of the line problem that ends without node 1.
  lemma LineIterates(m: nat, n: nat, ps: seq<Order>, back: seq<Order>)
    requires m >= 2 && n >= 4 && Plans(LineProblem(m, n), ps) && GoodSeed(LineProblem(m, n), ps) && back == ps[0 := [0, 1]]
    ensures OnLine(m, n, back) && Plans(LineProblem(m, n), LineEnd(back))
    ensures Iterated(LineProblem(m, n), AsWritten, ps, LosingTrail(WithoutAll(ps, {0}), back),
                     Visited(LineEnd(back), Cost(LineProblem(m, n), LineEnd(back))))
    ensures CrookedMoves(AsWritten, LinePlay(back)) > 0
  {
    LineRepairs(m, n, ps, back);
    OnLinePlans(m, n, back);
    LineUsable(m, n);
    LineTwoOptDone(m, n, back);
    LineSwapsDone(m, n, back);
    LineSearchResult(m, n, back);
    LineSearchLoses(m, n, back, LineEnd(back), LinePlay(back));
    ResultEffect(LineProblem(m, n), TwoOptStar, AsWritten, back, LineEnd(back), LinePlay(back));
  }

  // ----- whatever else it draws, an iteration that removes and greedily reinserts node 0 loses a node -----

  lemma OnlyFirstSlot(m: nat, n: nat, left: seq<Order>, c: Choice, now: Stage)
    requires m >= 2 && n >= 4 && Plans(LineProblem(m, n), left) && left[0] == [1]
    requires InsertStep(Greedy, LineProblem(m, n), Stage(left, [0]), c, now)
    ensures now == Stage(left[0 := [0, 1]], [])
  {
    var p := LineProblem(m, n);
    var qs := AllQuotes(p, left, [0]);
    LineQuotes(m, n, left, Slot(0, 0));
    assert qs[0] == Quotes(p, left, 0) && Quoted(qs, FIRST_SLOT);
    LineQuotes(m, n, left, c.slot);
    assert c == FIRST_SLOT;
    assert InsertAt([1], 0, 0) == [0, 1] && RemoveAt([0], 0) == [];
  }

  lemma SomeoneWaits(rule: Rule, p: Problem, was: Stage, c: Choice, now: Stage)
    requires p.speedKph > 0.0 && InsertStep(rule, p, was, c, now)
    ensures was.waiting != []
  {
  }

  lemma OneInsertion(m: nat, n: nat, left: seq<Order>, fill: Fill, inserted: seq<Order>)
    requires m >= 2 && n >= 4 && Plans(LineProblem(m, n), left) && left[0] == [1]
    requires Inserts(Greedy, LineProblem(m, n), fill, Stage(left, [0]), Stage(inserted, []))
    ensures inserted == left[0 := [0, 1]]
  {
    var p := LineProblem(m, n);
    assert fill.choices != [];
    assert InsertStep(Greedy, p, fill.stages[0], fill.choices[0], fill.stages[1]);
    if |fill.choices| > 1 { SomeoneWaits(Greedy, p, fill.stages[1], fill.choices[1], fill.stages[2]); }
    OnlyFirstSlot(m, n, left, fill.choices[0], fill.stages[1]);
  }

  lemma TwoOptStaysOnLine(m: nat, n: nat, ps: seq<Order>, qs: seq<Order>)
    requires OnLine(m, n, ps) && Plans(LineProblem(m, n), ps) && TwoOptResult(LineProblem(m, n), ps, qs)
    ensures OnLine(m, n, qs)
  {
    var p := LineProblem(m, n);
    forall i | 0 <= i < m ensures |qs[i]| == |ps[i]| {
      assert Reordered(p, p.vehicles[i], ps[i], qs[i]);
      assert |multiset(qs[i])| == |multiset(ps[i])|;
    }
    assert qs[0] == [0, 1];
    forall k | 0 <= k < |qs[1]| ensures 2 <= qs[1][k] < n {
      assert qs[1][k] in multiset(qs[1]) && qs[1][k] in ps[1];
    }
  }

  lemma NoSwapOnLine(m: nat, n: nat, ps: seq<Order>, now: seq<Order>, play: Play)
    requires OnLine(m, n, ps) && Plans(LineProblem(m, n), ps) && ExchangeResult(LineProblem(m, n), Cross, AsWritten, ps, now, play)
    ensures now == ps
  {
    if play.steps != [] {
      var st := play.steps[0];
      assert StepTaken(LineProblem(m, n), Cross, AsWritten, play, 0);
      assert st.a == 0 && st.b == 1;
      SwapGainsNothing(m, n, ps, st.move);
    }
  }

  lemma NodeComesBack(m: nat, n: nat, ps: seq<Order>, r: Trail)
    requires m >= 2 && n >= 4 && Plans(LineProblem(m, n), ps) && GoodSeed(LineProblem(m, n), ps)
    requires RepairStages(LineProblem(m, n), AsWritten, ps, r) && r.removed == [0] && r.rule == Greedy
    ensures r.repaired == ps[0 := [0, 1]] && OnLine(m, n, r.repaired)
  {
    var left, back := WithoutAll(ps, {0}), ps[0 := [0, 1]];
    LineSeeds(m, n, ps);
    LineLeft(m, n, ps, back);
    assert Elements(r.removed) == {0};
    OneInsertion(m, n, left, r.fill, r.inserted);
  }

  lemma LineIterationLoses(m: nat, n: nat, ps: seq<Order>, r: Trail, now: Visited)
    requires m >= 2 && n >= 4 && Plans(LineProblem(m, n), ps) && GoodSeed(LineProblem(m, n), ps)
    requires Iterated(LineProblem(m, n), AsWritten, ps, r, now) && r.removed == [0] && r.rule == Greedy
    ensures LosesNode(Assigned(ps), Assigned(now.plans))
  {
    NodeComesBack(m, n, ps, r);
    LineSearchesLose(m, n, r.repaired, r);
    LineUsable(m, n);
    CrookedLosesOne(LineProblem(m, n), AsWritten, ps, r, now);
  }

  lemma CrookedLosesOne(p: Problem, mode: Mode, was: seq<Order>, r: Trail, now: Visited)
    requires Usable(p) && Iterated(p, mode, was, r, now) && OnceEach(Assigned(was)) && CrookedMoves(mode, r.exchanges) > 0
    ensures LosesNode(Assigned(was), Assigned(now.plans))
  {
    IterationNodes(p, mode, was, r);
  }

  lemma LineSearchesLose(m: nat, n: nat, back: seq<Order>, r: Trail)
    requires OnLine(m, n, back) && Plans(LineProblem(m, n), back) && r.repaired == back && SearchStages(LineProblem(m, n), AsWritten, r)
    ensures CrookedMoves(AsWritten, r.exchanges) > 0
  {
    TwoOptStaysOnLine(m, n, back, r.reversed);
    NoSwapOnLine(m, n, r.reversed, r.swapped, r.swaps);
    LineSearchLoses(m, n, r.swapped, r.exchanged, r.exchanges);
  }

  // ----- exactly when the runs of the written optimiser keep their nodes -----

  ghost predicate RunsKeepNodes(m: nat, n: nat) {
    forall p: Problem, trace: seq<Visited> :: Usable(p) && |p.vehicles| == m && |p.nodes| == n ==>
      IsRun(p, Follows(p, AsWritten), trace) ==> Conserved(trace)
  }

  // A seed and a solution that follows from it make a run.
  lemma TwoVisits(p: Problem, mode: Mode, ps: seq<Order>, now: Visited)
    requires p.speedKph > 0.0 && Plans(p, ps) && GoodSeed(p, ps) && Follows(p, mode)(ps, now)
    ensures IsRun(p, Follows(p, mode), [Visited(ps, Cost(p, ps)), now])
  {
  }

  lemma LineRunLoses(m: nat, n: nat, ps: seq<Order>)
    requires m >= 2 && n >= 4 && Plans(LineProblem(m, n), ps) && GoodSeed(LineProblem(m, n), ps)
    ensures exists trace: seq<Visited> :: IsRun(LineProblem(m, n), Follows(LineProblem(m, n), AsWritten), trace) &&
                            trace[0].plans == ps && !Conserved(trace)
  {
    var p, back := LineProblem(m, n), ps[0 := [0, 1]];
    LineUsable(m, n);
    LineIterates(m, n, ps, back);
    var r, now := LosingTrail(WithoutAll(ps, {0}), back), Visited(LineEnd(back), Cost(p, LineEnd(back)));
    LineIterationLoses(m, n, ps, r, now);
    assert Follows(p, AsWritten)(ps, now);
    LosingRun(p, AsWritten, ps, now);
  }

  lemma LosingRun(p: Problem, mode: Mode, ps: seq<Order>, now: Visited)
    requires p.speedKph > 0.0 && Plans(p, ps) && GoodSeed(p, ps) && Follows(p, mode)(ps, now)
    requires LosesNode(Assigned(ps), Assigned(now.plans))
    ensures exists trace: seq<Visited> :: IsRun(p, Follows(p, mode), trace) && trace[0].plans == ps && !Conserved(trace)
  {
    TwoVisits(p, mode, ps, now);
    var trace := [Visited(ps, Cost(p, ps)), now];
    assert trace[1] == now && !Conserved(trace);
  }

  // As written, all runs with m vehicles and n nodes serve the seed's nodes throughout exactly when there
  // are fewer than two vehicles or fewer than four nodes.
  lemma WrittenRunsKeepNodesExactly(m: nat, n: nat)
    ensures RunsKeepNodes(m, n) <==> m < 2 || n < 4
  {
    if m < 2 || n < 4 {
      forall p: Problem, trace: seq<Visited>
        | Usable(p) && |p.vehicles| == m && |p.nodes| == n && IsRun(p, Follows(p, AsWritten), trace)
        ensures Conserved(trace)
      {
        forall t | 0 <= t < |trace| ensures Assigned(trace[t].plans) == Assigned(trace[0].plans) {
          RunConserves(p, AsWritten, trace, t);
        }
      }
    } else {
      LineUsable(m, n);
      LineStartGood(m, n);
      LineRunLoses(m, n, LineStart(m, n));
    }
  }

  lemma LineStartGood(m: nat, n: nat)
    requires m >= 2 && n >= 4
    ensures Plans(LineProblem(m, n), LineStart(m, n)) && GoodSeed(LineProblem(m, n), LineStart(m, n))
  {
    var p, ps := LineProblem(m, n), LineStart(m, n);
    LineStartServes(m, n);
    OnLinePlans(m, n, ps);
    forall i, k | 0 <= i < m && 0 <= k < |ps[i]| ensures HasSkills(p, p.vehicles[i], ps[i][k]) {
      LineSkills(m, n, i, ps[i][k]);
    }
  }

  // The crooked move also gives vehicle 0 a node that needs a skill it lacks.
  lemma LineEndBreaksSkills(m: nat, n: nat, ps: seq<Order>)
    requires OnLine(m, n, ps)
    ensures Plans(LineProblem(m, n), LineEnd(ps)) && !Serviceable(LineProblem(m, n), LineProblem(m, n).vehicles[0], LineEnd(ps)[0])
  {
    OnLinePlans(m, n, ps);
    CrookedStepGains(m, n, ps);
    LineUsable(m, n);
    StepEffect(LineProblem(m, n), TwoOptStar, AsWritten, ps, CROOKED_STEP, LineEnd(ps));
    LineSkills(m, n, 0, ps[1][0]);
    assert LineEnd(ps)[0][0] == ps[1][0];
  }
}
