// When the segment exchange as written loses nodes (internal/opt/alns_engine.go:542-580): never with
// fewer than two vehicles or four nodes, and for any greater numbers on the family of problems below.
module LostNodes {
  import opened Sequences
  import opened Paths
  import opened Problems
  import opened Schedules
  import opened Solutions
  import opened Exchange
  import opened ExchangeSearch

  // ----- too few nodes for a crooked move -----

  lemma PairSize(ps: seq<Order>, a: nat, b: nat)
    requires a < b < |ps|
    ensures |ps[a]| + |ps[b]| <= |Assigned(ps)|
  {
    var none: Order := [];
    AssignedExchange(ps, a, b, none, none);
    var rest := Assigned(ps[a := none][b := none]);
    assert |rest + multiset(ps[a]) + multiset(ps[b])| == |Assigned(ps) + multiset(none) + multiset(none)|;
  }

  lemma CrookedNeedsFour(kind: Kind, mode: Mode, m: Move, pa: Order, pb: Order)
    requires Legal(kind, m, pa, pb) && Crooked(mode, m, pa, pb)
    ensures |pa| + |pb| >= 4
  {
  }

  lemma FewNodesStepStraight(p: Problem, kind: Kind, mode: Mode, was: seq<Order>, st: Step, now: seq<Order>)
    requires p.speedKph > 0.0 && Takes(p, kind, mode, was, st, now) && (|was| < 2 || |Assigned(was)| < 4)
    ensures !Bends(mode, was, st)
  {
    PairSize(was, st.a, st.b);
    if Bends(mode, was, st) { CrookedNeedsFour(kind, mode, st.move, was[st.a], was[st.b]); }
  }

  lemma FewNodesMoveStraight(p: Problem, kind: Kind, mode: Mode, play: Play, was: seq<Order>, now: seq<Order>, k: nat)
    requires Usable(p) && Plans(p, was) && Played(p, kind, mode, play, was, now) && k < |play.steps|
    requires |was| < 2 || |Assigned(was)| < 4
    ensures !Bends(mode, play.visited[k], play.steps[k])
  {
    PlayEffect(p, kind, mode, play, was, now, k);
    assert StepTaken(p, kind, mode, play, k);
    FewNodesStepStraight(p, kind, mode, play.visited[k], play.steps[k], play.visited[k + 1]);
  }

  lemma NoneBends(mode: Mode, play: Play, n: nat)
    requires n <= |play.steps| < |play.visited|
    requires forall k :: 0 <= k < n ==> !Bends(mode, play.visited[k], play.steps[k])
    ensures Bent(mode, play, n) == 0
  {
  }

  lemma FewNodesStayStraight(p: Problem, kind: Kind, mode: Mode, play: Play, was: seq<Order>, now: seq<Order>)
    requires Usable(p) && Plans(p, was) && Played(p, kind, mode, play, was, now)
    requires |was| < 2 || |Assigned(was)| < 4
    ensures CrookedMoves(mode, play) == 0
  {
    forall k | 0 <= k < |play.steps| ensures !Bends(mode, play.visited[k], play.steps[k]) {
      FewNodesMoveStraight(p, kind, mode, play, was, now, k);
    }
    NoneBends(mode, play, |play.steps|);
  }

  // ----- the line problem -----

  // Node 1 stands 100 m from all other nodes, and the depot of vehicle 1 a kilometre behind them.
  function Spot(n: nat, x: Place): real {
    if x == 1 then 100.0 else if x == n then -1000.0 else 0.0
  }

  function Gap(a: real, b: real): real { if a < b then b - a else a - b }

  function LineDistance(n: nat): Distance {
    (x: nat, y: nat) => Gap(Spot(n, x), Spot(n, y))
  }

  // Nodes 0 and 1 can only be assigned to vehicle 0, the others only to vehicle 1. Node 1 closes when
  // vehicle 0 has just reached it from node 0; vehicle 1 cannot be anywhere by then.
  function LineNode(x: nat): Node {
    Node(0, if x == 1 then Some(Window(ZERO_TIME, 100.0)) else None, 0.0, 0.0, if x < 2 then ["a"] else ["b"])
  }

  function LineVehicle(n: nat, v: nat): Vehicle {
    Vehicle(0.0, 0.0, [if v == 0 then "a" else if v == 1 then "b" else "c"], if v == 1 then Some(n) else None)
  }

  function LineProblem(m: nat, n: nat): Problem {
    Problem(seq(n, x requires 0 <= x => LineNode(x)), seq(m, v requires 0 <= v => LineVehicle(n, v)),
            LineDistance(n), 0, 3.6, map[], 0, 0, 0, [], [])
  }

  lemma LineUsable(m: nat, n: nat)
    ensures Usable(LineProblem(m, n))
  {
  }

  // Only nodes other than node 1, which stand together.
  ghost predicate Together(n: nat, o: Order) {
    forall k :: 0 <= k < |o| ==> o[k] < n && o[k] != 1
  }

  lemma TogetherIsShort(n: nat, o: Order)
    requires Together(n, o)
    ensures Length(LineDistance(n), o) == 0.0
  {
  }

  lemma TogetherOnTime(m: nat, n: nat, v: Vehicle, o: Order)
    requires Together(n, o)
    ensures KnownNodes(LineProblem(m, n), o) && Feasible(LineProblem(m, n), v, o)
  {
    var p := LineProblem(m, n);
    NoDeadlineOnTime(p, StartClock(p, v, o), 0.0, o);
  }

  lemma LineStep(m: nat, n: nat, c: Clock, x: nat)
    requires x < n
    ensures var p := LineProblem(m, n);
            && Reach(p, c, x).at == x && Reach(p, c, x).t == c.t + Gap(Spot(n, c.at), Spot(n, x))
            && Serve(p, Reach(p, c, x), x).t == Reach(p, c, x).t && Serve(p, Reach(p, c, x), x).at == x
            && (TooLate(p, x, Reach(p, c, x).t) <==> x == 1 && Reach(p, c, x).t > 100.0)
  {
  }

  lemma Vehicle1MissesNode1(m: nat, n: nat, o: Order)
    requires m >= 2 && n >= 2 && KnownNodes(LineProblem(m, n), o) && 1 in o
    ensures !Feasible(LineProblem(m, n), LineProblem(m, n).vehicles[1], o)
  {
    var p := LineProblem(m, n);
    LineUsable(m, n);
    NeverInTime(p, StartClock(p, p.vehicles[1], o), 0.0, o, 1);
  }

  lemma Vehicle0MakesNode1(m: nat, n: nat)
    requires m >= 2 && n >= 2
    ensures Feasible(LineProblem(m, n), LineProblem(m, n).vehicles[0], [0, 1])
  {
    var p, o := LineProblem(m, n), [0, 1];
    var c := StartClock(p, p.vehicles[0], o);
    LineStep(m, n, c, 0);
    LineStep(m, n, Serve(p, Reach(p, c, 0), 0), 1);
    assert o[1..] == [1] && o[1..][1..] == [];
  }

  // Vehicle 0 has nodes 0 and 1, vehicle 1 two or more of the others.
  ghost predicate OnLine(m: nat, n: nat, ps: seq<Order>) {
    |ps| == m >= 2 && n >= 4 && ps[0] == [0, 1] && |ps[1]| >= 2 && (forall k :: 0 <= k < |ps[1]| ==> 2 <= ps[1][k] < n) &&
    forall i :: 2 <= i < m ==> ps[i] == []
  }

  lemma OnLinePlans(m: nat, n: nat, ps: seq<Order>)
    requires OnLine(m, n, ps)
    ensures Plans(LineProblem(m, n), ps) && AllFeasible(LineProblem(m, n), ps)
  {
    var p := LineProblem(m, n);
    forall i | 0 <= i < m ensures KnownNodes(p, ps[i]) && Feasible(p, p.vehicles[i], ps[i]) {
      if i > 0 { TogetherOnTime(m, n, p.vehicles[i], ps[i]); } else { Vehicle0MakesNode1(m, n); }
    }
  }

  // ----- what the search makes of it -----

  // The crooked move: vehicle 0 gives node 0 for the first two nodes of vehicle 1, and node 1 is gone.
  const CROOKED_STEP := Step(0, 1, Segments(0, 0, 1, 2))

  function LineEnd(ps: seq<Order>): seq<Order>
    requires |ps| >= 2 && |ps[1]| >= 2
  {
    ps[0 := [ps[1][0], ps[1][1], ps[1][1]]][1 := [0] + ps[1][2..]]
  }

  lemma CrookedSplices(pa: Order, q: Order)
    requires pa == [0, 1] && |q| >= 2
    ensures SpliceInPlace(pa, 0, 1, q[0..2]) == [q[0], q[1], q[1]] && SpliceInPlace(q, 0, 2, pa[0..1]) == [0] + q[2..]
  {
  }

  lemma CrookedStepGains(m: nat, n: nat, ps: seq<Order>)
    requires OnLine(m, n, ps)
    ensures Takes(LineProblem(m, n), TwoOptStar, AsWritten, ps, CROOKED_STEP, LineEnd(ps))
  {
    var p, q := LineProblem(m, n), ps[1];
    var ca, cb := [q[0], q[1], q[1]], [0] + q[2..];
    CrookedSplices(ps[0], q);
    TogetherOnTime(m, n, p.vehicles[0], ca);
    TogetherOnTime(m, n, p.vehicles[1], cb);
    TogetherIsShort(n, ca);
    TogetherIsShort(n, cb);
    TogetherIsShort(n, q);
    assert Length(p.d, [0, 1]) == 100.0 by { assert [0, 1][1..] == [1]; }
  }

  // Afterwards every plan has length zero, so no further move gains.
  lemma LineEndOptimal(m: nat, n: nat, ps: seq<Order>)
    requires OnLine(m, n, ps)
    ensures ExchangeOptimal(LineProblem(m, n), TwoOptStar, AsWritten, LineEnd(ps))
  {
    var p, end := LineProblem(m, n), LineEnd(ps);
    LineUsable(m, n);
    forall a, b, mv | 0 <= a < b < |end| ensures !MoveGains(p, TwoOptStar, AsWritten, p.vehicles[a], p.vehicles[b], end[a], end[b], mv) {
      TogetherIsShort(n, end[a]);
      TogetherIsShort(n, end[b]);
      if Legal(TwoOptStar, mv, end[a], end[b]) {
        LengthNonNegative(p.d, FirstAfter(TwoOptStar, AsWritten, mv, end[a], end[b]));
        LengthNonNegative(p.d, SecondAfter(TwoOptStar, AsWritten, mv, end[a], end[b]));
      }
    }
  }

  lemma MovingNode1IsLate(m: nat, n: nat, pa: Order, pb: Order, mv: Move, cb: Order)
    requires m >= 2 && n >= 4 && pa == [0, 1] && Legal(TwoOptStar, mv, pa, pb) && mv.i + mv.la == 2
    requires KnownNodes(LineProblem(m, n), cb) && cb == SecondAfter(TwoOptStar, AsWritten, mv, pa, pb)
    ensures !Feasible(LineProblem(m, n), LineProblem(m, n).vehicles[1], cb)
  {
    assert pa[mv.i..mv.i + mv.la][mv.la - 1] == 1;
    assert cb[mv.j + mv.la - 1] == 1;
    Vehicle1MissesNode1(m, n, cb);
  }

  lemma Beside1IsFar(m: nat, n: nat, pa: Order, pb: Order, j: nat)
    requires pa == [0, 1] && j < |pb| && Together(n, pb) && n >= 2
    ensures SpliceInPlace(pa, 0, 1, pb[j..j + 1]) == [pb[j], 1]
    ensures Length(LineDistance(n), [pb[j], 1]) == Length(LineDistance(n), pa) == 100.0
  {
    assert [pb[j], 1][1..] == [1] && pa[1..] == [1];
  }

  // Moving node 1 makes vehicle 1 late, and with another node beside it vehicle 0 has as far to go.
  lemma OnlyCrookedGain(m: nat, n: nat, ps: seq<Order>, st: Step, now: seq<Order>)
    requires OnLine(m, n, ps) && Takes(LineProblem(m, n), TwoOptStar, AsWritten, ps, st, now)
    ensures Bends(AsWritten, ps, st)
  {
    assert st.a == 0 && st.b == 1;
    GainIsCrooked(m, n, ps[0], ps[1], st.move);
  }

  lemma GainIsCrooked(m: nat, n: nat, pa: Order, pb: Order, mv: Move)
    requires m >= 2 && n >= 4 && pa == [0, 1] && Together(n, pb)
    requires MoveGains(LineProblem(m, n), TwoOptStar, AsWritten, LineProblem(m, n).vehicles[0], LineProblem(m, n).vehicles[1], pa, pb, mv)
    ensures Crooked(AsWritten, mv, pa, pb)
  {
    var cb := SecondAfter(TwoOptStar, AsWritten, mv, pa, pb);
    if mv.i + mv.la == 2 {
      MovingNode1IsLate(m, n, pa, pb, mv, cb);
    } else if mv.lb == 1 {
      LineUsable(m, n);
      LengthNonNegative(LineDistance(n), cb);
      Beside1IsFar(m, n, pa, pb, mv.j);
      TogetherIsShort(n, pb);
    }
  }

  // Whatever the search does on the line problem, it loses a node.
  lemma LineSearchLoses(m: nat, n: nat, ps: seq<Order>, now: seq<Order>, play: Play)
    requires OnLine(m, n, ps) && ExchangeResult(LineProblem(m, n), TwoOptStar, AsWritten, ps, now, play)
    ensures CrookedMoves(AsWritten, play) > 0
  {
    var p := LineProblem(m, n);
    CrookedStepGains(m, n, ps);
    assert PairOptimal(p, TwoOptStar, AsWritten, now, 0, 1);
    if play.steps != [] {
      assert StepTaken(p, TwoOptStar, AsWritten, play, 0);
      OnlyCrookedGain(m, n, ps, play.steps[0], play.visited[1]);
      BentIfAny(AsWritten, play, |play.steps|, 0);
    }
  }

  function LinePlay(ps: seq<Order>): Play
    requires |ps| >= 2 && |ps[1]| >= 2
  {
    Play([ps, LineEnd(ps)], [CROOKED_STEP])
  }

  lemma LineSearchResult(m: nat, n: nat, ps: seq<Order>)
    requires OnLine(m, n, ps)
    ensures ExchangeResult(LineProblem(m, n), TwoOptStar, AsWritten, ps, LineEnd(ps), LinePlay(ps))
  {
    CrookedStepGains(m, n, ps);
    LineEndOptimal(m, n, ps);
  }

  // ----- exactly when the written search keeps the nodes -----

  // Every search over m plans that serve n nodes once each ends with the nodes it began with.
  ghost predicate SearchKeepsNodes(m: nat, n: nat) {
    forall p: Problem, was: seq<Order>, now: seq<Order>, play: Play ::
      Usable(p) && Plans(p, was) && |was| == m && |Assigned(was)| == n && OnceEach(Assigned(was)) ==>
        ExchangeResult(p, TwoOptStar, AsWritten, was, now, play) ==> Assigned(now) == Assigned(was)
  }

  function LineStart(m: nat, n: nat): seq<Order> {
    seq(m, i requires 0 <= i => if i == 0 then [0, 1] else if i == 1 && n >= 2 then seq(n - 2, k requires 0 <= k => k + 2) else [])
  }

  lemma LineStartServes(m: nat, n: nat)
    requires m >= 2 && n >= 4
    ensures OnLine(m, n, LineStart(m, n)) && |Assigned(LineStart(m, n))| == n && OnceEach(Assigned(LineStart(m, n)))
    ensures forall x: nat :: x < n ==> x in Assigned(LineStart(m, n))
  {
    var ps := LineStart(m, n);
    FirstTwoServe(ps);
    EachOnce(ps[0] + ps[1]);
  }

  // As written, the search keeps the nodes of every solution with m plans and n served nodes exactly
  // when it has fewer than two plans or fewer than four nodes.
  lemma WrittenSearchKeepsNodesExactly(m: nat, n: nat)
    ensures SearchKeepsNodes(m, n) <==> m < 2 || n < 4
  {
    if m < 2 || n < 4 {
      forall p: Problem, was: seq<Order>, now: seq<Order>, play: Play
        | Usable(p) && Plans(p, was) && |was| == m && |Assigned(was)| == n && OnceEach(Assigned(was)) &&
          ExchangeResult(p, TwoOptStar, AsWritten, was, now, play)
        ensures Assigned(now) == Assigned(was)
      {
        FewNodesStayStraight(p, TwoOptStar, AsWritten, play, was, now);
        ResultEffect(p, TwoOptStar, AsWritten, was, now, play);
      }
    } else {
      var p, ps := LineProblem(m, n), LineStart(m, n);
      LineStartServes(m, n);
      LineUsable(m, n);
      OnLinePlans(m, n, ps);
      LineSearchResult(m, n, ps);
      LineSearchLoses(m, n, ps, LineEnd(ps), LinePlay(ps));
      ResultEffect(p, TwoOptStar, AsWritten, ps, LineEnd(ps), LinePlay(ps));
    }
  }
}
