// The search loops of crossExchangeImprove and twoOptStarImprove (internal/opt/alns_engine.go:507-580).
// Within a block (a, b) every candidate is built from the two plans as they were when the block began.
module ExchangeSearch {
  import opened Sequences
  import opened Paths
  import opened Problems
  import opened Slices
  import opened Schedules
  import opened Costs
  import opened Solutions
  import opened Exchange

  // Both new plans are on schedule and together shorter by more than EPSILON.
  ghost predicate Gains(p: Problem, va: Vehicle, vb: Vehicle, pa: Order, pb: Order, ca: Order, cb: Order)
    requires p.speedKph > 0.0
  {
    KnownNodes(p, ca) && KnownNodes(p, cb) && Feasible(p, va, ca) && Feasible(p, vb, cb) &&
    Length(p.d, ca) + Length(p.d, cb) + EPSILON < Length(p.d, pa) + Length(p.d, pb)
  }

  ghost predicate MoveGains(p: Problem, kind: Kind, mode: Mode, va: Vehicle, vb: Vehicle, pa: Order, pb: Order, m: Move)
    requires p.speedKph > 0.0
  {
    Legal(kind, m, pa, pb) && Gains(p, va, vb, pa, pb, FirstAfter(kind, mode, m, pa, pb), SecondAfter(kind, mode, m, pa, pb))
  }

  // A gainful move with the two plans that it makes.
  datatype Kept = Kept(move: Move, ca: Order, cb: Order)

  ghost predicate GainfulKept(p: Problem, kind: Kind, mode: Mode, va: Vehicle, vb: Vehicle, pa: Order, pb: Order, k: Kept)
    requires p.speedKph > 0.0
  {
    MoveGains(p, kind, mode, va, vb, pa, pb, k.move) &&
    k.ca == FirstAfter(kind, mode, k.move, pa, pb) && k.cb == SecondAfter(kind, mode, k.move, pa, pb)
  }

  method Candidates(kind: Kind, mode: Mode, m: Move, pa: Order, pb: Order) returns (ca: Order, cb: Order)
    requires Legal(kind, m, pa, pb)
    ensures ca == FirstAfter(kind, mode, m, pa, pb) && cb == SecondAfter(kind, mode, m, pa, pb)
  {
    match m {
      case Swap(i, j) =>
        ca, cb := pa[i := pb[j]], pb[j := pa[i]];
      case Segments(i, j, la, lb) =>
        var segA, segB := pa[i..i + la], pb[j..j + lb];
        if mode == AsWritten {
          var spareA: nat, spareB: nat := *, *;
          ca := AppendTwice(pa, spareA, i, la, segB);
          cb := AppendTwice(pb, spareB, j, lb, segA);
        } else {
          ca := Splice(pa, i, la, segB);
          cb := Splice(pb, j, lb, segA);
        }
    }
  }

  method TryMove(p: Problem, kind: Kind, mode: Mode, va: Vehicle, vb: Vehicle, pa: Order, pb: Order, m: Move)
    returns (kept: Option<Kept>)
    requires Usable(p) && KnownNodes(p, pa) && KnownNodes(p, pb) && Legal(kind, m, pa, pb)
    ensures kept.Some? <==> MoveGains(p, kind, mode, va, vb, pa, pb, m)
    ensures kept.Some? ==> kept.value.move == m && GainfulKept(p, kind, mode, va, vb, pa, pb, kept.value)
  {
    var ca, cb := Candidates(kind, mode, m, pa, pb);
    MoveKeepsShape(p, kind, mode, m, pa, pb);
    var sa := SchedulePlan(p, va, ca);
    if !sa.feasible { return None; }
    var sb := SchedulePlan(p, vb, cb);
    if !sb.feasible { return None; }
    var la := PathDistanceNodes(p, pa);
    var lb := PathDistanceNodes(p, pb);
    var na := PathDistanceNodes(p, ca);
    var nb := PathDistanceNodes(p, cb);
    if na + nb + 0.000001 < la + lb { return Some(Kept(m, ca, cb)); }
    return None;
  }

  lemma OnlyShortSegments(p: Problem, mode: Mode, va: Vehicle, vb: Vehicle, pa: Order, pb: Order, m: Move)
    requires p.speedKph > 0.0 && m.Segments? && MoveGains(p, TwoOptStar, mode, va, vb, pa, pb, m)
    ensures 1 <= m.la <= 2 && 1 <= m.lb <= 2 && m.i + m.la <= |pa| && m.j + m.lb <= |pb|
  {
  }

  // No exchange of la nodes from i with fewer than n nodes from j gains.
  ghost predicate NoGainBelow(p: Problem, mode: Mode, va: Vehicle, vb: Vehicle, pa: Order, pb: Order, i: nat, j: nat, la: nat, n: nat)
    requires p.speedKph > 0.0
  {
    forall m :: MoveGains(p, TwoOptStar, mode, va, vb, pa, pb, m) ==> !(m.Segments? && m.i == i && m.j == j && m.la == la && m.lb < n)
  }

  lemma BelowStep(p: Problem, mode: Mode, va: Vehicle, vb: Vehicle, pa: Order, pb: Order, i: nat, j: nat, la: nat, n: nat)
    requires p.speedKph > 0.0 && NoGainBelow(p, mode, va, vb, pa, pb, i, j, la, n)
    requires !MoveGains(p, TwoOptStar, mode, va, vb, pa, pb, Segments(i, j, la, n))
    ensures NoGainBelow(p, mode, va, vb, pa, pb, i, j, la, n + 1)
  {
  }

  lemma BelowEnd(p: Problem, mode: Mode, va: Vehicle, vb: Vehicle, pa: Order, pb: Order, i: nat, j: nat, la: nat, n: nat)
    requires p.speedKph > 0.0 && NoGainBelow(p, mode, va, vb, pa, pb, i, j, la, n) && j + n > |pb|
    ensures NoGainBelow(p, mode, va, vb, pa, pb, i, j, la, 3)
  {
  }

  // The exchanges of a segment of length la from i: the last gainful one, if any.
  method TryLengths(p: Problem, mode: Mode, va: Vehicle, vb: Vehicle, pa: Order, pb: Order, i: nat, j: nat, la: nat)
    returns (kept: Option<Kept>)
    requires Usable(p) && KnownNodes(p, pa) && KnownNodes(p, pb) && 1 <= la <= 2 && i + la <= |pa| && j < |pb|
    ensures kept.Some? ==> GainfulKept(p, TwoOptStar, mode, va, vb, pa, pb, kept.value)
    ensures kept.None? ==> NoGainBelow(p, mode, va, vb, pa, pb, i, j, la, 3)
  {
    kept := None;
    var lb := 1;
    while lb <= 2 && j + lb <= |pb|
      invariant 1 <= lb <= 3
      invariant kept.Some? ==> GainfulKept(p, TwoOptStar, mode, va, vb, pa, pb, kept.value)
      invariant kept.None? ==> NoGainBelow(p, mode, va, vb, pa, pb, i, j, la, lb)
    {
      var found := TryMove(p, TwoOptStar, mode, va, vb, pa, pb, Segments(i, j, la, lb));
      if found.Some? {
        kept := found;
      } else if kept.None? {
        BelowStep(p, mode, va, vb, pa, pb, i, j, la, lb);
      }
      lb := lb + 1;
    }
    if kept.None? && lb < 3 { BelowEnd(p, mode, va, vb, pa, pb, i, j, la, lb); }
  }

  // None of the moves that start at nodes i and j gains.
  ghost predicate NoGainAt(p: Problem, kind: Kind, mode: Mode, va: Vehicle, vb: Vehicle, pa: Order, pb: Order, i: nat, j: nat)
    requires p.speedKph > 0.0
  {
    forall m :: MoveGains(p, kind, mode, va, vb, pa, pb, m) ==> !(m.i == i && m.j == j)
  }

  lemma NoSwapNoGain(p: Problem, mode: Mode, va: Vehicle, vb: Vehicle, pa: Order, pb: Order, i: nat, j: nat)
    requires p.speedKph > 0.0 && !MoveGains(p, Cross, mode, va, vb, pa, pb, Swap(i, j))
    ensures NoGainAt(p, Cross, mode, va, vb, pa, pb, i, j)
  {
  }

  lemma NoSegmentsNoGain(p: Problem, mode: Mode, va: Vehicle, vb: Vehicle, pa: Order, pb: Order, i: nat, j: nat, n: nat)
    requires p.speedKph > 0.0 && (n == 3 || i + n > |pa|)
    requires forall la :: 1 <= la < n ==> NoGainBelow(p, mode, va, vb, pa, pb, i, j, la, 3)
    ensures NoGainAt(p, TwoOptStar, mode, va, vb, pa, pb, i, j)
  {
    forall m | MoveGains(p, TwoOptStar, mode, va, vb, pa, pb, m) ensures !(m.i == i && m.j == j) {
      assert m.Segments?;
      OnlyShortSegments(p, mode, va, vb, pa, pb, m);
      if m.la < n { assert NoGainBelow(p, mode, va, vb, pa, pb, i, j, m.la, 3); }
    }
  }

  // All moves that start at i and j: one swap, or up to four segment exchanges.
  method TryAt(p: Problem, kind: Kind, mode: Mode, va: Vehicle, vb: Vehicle, pa: Order, pb: Order, i: nat, j: nat)
    returns (kept: Option<Kept>)
    requires Usable(p) && KnownNodes(p, pa) && KnownNodes(p, pb) && i < |pa| && j < |pb|
    ensures match kept
            case Some(k) => GainfulKept(p, kind, mode, va, vb, pa, pb, k)
            case None => NoGainAt(p, kind, mode, va, vb, pa, pb, i, j)
  {
    if kind == Cross {
      kept := TryMove(p, kind, mode, va, vb, pa, pb, Swap(i, j));
      if kept.None? { NoSwapNoGain(p, mode, va, vb, pa, pb, i, j); }
      return;
    }
    kept := None;
    var la := 1;
    while la <= 2 && i + la <= |pa|
      invariant 1 <= la <= 3
      invariant kept.Some? ==> GainfulKept(p, kind, mode, va, vb, pa, pb, kept.value)
      invariant kept.None? ==> forall la' :: 1 <= la' < la ==> NoGainBelow(p, mode, va, vb, pa, pb, i, j, la', 3)
    {
      var found := TryLengths(p, mode, va, vb, pa, pb, i, j, la);
      if found.Some? { kept := found; }
      la := la + 1;
    }
    if kept.None? { NoSegmentsNoGain(p, mode, va, vb, pa, pb, i, j, la); }
  }

  // The solution in the course of block (a, b): the base, or the base after the last gainful move alone.
  ghost predicate BlockState(p: Problem, kind: Kind, mode: Mode, base: seq<Order>, a: nat, b: nat, now: seq<Order>, last: Option<Kept>)
    requires p.speedKph > 0.0 && |base| == |p.vehicles| && a < b < |base|
  {
    match last
    case None => now == base
    case Some(k) =>
      GainfulKept(p, kind, mode, p.vehicles[a], p.vehicles[b], base[a], base[b], k) && now == base[a := k.ca][b := k.cb]
  }

  // No move between plans a and b gains.
  ghost predicate PairOptimal(p: Problem, kind: Kind, mode: Mode, ps: seq<Order>, a: nat, b: nat)
    requires p.speedKph > 0.0 && |ps| == |p.vehicles| && a < b < |ps|
  {
    forall m :: !MoveGains(p, kind, mode, p.vehicles[a], p.vehicles[b], ps[a], ps[b], m)
  }

  ghost predicate ExchangeOptimal(p: Problem, kind: Kind, mode: Mode, ps: seq<Order>)
    requires p.speedKph > 0.0 && |ps| == |p.vehicles|
  {
    forall a, b :: 0 <= a < b < |ps| ==> PairOptimal(p, kind, mode, ps, a, b)
  }

  ghost predicate NoGainFrom(p: Problem, kind: Kind, mode: Mode, va: Vehicle, vb: Vehicle, pa: Order, pb: Order, i: nat, n: nat)
    requires p.speedKph > 0.0
  {
    forall j: nat :: j < n ==> NoGainAt(p, kind, mode, va, vb, pa, pb, i, j)
  }

  // Whatever the last candidate left in place, plans a and b become the new one's.
  method KeepPair(plans: Fleet, ghost base: seq<Order>, a: nat, b: nat, ca: Order, cb: Order)
    requires plans.Valid() && a < b < |base| == |plans.orders|
    requires forall k :: 0 <= k < |base| && k != a && k != b ==> plans.orders[k] == base[k]
    modifies plans
    ensures plans.Valid() && plans.orders == base[a := ca][b := cb]
  {
    plans.Write(a, ca);
    plans.Write(b, cb);
  }

  // The moves that start at node i of the first plan.
  method ExchangeNode(p: Problem, kind: Kind, mode: Mode, plans: Fleet, ghost base: seq<Order>, a: nat, b: nat,
                      pa: Order, pb: Order, i: nat, ghost last0: Option<Kept>) returns (ghost last: Option<Kept>, improved: bool)
    requires Usable(p) && Plans(p, base) && a < b < |base| && pa == base[a] && pb == base[b] && i < |pa|
    requires plans.Valid() && BlockState(p, kind, mode, base, a, b, plans.orders, last0)
    modifies plans
    ensures plans.Valid()
    ensures BlockState(p, kind, mode, base, a, b, plans.orders, last)
    ensures if improved then last.Some?
            else last == last0 && NoGainFrom(p, kind, mode, p.vehicles[a], p.vehicles[b], pa, pb, i, |pb|)
  {
    last, improved := last0, false;
    for j: nat := 0 to |pb|
      invariant plans.Valid() && BlockState(p, kind, mode, base, a, b, plans.orders, last)
      invariant if improved then last.Some?
                else last == last0 && NoGainFrom(p, kind, mode, p.vehicles[a], p.vehicles[b], pa, pb, i, j)
    {
      var kept := TryAt(p, kind, mode, p.vehicles[a], p.vehicles[b], pa, pb, i, j);
      if kept.Some? {
        KeepPair(plans, base, a, b, kept.value.ca, kept.value.cb);
        last, improved := kept, true;
      }
    }
  }

  lemma AllTried(p: Problem, kind: Kind, mode: Mode, va: Vehicle, vb: Vehicle, pa: Order, pb: Order)
    requires p.speedKph > 0.0
    requires NoGainBefore(p, kind, mode, va, vb, pa, pb, |pa|)
    ensures forall m :: !MoveGains(p, kind, mode, va, vb, pa, pb, m)
  {
    forall m ensures !MoveGains(p, kind, mode, va, vb, pa, pb, m) {
      if m.i < |pa| && m.j < |pb| {
        assert NoGainFrom(p, kind, mode, va, vb, pa, pb, m.i, |pb|);
        assert NoGainAt(p, kind, mode, va, vb, pa, pb, m.i, m.j);
      }
    }
  }

  ghost predicate NoGainBefore(p: Problem, kind: Kind, mode: Mode, va: Vehicle, vb: Vehicle, pa: Order, pb: Order, i: nat)
    requires p.speedKph > 0.0
  {
    forall i': nat :: i' < i ==> NoGainFrom(p, kind, mode, va, vb, pa, pb, i', |pb|)
  }

  lemma NoGainNext(p: Problem, kind: Kind, mode: Mode, va: Vehicle, vb: Vehicle, pa: Order, pb: Order, i: nat)
    requires p.speedKph > 0.0 && NoGainBefore(p, kind, mode, va, vb, pa, pb, i) && NoGainFrom(p, kind, mode, va, vb, pa, pb, i, |pb|)
    ensures NoGainBefore(p, kind, mode, va, vb, pa, pb, i + 1)
  {
  }

  // The moves from every node of the first plan, all built from the stale plans pa and pb.
  method ExchangeNodes(p: Problem, kind: Kind, mode: Mode, plans: Fleet, ghost base: seq<Order>, a: nat, b: nat, pa: Order, pb: Order)
    returns (ghost last: Option<Kept>, improved: bool)
    requires Usable(p) && Plans(p, base) && a < b < |base| && pa == base[a] && pb == base[b]
    requires plans.Valid() && plans.orders == base
    modifies plans
    ensures plans.Valid() && BlockState(p, kind, mode, base, a, b, plans.orders, last)
    ensures if improved then last.Some? else last.None? && NoGainBefore(p, kind, mode, p.vehicles[a], p.vehicles[b], pa, pb, |pa|)
  {
    last, improved := None, false;
    for i: nat := 0 to |pa|
      invariant plans.Valid() && BlockState(p, kind, mode, base, a, b, plans.orders, last)
      invariant if improved then last.Some? else last.None? && NoGainBefore(p, kind, mode, p.vehicles[a], p.vehicles[b], pa, pb, i)
    {
      var found;
      last, found := ExchangeNode(p, kind, mode, plans, base, a, b, pa, pb, i, last);
      improved := improved || found;
      if !improved { NoGainNext(p, kind, mode, p.vehicles[a], p.vehicles[b], pa, pb, i); }
    }
  }

  // One block: the pair left behind is the base pair or a single move away from it.
  method ExchangeBlock(p: Problem, kind: Kind, mode: Mode, plans: Fleet, a: nat, b: nat)
    returns (ghost last: Option<Kept>, improved: bool)
    requires Usable(p) && plans.Valid() && Plans(p, plans.orders) && a < b < |plans.slices|
    modifies plans
    ensures plans.Valid()
    ensures BlockState(p, kind, mode, old(plans.orders), a, b, plans.orders, last)
    ensures improved <==> last.Some?
    ensures !improved ==> PairOptimal(p, kind, mode, plans.orders, a, b)
  {
    var pa, pb := plans.Read(a), plans.Read(b);
    last, improved := ExchangeNodes(p, kind, mode, plans, plans.orders, a, b, pa, pb);
    if !improved { AllTried(p, kind, mode, p.vehicles[a], p.vehicles[b], pa, pb); }
  }

  // ----- the moves that a search keeps -----

  // A move between plans a and b of a solution.
  datatype Step = Step(a: nat, b: nat, move: Move)

  // The move gains, and it turns the solution `was` into `now`.
  ghost predicate Takes(p: Problem, kind: Kind, mode: Mode, was: seq<Order>, st: Step, now: seq<Order>)
    requires p.speedKph > 0.0
  {
    st.a < st.b < |was| == |p.vehicles| &&
    MoveGains(p, kind, mode, p.vehicles[st.a], p.vehicles[st.b], was[st.a], was[st.b], st.move) &&
    now == was[st.a := FirstAfter(kind, mode, st.move, was[st.a], was[st.b])]
              [st.b := SecondAfter(kind, mode, st.move, was[st.a], was[st.b])]
  }

  // The solutions that a search goes through, and the move that leads from each to the next.
  datatype Play = Play(visited: seq<seq<Order>>, steps: seq<Step>)

  ghost predicate Played(p: Problem, kind: Kind, mode: Mode, play: Play, was: seq<Order>, now: seq<Order>)
    requires p.speedKph > 0.0
  {
    |play.visited| == |play.steps| + 1 && play.visited[0] == was && play.visited[|play.steps|] == now &&
    forall k: nat :: k < |play.steps| ==> StepTaken(p, kind, mode, play, k)
  }

  // The k-th move leads from the k-th solution to the next.
  ghost predicate StepTaken(p: Problem, kind: Kind, mode: Mode, play: Play, k: nat)
    requires p.speedKph > 0.0 && k < |play.steps| < |play.visited|
  {
    Takes(p, kind, mode, play.visited[k], play.steps[k], play.visited[k + 1])
  }

  function Extended(play: Play, st: Step, now: seq<Order>): Play {
    Play(play.visited + [now], play.steps + [st])
  }

  ghost predicate Bends(mode: Mode, was: seq<Order>, st: Step) {
    st.a < st.b < |was| && Crooked(mode, st.move, was[st.a], was[st.b])
  }

  // How many of the first n moves are crooked.
  ghost function Bent(mode: Mode, play: Play, n: nat): nat
    requires n <= |play.steps| < |play.visited|
  {
    if n == 0 then 0 else Bent(mode, play, n - 1) + (if Bends(mode, play.visited[n - 1], play.steps[n - 1]) then 1 else 0)
  }

  ghost function CrookedMoves(mode: Mode, play: Play): nat
    requires |play.steps| < |play.visited|
  {
    Bent(mode, play, |play.steps|)
  }

  lemma BentIfAny(mode: Mode, play: Play, n: nat, k: nat)
    requires k < n <= |play.steps| < |play.visited| && Bends(mode, play.visited[k], play.steps[k])
    ensures Bent(mode, play, n) > 0
  {
  }

  lemma PlayedExtends(p: Problem, kind: Kind, mode: Mode, play: Play, was: seq<Order>, mid: seq<Order>, st: Step, now: seq<Order>)
    requires p.speedKph > 0.0 && Played(p, kind, mode, play, was, mid) && Takes(p, kind, mode, mid, st, now)
    ensures Played(p, kind, mode, Extended(play, st, now), was, now)
  {
    var longer := Extended(play, st, now);
    forall k: nat | k < |longer.steps| ensures StepTaken(p, kind, mode, longer, k) {
      if k < |play.steps| { assert StepTaken(p, kind, mode, play, k); }
    }
  }

  // What the moves of a search keep: the shape, the schedules, and, without a crooked move, the nodes.
  ghost predicate Exchanged(p: Problem, was: seq<Order>, now: seq<Order>, crooked: nat)
    requires p.speedKph > 0.0 && Plans(p, was)
  {
    Plans(p, now) && UntouchedOrFeasible(p, was, now) && KeepsNodes(was, now, crooked)
  }

  // The number of nodes stays and no new node appears; without a crooked move all nodes are kept, and
  // with one a node of a solution that served each node once is gone.
  ghost predicate KeepsNodes(was: seq<Order>, now: seq<Order>, crooked: nat) {
    |Assigned(now)| == |Assigned(was)| && NoNewNodes(Assigned(was), Assigned(now)) &&
    (crooked == 0 ==> Assigned(now) == Assigned(was)) &&
    (crooked > 0 && OnceEach(Assigned(was)) ==> LosesNode(Assigned(was), Assigned(now)))
  }

  lemma StepEffect(p: Problem, kind: Kind, mode: Mode, was: seq<Order>, st: Step, now: seq<Order>)
    requires Usable(p) && Plans(p, was) && Takes(p, kind, mode, was, st, now)
    ensures Exchanged(p, was, now, if Bends(mode, was, st) then 1 else 0)
    ensures TotalLength(p.d, now) + EPSILON < TotalLength(p.d, was)
  {
    var pa, pb := was[st.a], was[st.b];
    var ca, cb := FirstAfter(kind, mode, st.move, pa, pb), SecondAfter(kind, mode, st.move, pa, pb);
    PairCounts(p, kind, mode, was, st.a, st.b, st.move);
    PairEffect(p, was, st.a, st.b, ca, cb, now, if Bends(mode, was, st) then 1 else 0);
  }

  lemma PairEffect(p: Problem, base: seq<Order>, a: nat, b: nat, ca: Order, cb: Order, now: seq<Order>, crooked: nat)
    requires Usable(p) && Plans(p, base) && a < b < |base| && now == base[a := ca][b := cb]
    requires Gains(p, p.vehicles[a], p.vehicles[b], base[a], base[b], ca, cb)
    requires KeepsNodes(base, now, crooked)
    ensures Exchanged(p, base, now, crooked)
    ensures TotalLength(p.d, now) + EPSILON < TotalLength(p.d, base)
  {
    TotalLengthUpdate(p.d, base, a, ca);
    TotalLengthUpdate(p.d, base[a := ca], b, cb);
  }

  lemma PairCounts(p: Problem, kind: Kind, mode: Mode, base: seq<Order>, a: nat, b: nat, m: Move)
    requires Plans(p, base) && a < b < |base| && Legal(kind, m, base[a], base[b])
    ensures KeepsNodes(base, base[a := FirstAfter(kind, mode, m, base[a], base[b])][b := SecondAfter(kind, mode, m, base[a], base[b])],
                       if Crooked(mode, m, base[a], base[b]) then 1 else 0)
  {
    var pa, pb := base[a], base[b];
    var ca, cb := FirstAfter(kind, mode, m, pa, pb), SecondAfter(kind, mode, m, pa, pb);
    var now := base[a := ca][b := cb];
    AssignedExchange(base, a, b, ca, cb);
    MoveKeepsShape(p, kind, mode, m, pa, pb);
    var u, w := Assigned(now), Assigned(base);
    assert |u + multiset(pa) + multiset(pb)| == |w + multiset(ca) + multiset(cb)|;
    assert |u| + |pa| + |pb| == |w| + |ca| + |cb|;
    forall x | x in u ensures x in w { PairAddsNothing(kind, mode, base, a, b, m, x); }
    if !Crooked(mode, m, pa, pb) {
      StraightMoveConserves(kind, mode, m, pa, pb);
      assert u + multiset(pa) + multiset(pb) == u + (multiset(pa) + multiset(pb));
      assert w + multiset(ca) + multiset(cb) == w + (multiset(ca) + multiset(cb));
      AddCancel(u, w, multiset(pa) + multiset(pb));
    } else if OnceEach(w) {
      DistinctPair(base, a, b);
      CrookedMoveLoses(kind, mode, m, pa, pb);
      var lost := LostNode(mode, m, pa, pb);
      CountInPair(base, a, b, lost);
      assert (u + multiset(pa) + multiset(pb))[lost] == (w + multiset(ca) + multiset(cb))[lost];
      assert lost in w && lost !in u;
    }
  }

  lemma PairAddsNothing(kind: Kind, mode: Mode, base: seq<Order>, a: nat, b: nat, m: Move, x: nat)
    requires a < b < |base| && Legal(kind, m, base[a], base[b])
    requires x in Assigned(base[a := FirstAfter(kind, mode, m, base[a], base[b])][b := SecondAfter(kind, mode, m, base[a], base[b])])
    ensures x in Assigned(base)
  {
    var now := base[a := FirstAfter(kind, mode, m, base[a], base[b])][b := SecondAfter(kind, mode, m, base[a], base[b])];
    AssignedMembers(now, x);
    AssignedMembers(base, x);
    var i :| 0 <= i < |now| && x in now[i];
    if i == a || i == b {
      MoveAddsNothing(kind, mode, m, base[a], base[b], x);
    } else {
      assert x in base[i];
    }
  }

  // What two plans hold of a node is at most what all plans hold.
  lemma CountInPair(base: seq<Order>, a: nat, b: nat, x: nat)
    requires a < b < |base|
    ensures (multiset(base[a]) + multiset(base[b]))[x] <= Assigned(base)[x]
  {
    var none: Order := [];
    var rest := Assigned(base[a := none][b := none]);
    AssignedExchange(base, a, b, none, none);
    assert rest + multiset(base[a]) + multiset(base[b]) == Assigned(base);
    assert (rest + multiset(base[a]) + multiset(base[b]))[x] == Assigned(base)[x];
  }

  lemma DistinctPair(base: seq<Order>, a: nat, b: nat)
    requires a < b < |base| && OnceEach(Assigned(base))
    ensures Distinct(base[a] + base[b])
  {
    var pair := base[a] + base[b];
    assert multiset(pair) == multiset(base[a]) + multiset(base[b]);
    forall x | x in multiset(pair) ensures multiset(pair)[x] == 1 {
      CountInPair(base, a, b, x);
      assert x in Assigned(base);
    }
    CountsDistinct(pair);
  }

  lemma ExchangedThen(p: Problem, s: seq<Order>, t: seq<Order>, u: seq<Order>, m: nat, n: nat)
    requires p.speedKph > 0.0 && Plans(p, s) && Exchanged(p, s, t, m) && Exchanged(p, t, u, n)
    ensures Exchanged(p, s, u, m + n)
  {
  }

  lemma NextEffect(p: Problem, kind: Kind, mode: Mode, was: seq<Order>, mid: seq<Order>, st: Step, now: seq<Order>, crooked: nat)
    requires Usable(p) && Plans(p, was) && Exchanged(p, was, mid, crooked) && Takes(p, kind, mode, mid, st, now)
    ensures Exchanged(p, was, now, crooked + (if Bends(mode, mid, st) then 1 else 0))
    ensures TotalLength(p.d, now) + EPSILON < TotalLength(p.d, mid)
    ensures kind == Cross || mode == Intended ==> !Bends(mode, mid, st)
  {
    StepEffect(p, kind, mode, mid, st, now);
    StraightKinds(kind, mode, st.move, mid[st.a], mid[st.b]);
    ExchangedThen(p, was, mid, now, crooked, if Bends(mode, mid, st) then 1 else 0);
  }

  // The first n moves together.
  lemma PlayEffect(p: Problem, kind: Kind, mode: Mode, play: Play, was: seq<Order>, now: seq<Order>, n: nat)
    requires Usable(p) && Plans(p, was) && Played(p, kind, mode, play, was, now) && n <= |play.steps|
    ensures Exchanged(p, was, play.visited[n], Bent(mode, play, n))
    ensures kind == Cross || mode == Intended ==> Bent(mode, play, n) == 0
  {
    var good := (k: nat) => k <= |play.steps| && EffectUpTo(p, kind, mode, play, was, k);
    ExchangedNothing(p, was);
    forall k: nat | k < n && good(k) ensures good(k + 1) { PlayEffectStep(p, kind, mode, play, was, now, k); }
    Climb(good, n);
  }

  // What the first n moves have kept.
  ghost predicate EffectUpTo(p: Problem, kind: Kind, mode: Mode, play: Play, was: seq<Order>, n: nat)
    requires p.speedKph > 0.0 && Plans(p, was) && n <= |play.steps| < |play.visited|
  {
    Exchanged(p, was, play.visited[n], Bent(mode, play, n)) && (kind == Cross || mode == Intended ==> Bent(mode, play, n) == 0)
  }

  lemma {:induction false} PlayEffectStep(p: Problem, kind: Kind, mode: Mode, play: Play, was: seq<Order>, now: seq<Order>, n: nat)
    requires Usable(p) && Plans(p, was) && Played(p, kind, mode, play, was, now) && n < |play.steps|
    requires EffectUpTo(p, kind, mode, play, was, n)
    ensures EffectUpTo(p, kind, mode, play, was, n + 1)
  {
    assert StepTaken(p, kind, mode, play, n);
    NextEffect(p, kind, mode, was, play.visited[n], play.steps[n], play.visited[n + 1], Bent(mode, play, n));
  }

  lemma ExchangedNothing(p: Problem, was: seq<Order>)
    requires p.speedKph > 0.0 && Plans(p, was)
    ensures Exchanged(p, was, was, 0)
  {
  }

  lemma MoveShortens(p: Problem, kind: Kind, mode: Mode, play: Play, was: seq<Order>, now: seq<Order>, n: nat)
    requires Usable(p) && Plans(p, was) && Played(p, kind, mode, play, was, now) && n < |play.steps|
    ensures TotalLength(p.d, play.visited[n + 1]) + EPSILON < TotalLength(p.d, play.visited[n])
  {
    PlayEffect(p, kind, mode, play, was, now, n);
    assert StepTaken(p, kind, mode, play, n);
    StepEffect(p, kind, mode, play.visited[n], play.steps[n], play.visited[n + 1]);
  }

  lemma {:induction false} Descends(lengths: seq<real>, k: nat, n: nat)
    requires k < n < |lengths| && forall i :: 0 <= i < |lengths| - 1 ==> lengths[i + 1] + EPSILON < lengths[i]
    ensures lengths[n] + EPSILON < lengths[k]
  {
    if k < n - 1 { Descends(lengths, k, n - 1); }
  }

  // Every move shortens the solution.
  lemma PlayShortens(p: Problem, kind: Kind, mode: Mode, play: Play, was: seq<Order>, now: seq<Order>, k: nat, n: nat)
    requires Usable(p) && Plans(p, was) && Played(p, kind, mode, play, was, now) && k <= n <= |play.steps|
    ensures k < n ==> TotalLength(p.d, play.visited[n]) + EPSILON < TotalLength(p.d, play.visited[k])
  {
    var lengths := seq(|play.visited|, i requires 0 <= i < |play.visited| => TotalLength(p.d, play.visited[i]));
    forall i | 0 <= i < |lengths| - 1 ensures lengths[i + 1] + EPSILON < lengths[i] {
      MoveShortens(p, kind, mode, play, was, now, i);
    }
    if k < n { Descends(lengths, k, n); }
  }

  lemma StraightKinds(kind: Kind, mode: Mode, m: Move, pa: Order, pb: Order)
    ensures (kind == Cross && Legal(kind, m, pa, pb)) || mode == Intended ==> !Crooked(mode, m, pa, pb)
  {
  }

  // A pass before the pair (a, b): it has made moves since the first n, or all earlier pairs are optimal.
  ghost predicate PassState(p: Problem, kind: Kind, mode: Mode, was: seq<Order>, play: Play, n: nat,
                            base: seq<Order>, now: seq<Order>, improved: bool, a: nat, b: nat)
    requires p.speedKph > 0.0
  {
    |now| == |p.vehicles| && Played(p, kind, mode, play, was, now) && n <= |play.steps| && play.visited[n] == base &&
    (improved <==> n < |play.steps|) &&
    (!improved ==> forall x, y :: 0 <= x < y < |now| && (x < a || (x == a && y < b)) ==> PairOptimal(p, kind, mode, now, x, y))
  }

  function AfterBlock(play: Play, a: nat, b: nat, last: Option<Kept>, now: seq<Order>): Play {
    if last.Some? then Extended(play, Step(a, b, last.value.move), now) else play
  }

  lemma PassStep(p: Problem, kind: Kind, mode: Mode, was: seq<Order>, play: Play, n: nat,
                 base: seq<Order>, mid: seq<Order>, now: seq<Order>,
                 improved: bool, a: nat, b: nat, last: Option<Kept>)
    requires p.speedKph > 0.0 && a < b < |mid|
    requires PassState(p, kind, mode, was, play, n, base, mid, improved, a, b)
    requires BlockState(p, kind, mode, mid, a, b, now, last)
    requires last.None? ==> PairOptimal(p, kind, mode, now, a, b)
    ensures PassState(p, kind, mode, was, AfterBlock(play, a, b, last, now), n, base, now, improved || last.Some?, a, b + 1)
  {
    if last.Some? {
      PlayedExtends(p, kind, mode, play, was, mid, Step(a, b, last.value.move), now);
    } else if !improved {
      forall x, y | 0 <= x < y < |now| && (x < a || (x == a && y < b + 1)) ensures PairOptimal(p, kind, mode, now, x, y) {
        if x == a && y == b { assert PairOptimal(p, kind, mode, now, a, b); }
      }
    }
  }

  method ExchangeRow(p: Problem, kind: Kind, mode: Mode, plans: Fleet, ghost was: seq<Order>, ghost play0: Play, ghost n: nat,
                     ghost base: seq<Order>, a: nat, improved0: bool) returns (improved: bool, ghost play: Play)
    requires Usable(p) && plans.Valid() && Plans(p, was) && a < |plans.orders|
    requires PassState(p, kind, mode, was, play0, n, base, plans.orders, improved0, a, 0)
    modifies plans
    ensures plans.Valid() && PassState(p, kind, mode, was, play, n, base, plans.orders, improved, a + 1, 0)
  {
    improved, play := improved0, play0;
    for b: nat := a + 1 to |plans.slices|
      invariant plans.Valid() && PassState(p, kind, mode, was, play, n, base, plans.orders, improved, a, b)
    {
      ghost var mid, last := plans.orders, None;
      PlayEffect(p, kind, mode, play, was, mid, |play.steps|);
      var found;
      last, found := ExchangeBlock(p, kind, mode, plans, a, b);
      PassStep(p, kind, mode, was, play, n, base, mid, plans.orders, improved, a, b, last);
      play := AfterBlock(play, a, b, last, plans.orders);
      improved := improved || found;
    }
  }

  // One pass over all pairs continues the play, or finds that no move gains.
  method ExchangePass(p: Problem, kind: Kind, mode: Mode, plans: Fleet, ghost was: seq<Order>, ghost play0: Play)
    returns (improved: bool, ghost play: Play)
    requires Usable(p) && plans.Valid() && Plans(p, was) && Plans(p, plans.orders) && Played(p, kind, mode, play0, was, plans.orders)
    modifies plans
    ensures plans.Valid() && Plans(p, plans.orders) && Played(p, kind, mode, play, was, plans.orders)
    ensures if improved then TotalLength(p.d, plans.orders) + EPSILON < TotalLength(p.d, old(plans.orders))
            else plans.orders == old(plans.orders) && ExchangeOptimal(p, kind, mode, plans.orders)
  {
    ghost var n, base := |play0.steps|, plans.orders;
    improved, play := false, play0;
    for a: nat := 0 to |plans.slices|
      invariant plans.Valid() && PassState(p, kind, mode, was, play, n, base, plans.orders, improved, a, 0)
    {
      improved, play := ExchangeRow(p, kind, mode, plans, was, play, n, base, a, improved);
    }
    PlayEffect(p, kind, mode, play, was, plans.orders, |play.steps|);
    PlayShortens(p, kind, mode, play, was, plans.orders, n, |play.steps|);
  }

  // What a whole exchange search leaves behind: a play that ends where no move gains.
  ghost predicate ExchangeResult(p: Problem, kind: Kind, mode: Mode, was: seq<Order>, now: seq<Order>, play: Play)
    requires p.speedKph > 0.0
  {
    |now| == |p.vehicles| && Played(p, kind, mode, play, was, now) && ExchangeOptimal(p, kind, mode, now)
  }

  lemma ResultEffect(p: Problem, kind: Kind, mode: Mode, was: seq<Order>, now: seq<Order>, play: Play)
    requires Usable(p) && Plans(p, was) && ExchangeResult(p, kind, mode, was, now, play)
    ensures Exchanged(p, was, now, CrookedMoves(mode, play)) && TotalLength(p.d, now) <= TotalLength(p.d, was)
    ensures kind == Cross || mode == Intended ==> CrookedMoves(mode, play) == 0
    ensures AllFeasible(p, was) ==> AllFeasible(p, now)
  {
    PlayEffect(p, kind, mode, play, was, now, |play.steps|);
    PlayShortens(p, kind, mode, play, was, now, 0, |play.steps|);
  }

  method ExchangeImprove(p: Problem, kind: Kind, mode: Mode, sol: Solution) returns (out: Solution, ghost play: Play)
    requires Usable(p) && sol.plans.Valid() && Plans(p, sol.plans.orders)
    modifies sol.plans
    ensures out.plans == sol.plans && out.plans.Valid() && Plans(p, out.plans.orders)
    ensures ExchangeResult(p, kind, mode, old(sol.plans.orders), out.plans.orders, play)
    ensures out.cost == if |out.plans.orders| < 2 then sol.cost else Cost(p, out.plans.orders)
  {
    var plans := sol.plans;
    ghost var start := plans.orders;
    play := Play([start], []);
    if |plans.slices| < 2 { return sol, play; }
    var improved := true;
    TotalLengthNonNegative(p.d, start);
    while improved
      invariant plans.Valid() && Plans(p, plans.orders) && Played(p, kind, mode, play, start, plans.orders)
      invariant 0.0 <= TotalLength(p.d, plans.orders)
      invariant !improved ==> ExchangeOptimal(p, kind, mode, plans.orders)
      decreases Falls(TotalLength(p.d, plans.orders)), improved
    {
      ghost var was := plans.orders;
      improved, play := ExchangePass(p, kind, mode, plans, start, play);
      TotalLengthNonNegative(p.d, plans.orders);
      if improved { FallsDecrease(TotalLength(p.d, plans.orders), TotalLength(p.d, was)); }
    }
    var c := CostOf(p, plans.ReadAll());
    out := Solution(plans, c);
  }

  // Every inter-route swap of two nodes has been made, is off schedule, or saves at most EPSILON.
  method CrossExchangeImprove(p: Problem, sol: Solution) returns (out: Solution, ghost play: Play)
    requires Usable(p) && sol.plans.Valid() && Plans(p, sol.plans.orders)
    modifies sol.plans
    ensures out.plans == sol.plans && out.plans.Valid()
    ensures ExchangeResult(p, Cross, AsWritten, old(sol.plans.orders), out.plans.orders, play)
    ensures Exchanged(p, old(sol.plans.orders), out.plans.orders, 0)
    ensures TotalLength(p.d, out.plans.orders) <= TotalLength(p.d, old(sol.plans.orders))
    ensures AllFeasible(p, old(sol.plans.orders)) ==> AllFeasible(p, out.plans.orders)
    ensures out.cost == if |out.plans.orders| < 2 then sol.cost else Cost(p, out.plans.orders)
  {
    ghost var was := sol.plans.orders;
    out, play := ExchangeImprove(p, Cross, AsWritten, sol);
    ResultEffect(p, Cross, AsWritten, was, out.plans.orders, play);
  }

  // Without a crooked move among those kept, all nodes are kept, and with one a node is lost.
  method TwoOptStarImprove(p: Problem, mode: Mode, sol: Solution) returns (out: Solution, ghost play: Play)
    requires Usable(p) && sol.plans.Valid() && Plans(p, sol.plans.orders)
    modifies sol.plans
    ensures out.plans == sol.plans && out.plans.Valid()
    ensures ExchangeResult(p, TwoOptStar, mode, old(sol.plans.orders), out.plans.orders, play)
    ensures Exchanged(p, old(sol.plans.orders), out.plans.orders, CrookedMoves(mode, play))
    ensures mode == Intended ==> CrookedMoves(mode, play) == 0
    ensures TotalLength(p.d, out.plans.orders) <= TotalLength(p.d, old(sol.plans.orders))
    ensures AllFeasible(p, old(sol.plans.orders)) ==> AllFeasible(p, out.plans.orders)
    ensures out.cost == if |out.plans.orders| < 2 then sol.cost else Cost(p, out.plans.orders)
  {
    ghost var was := sol.plans.orders;
    out, play := ExchangeImprove(p, TwoOptStar, mode, sol);
    ResultEffect(p, TwoOptStar, mode, was, out.plans.orders, play);
  }
}
