// The repair half of an iteration: greedy and regret-2 insertion (internal/opt/alns_engine.go:203-290).
module Repair {
  import opened Sequences
  import opened Problems
  import opened Slices
  import opened Insertion
  import opened Solutions

  // A place in the plans where a node can be put.
  datatype Slot = Slot(plan: nat, pos: nat)

  // A node of the waiting list (by its index there) and the slot it goes to.
  datatype Choice = Choice(node: nat, slot: Slot)

  ghost function Slots(ps: seq<Order>): set<Slot> {
    set i, j | 0 <= i < |ps| && 0 <= j <= |ps[i]| :: Slot(i, j)
  }

  // The estimated cost of every feasible insertion of x.
  ghost function Quotes(p: Problem, ps: seq<Order>, x: nat): map<Slot, real>
    requires p.speedKph > 0.0 && Plans(p, ps) && x < |p.nodes|
  {
    map s | s in Slots(ps) && FitsAt(p, p.vehicles[s.plan], ps[s.plan], x, s.pos)
      :: InsertionCost(p, p.vehicles[s.plan], ps[s.plan], x, s.pos)
  }

  ghost function AllQuotes(p: Problem, ps: seq<Order>, nodes: seq<nat>): (qs: seq<map<Slot, real>>)
    requires p.speedKph > 0.0 && Plans(p, ps) && KnownNodes(p, nodes)
  {
    seq(|nodes|, n requires 0 <= n < |nodes| => Quotes(p, ps, nodes[n]))
  }

  method Quote(p: Problem, ps: seq<Order>, x: nat, s: Slot) returns (c: Option<real>)
    requires p.speedKph > 0.0 && Plans(p, ps) && x < |p.nodes| && s.plan < |ps| && s.pos <= |ps[s.plan]|
    ensures c.Some? <==> s in Quotes(p, ps, x)
    ensures c.Some? ==> c.value == Quotes(p, ps, x)[s]
  {
    assert s in Slots(ps);
    var fits := FeasibleAddAt(p, p.vehicles[s.plan], ps[s.plan], x, s.pos);
    if !fits { return None; }
    return Some(InsertionCost(p, p.vehicles[s.plan], ps[s.plan], x, s.pos));
  }

  predicate Before(s: Slot, t: Slot) {
    s.plan < t.plan || (s.plan == t.plan && s.pos < t.pos)
  }

  // ----- greedy: the cheapest insertion over all waiting nodes and all slots -----

  ghost predicate Quoted(qs: seq<map<Slot, real>>, c: Choice) {
    c.node < |qs| && c.slot in qs[c.node]
  }

  predicate Precedes(c: Choice, e: Choice) {
    c.node < e.node || (c.node == e.node && Before(c.slot, e.slot))
  }

  // The cheapest choice; among equally cheap ones the first in the order node, plan, position.
  ghost predicate CheapestOverall(qs: seq<map<Slot, real>>, c: Choice) {
    Quoted(qs, c) && forall e :: Quoted(qs, e) ==>
      qs[c.node][c.slot] <= qs[e.node][e.slot] && (Precedes(e, c) ==> qs[c.node][c.slot] < qs[e.node][e.slot])
  }

  // The same among the choices that come before `now`.
  ghost predicate CheapestSoFar(qs: seq<map<Slot, real>>, best: Option<Choice>, now: Choice) {
    match best
    case None => forall e :: Quoted(qs, e) ==> !Precedes(e, now)
    case Some(c) => Quoted(qs, c) && Precedes(c, now) && forall e :: Quoted(qs, e) && Precedes(e, now) ==>
      qs[c.node][c.slot] <= qs[e.node][e.slot] && (Precedes(e, c) ==> qs[c.node][c.slot] < qs[e.node][e.slot])
  }

  ghost predicate QuotesInPlans(ps: seq<Order>, qs: seq<map<Slot, real>>) {
    forall n, s :: 0 <= n < |qs| && s in qs[n] ==> s.plan < |ps| && s.pos <= |ps[s.plan]|
  }

  lemma CheapestAdvance(ps: seq<Order>, qs: seq<map<Slot, real>>, best: Option<Choice>, now: Choice, next: Choice)
    requires QuotesInPlans(ps, qs) && CheapestSoFar(qs, best, now) && Precedes(now, next)
    requires forall e :: Quoted(qs, e) && Precedes(e, next) ==> Precedes(e, now)
    ensures CheapestSoFar(qs, best, next)
  {
  }

  // Looking at one more slot keeps the cheapest choice so far.
  lemma CheapestVisit(qs: seq<map<Slot, real>>, was: Option<Choice>, now: Choice, next: Choice, best: Option<Choice>)
    requires CheapestSoFar(qs, was, now) && next == now.(slot := now.slot.(pos := now.slot.pos + 1))
    requires best == if Quoted(qs, now) && (was.None? || qs[now.node][now.slot] < qs[was.value.node][was.value.slot])
                     then Some(now) else was
    ensures CheapestSoFar(qs, best, next)
  {
  }

  ghost predicate Priced(qs: seq<map<Slot, real>>, best: Option<Choice>, cost: real) {
    best.Some? ==> Quoted(qs, best.value) && cost == qs[best.value.node][best.value.slot]
  }

  // The positions of plan vi, for waiting node ni.
  method ScanPlan(p: Problem, ps: seq<Order>, x: nat, ghost qs: seq<map<Slot, real>>, ni: nat, vi: nat,
                  best0: Option<Choice>, cost0: real) returns (best: Option<Choice>, bestCost: real)
    requires p.speedKph > 0.0 && Plans(p, ps) && x < |p.nodes| && vi < |ps|
    requires ni < |qs| && qs[ni] == Quotes(p, ps, x)
    requires CheapestSoFar(qs, best0, Choice(ni, Slot(vi, 0))) && Priced(qs, best0, cost0)
    ensures CheapestSoFar(qs, best, Choice(ni, Slot(vi, |ps[vi]| + 1))) && Priced(qs, best, bestCost)
  {
    best, bestCost := best0, cost0;
    var pos: nat := 0;
    while pos <= |ps[vi]|
      invariant pos <= |ps[vi]| + 1
      invariant CheapestSoFar(qs, best, Choice(ni, Slot(vi, pos))) && Priced(qs, best, bestCost)
    {
      var now := Choice(ni, Slot(vi, pos));
      ghost var was := best;
      var c := Quote(p, ps, x, now.slot);
      assert c.Some? <==> Quoted(qs, now);
      if c.Some? && (best.None? || c.value < bestCost) {
        bestCost := c.value;
        best := Some(now);
      }
      CheapestVisit(qs, was, now, Choice(ni, Slot(vi, pos + 1)), best);
      pos := pos + 1;
    }
  }

  // All plans, for waiting node ni.
  method ScanPlans(p: Problem, ps: seq<Order>, x: nat, ghost qs: seq<map<Slot, real>>, ni: nat,
                   best0: Option<Choice>, cost0: real) returns (best: Option<Choice>, bestCost: real)
    requires p.speedKph > 0.0 && Plans(p, ps) && x < |p.nodes|
    requires ni < |qs| && qs[ni] == Quotes(p, ps, x) && QuotesInPlans(ps, qs)
    requires CheapestSoFar(qs, best0, Choice(ni, Slot(0, 0))) && Priced(qs, best0, cost0)
    ensures CheapestSoFar(qs, best, Choice(ni + 1, Slot(0, 0))) && Priced(qs, best, bestCost)
  {
    best, bestCost := best0, cost0;
    for vi: nat := 0 to |ps|
      invariant CheapestSoFar(qs, best, Choice(ni, Slot(vi, 0))) && Priced(qs, best, bestCost)
    {
      best, bestCost := ScanPlan(p, ps, x, qs, ni, vi, best, bestCost);
      CheapestAdvance(ps, qs, best, Choice(ni, Slot(vi, |ps[vi]| + 1)), Choice(ni, Slot(vi + 1, 0)));
    }
    CheapestAdvance(ps, qs, best, Choice(ni, Slot(|ps|, 0)), Choice(ni + 1, Slot(0, 0)));
  }

  lemma AllQuotesInPlans(p: Problem, ps: seq<Order>, nodes: seq<nat>)
    requires p.speedKph > 0.0 && Plans(p, ps) && KnownNodes(p, nodes)
    ensures QuotesInPlans(ps, AllQuotes(p, ps, nodes))
  {
  }

  ghost predicate NothingFits(qs: seq<map<Slot, real>>) {
    forall n :: 0 <= n < |qs| ==> qs[n] == map[]
  }

  lemma ScanComplete(qs: seq<map<Slot, real>>, best: Option<Choice>)
    requires CheapestSoFar(qs, best, Choice(|qs|, Slot(0, 0)))
    ensures match best case None => NothingFits(qs) case Some(c) => CheapestOverall(qs, c)
  {
    assert forall e :: Quoted(qs, e) ==> Precedes(e, Choice(|qs|, Slot(0, 0)));
    if best.None? {
      forall n | 0 <= n < |qs| ensures qs[n] == map[] {
        if s :| s in qs[n] { assert Quoted(qs, Choice(n, s)); }
      }
    }
  }

  method GreedyChoice(p: Problem, ps: seq<Order>, nodes: seq<nat>) returns (best: Option<Choice>)
    requires p.speedKph > 0.0 && Plans(p, ps) && KnownNodes(p, nodes)
    ensures match best
            case None => NothingFits(AllQuotes(p, ps, nodes))
            case Some(c) => CheapestOverall(AllQuotes(p, ps, nodes), c)
  {
    ghost var qs := AllQuotes(p, ps, nodes);
    AllQuotesInPlans(p, ps, nodes);
    best := None;
    var bestCost := 0.0;
    for ni: nat := 0 to |nodes|
      invariant CheapestSoFar(qs, best, Choice(ni, Slot(0, 0))) && Priced(qs, best, bestCost)
    {
      best, bestCost := ScanPlans(p, ps, nodes[ni], qs, ni, best, bestCost);
    }
    ScanComplete(qs, best);
  }

  // ----- regret: the node that would lose most by not getting its best slot -----

  // The cheapest slot of one node; among equally cheap ones the first.
  ghost predicate Cheapest(q: map<Slot, real>, s: Slot) {
    s in q && forall t :: t in q ==> q[s] <= q[t] && (Before(t, s) ==> q[s] < q[t])
  }

  // The cheapest cost once slot s is set aside; None (the largest float) when s is the only slot.
  ghost predicate RunnerUp(q: map<Slot, real>, s: Slot, second: Option<real>) {
    match second
    case None => forall t :: t in q ==> t == s
    case Some(c) => (exists t :: t in q && t != s && q[t] == c) && forall t :: t in q && t != s ==> c <= q[t]
  }

  // What is known of one node's slots: its best slot and its two least costs.
  datatype Ranking = Unplaceable | Ranked(slot: Slot, best: real, second: Option<real>)

  ghost predicate RanksQuotes(q: map<Slot, real>, r: Ranking) {
    match r
    case Unplaceable => q == map[]
    case Ranked(s, best, second) => Cheapest(q, s) && best == q[s] && RunnerUp(q, s, second)
  }

  // The quotes of the slots before `now`.
  ghost function Seen(q: map<Slot, real>, now: Slot): map<Slot, real> {
    map s | s in q && Before(s, now) :: q[s]
  }

  // A quote shifts best and second best exactly as the two comparisons of the scan do.
  function Rank(r: Ranking, s: Slot, c: real): Ranking {
    match r
    case Unplaceable => Ranked(s, c, None)
    case Ranked(_, best, second) =>
      if c < best then Ranked(s, c, Some(best))
      else if second.None? || c < second.value then r.(second := Some(c))
      else r
  }

  lemma RankVisit(q: map<Slot, real>, r: Ranking, now: Slot, next: Slot)
    requires RanksQuotes(Seen(q, now), r) && next == now.(pos := now.pos + 1)
    ensures RanksQuotes(Seen(q, next), if now in q then Rank(r, now, q[now]) else r)
  {
    var a, b := Seen(q, now), Seen(q, next);
    if now in q {
      assert b == a[now := q[now]] && now !in a;
      match r
      case Unplaceable =>
      case Ranked(s, best, second) =>
        assert s in a && b[s] == a[s];
        if q[now] < best {
          assert s != now && b[s] == best;
        } else if second.None? || q[now] < second.value {
          assert now != s && b[now] == q[now];
        } else {
          var t :| t in a && t != s && a[t] == second.value;
          assert t in b && b[t] == second.value;
        }
    } else {
      assert b == a;
    }
  }

  lemma RankQuoted(q: map<Slot, real>, r: Ranking, now: Slot, next: Slot, c: Option<real>, r': Ranking)
    requires RanksQuotes(Seen(q, now), r) && next == now.(pos := now.pos + 1)
    requires (c.Some? <==> now in q) && (c.Some? ==> c.value == q[now])
    requires r' == if c.Some? then Rank(r, now, c.value) else r
    ensures RanksQuotes(Seen(q, next), r')
  {
    RankVisit(q, r, now, next);
  }

  lemma QuotesInSlots(p: Problem, ps: seq<Order>, x: nat)
    requires p.speedKph > 0.0 && Plans(p, ps) && x < |p.nodes|
    ensures InPlans(ps, Quotes(p, ps, x))
  {
  }

  ghost predicate InPlans(ps: seq<Order>, q: map<Slot, real>) {
    forall s :: s in q ==> s.plan < |ps| && s.pos <= |ps[s.plan]|
  }

  lemma SeenWholePlan(ps: seq<Order>, q: map<Slot, real>, vi: nat)
    requires InPlans(ps, q) && vi < |ps|
    ensures Seen(q, Slot(vi, |ps[vi]| + 1)) == Seen(q, Slot(vi + 1, 0))
  {
  }

  lemma SeenEnds(ps: seq<Order>, q: map<Slot, real>)
    requires InPlans(ps, q)
    ensures Seen(q, Slot(0, 0)) == map[] && Seen(q, Slot(|ps|, 0)) == q
  {
  }

  method RankSlots(p: Problem, ps: seq<Order>, x: nat) returns (r: Ranking)
    requires p.speedKph > 0.0 && Plans(p, ps) && x < |p.nodes|
    ensures RanksQuotes(Quotes(p, ps, x), r)
  {
    ghost var q := Quotes(p, ps, x);
    QuotesInSlots(p, ps, x);
    SeenEnds(ps, q);
    r := Unplaceable;
    for vi: nat := 0 to |ps|
      invariant RanksQuotes(Seen(q, Slot(vi, 0)), r)
    {
      r := RankPlan(p, ps, x, q, vi, r);
      SeenWholePlan(ps, q, vi);
    }
  }

  method RankPlan(p: Problem, ps: seq<Order>, x: nat, ghost q: map<Slot, real>, vi: nat, r0: Ranking)
    returns (r: Ranking)
    requires p.speedKph > 0.0 && Plans(p, ps) && x < |p.nodes| && vi < |ps| && q == Quotes(p, ps, x)
    requires RanksQuotes(Seen(q, Slot(vi, 0)), r0)
    ensures RanksQuotes(Seen(q, Slot(vi, |ps[vi]| + 1)), r)
  {
    r := r0;
    var pos: nat := 0;
    while pos <= |ps[vi]|
      invariant pos <= |ps[vi]| + 1
      invariant RanksQuotes(Seen(q, Slot(vi, pos)), r)
    {
      var s := Slot(vi, pos);
      var c := Quote(p, ps, x, s);
      ghost var was := r;
      if c.Some? { r := Rank(r, s, c.value); }
      pos := pos + 1;
      RankQuoted(q, was, s, Slot(vi, pos), c, r);
    }
  }

  // best2 - best1, which is never negative; a missing second best makes it the largest float.
  datatype Regret = Finite(amount: real) | Largest

  function RegretOf(r: Ranking): Regret
    requires r.Ranked?
  {
    match r.second
    case None => Largest
    case Some(c) => Finite(if c - r.best < 0.0 then 0.0 else c - r.best)
  }

  predicate Exceeds(a: Regret, b: Regret) {
    match (a, b)
    case (_, Largest) => false
    case (Largest, _) => true
    case (Finite(x), Finite(y)) => x > y
  }

  // The clamp of a negative regret never fires.
  lemma RegretNeverNegative(q: map<Slot, real>, r: Ranking)
    requires RanksQuotes(q, r) && r.Ranked? && r.second.Some?
    ensures RegretOf(r) == Finite(r.second.value - r.best) && r.second.value >= r.best
  {
  }

  // Rankings are unique, so regret is a property of the quotes alone.
  lemma RankingUnique(q: map<Slot, real>, r: Ranking, r': Ranking)
    requires RanksQuotes(q, r) && RanksQuotes(q, r')
    ensures r == r'
  {
  }

  // r is a ranking of the regret that c stands for, and no other node beats it.
  ghost predicate LargestRegret(qs: seq<map<Slot, real>>, c: Choice, r: Ranking, upTo: nat)
    requires upTo <= |qs|
  {
    c.node < upTo && RanksQuotes(qs[c.node], r) && r.Ranked? && c.slot == r.slot &&
    forall n, r' :: 0 <= n < upTo && RanksQuotes(qs[n], r') && r'.Ranked? ==>
      (!Exceeds(RegretOf(r'), RegretOf(r)) && (n < c.node ==> Exceeds(RegretOf(r), RegretOf(r'))))
  }

  // The first node of the largest regret, at its cheapest slot.
  ghost predicate MaxRegret(qs: seq<map<Slot, real>>, c: Choice) {
    exists r :: LargestRegret(qs, c, r, |qs|)
  }

  lemma RegretVisit(qs: seq<map<Slot, real>>, was: Option<Choice>, wasRank: Ranking, ni: nat, r: Ranking)
    requires ni < |qs| && RanksQuotes(qs[ni], r)
    requires match was
             case None => forall n :: 0 <= n < ni ==> qs[n] == map[]
             case Some(c) => LargestRegret(qs, c, wasRank, ni)
    ensures r.Ranked? && (was.None? || Exceeds(RegretOf(r), RegretOf(wasRank)))
            ==> LargestRegret(qs, Choice(ni, r.slot), r, ni + 1)
    ensures !(r.Ranked? && (was.None? || Exceeds(RegretOf(r), RegretOf(wasRank))))
            ==> match was
                case None => forall n :: 0 <= n < ni + 1 ==> qs[n] == map[]
                case Some(c) => LargestRegret(qs, c, wasRank, ni + 1)
  {
  }

  method RegretChoice(p: Problem, ps: seq<Order>, nodes: seq<nat>) returns (best: Option<Choice>)
    requires p.speedKph > 0.0 && Plans(p, ps) && KnownNodes(p, nodes)
    ensures match best
            case None => NothingFits(AllQuotes(p, ps, nodes))
            case Some(c) => MaxRegret(AllQuotes(p, ps, nodes), c)
  {
    ghost var qs := AllQuotes(p, ps, nodes);
    best := None;
    var rank := Unplaceable;
    for ni: nat := 0 to |nodes|
      invariant best.Some? ==> rank.Ranked?
      invariant match best
                case None => forall n :: 0 <= n < ni ==> qs[n] == map[]
                case Some(c) => LargestRegret(qs, c, rank, ni)
    {
      var r := RankSlots(p, ps, nodes[ni]);
      assert RanksQuotes(qs[ni], r);
      RegretVisit(qs, best, rank, ni, r);
      if r.Ranked? && (best.None? || Exceeds(RegretOf(r), RegretOf(rank))) {
        best := Some(Choice(ni, r.slot));
        rank := r;
      }
    }
  }

  // ----- inserting every removed node -----

  datatype Rule = Greedy | Regret2

  ghost predicate Chosen(rule: Rule, qs: seq<map<Slot, real>>, c: Choice) {
    match rule
    case Greedy => CheapestOverall(qs, c)
    case Regret2 => MaxRegret(qs, c)
  }

  ghost predicate FirstShortest(ps: seq<Order>, i: nat) {
    i < |ps| && forall j :: 0 <= j < |ps| ==> |ps[i]| <= |ps[j]| && (j < i ==> |ps[i]| < |ps[j]|)
  }

  function Place(ps: seq<Order>, s: Slot, x: nat): seq<Order>
    requires s.plan < |ps| && s.pos <= |ps[s.plan]|
  {
    ps[s.plan := InsertAt(ps[s.plan], s.pos, x)]
  }

  // The choice of the rule; if nothing fits anywhere, the first waiting node goes to the end of the
  // first of the shortest plans, whatever the constraints say.
  ghost predicate Selected(rule: Rule, p: Problem, ps: seq<Order>, nodes: seq<nat>, c: Choice)
    requires p.speedKph > 0.0 && Plans(p, ps) && KnownNodes(p, nodes)
  {
    if NothingFits(AllQuotes(p, ps, nodes))
    then c.node == 0 && FirstShortest(ps, c.slot.plan) && c.slot.pos == |ps[c.slot.plan]|
    else Chosen(rule, AllQuotes(p, ps, nodes), c)
  }

  ghost predicate PlaceStep(ps: seq<Order>, nodes: seq<nat>, c: Choice, ps': seq<Order>, nodes': seq<nat>) {
    c.node < |nodes| && c.slot.plan < |ps| && c.slot.pos <= |ps[c.slot.plan]| &&
    ps' == Place(ps, c.slot, nodes[c.node]) && nodes' == RemoveAt(nodes, c.node)
  }

  // The plans, and the nodes that still wait to be put into them.
  datatype Stage = Stage(plans: seq<Order>, waiting: seq<nat>)

  // The stages of an insertion, and the choice that leads from each to the next.
  datatype Fill = Fill(stages: seq<Stage>, choices: seq<Choice>)

  ghost predicate InsertStep(rule: Rule, p: Problem, was: Stage, c: Choice, now: Stage)
    requires p.speedKph > 0.0
  {
    Plans(p, was.plans) && KnownNodes(p, was.waiting) && Selected(rule, p, was.plans, was.waiting, c) &&
    PlaceStep(was.plans, was.waiting, c, now.plans, now.waiting)
  }

  ghost predicate Inserts(rule: Rule, p: Problem, fill: Fill, was: Stage, now: Stage)
    requires p.speedKph > 0.0
  {
    |fill.stages| == |fill.choices| + 1 && fill.stages[0] == was && fill.stages[|fill.choices|] == now &&
    forall k :: 0 <= k < |fill.choices| ==> InsertStep(rule, p, fill.stages[k], fill.choices[k], fill.stages[k + 1])
  }

  ghost predicate SomethingFits(p: Problem, s: Stage)
    requires p.speedKph > 0.0
  {
    Plans(p, s.plans) && KnownNodes(p, s.waiting) && !NothingFits(AllQuotes(p, s.plans, s.waiting))
  }

  // At no stage does the node go to the end of a shortest plan because nothing fits.
  ghost predicate NoFallback(p: Problem, fill: Fill)
    requires p.speedKph > 0.0
  {
    forall k :: 0 <= k < |fill.choices| < |fill.stages| ==> SomethingFits(p, fill.stages[k])
  }

  lemma InsertsExtend(rule: Rule, p: Problem, fill: Fill, was: Stage, mid: Stage, c: Choice, now: Stage)
    requires p.speedKph > 0.0 && Inserts(rule, p, fill, was, mid) && InsertStep(rule, p, mid, c, now)
    ensures Inserts(rule, p, Fill(fill.stages + [now], fill.choices + [c]), was, now)
  {
    var longer := Fill(fill.stages + [now], fill.choices + [c]);
    forall k | 0 <= k < |longer.choices| ensures InsertStep(rule, p, longer.stages[k], longer.choices[k], longer.stages[k + 1]) {
      if k < |fill.choices| { assert InsertStep(rule, p, fill.stages[k], fill.choices[k], fill.stages[k + 1]); }
    }
  }

  lemma StepConserves(p: Problem, ps: seq<Order>, nodes: seq<nat>, c: Choice, ps': seq<Order>, nodes': seq<nat>)
    requires Plans(p, ps) && KnownNodes(p, nodes) && PlaceStep(ps, nodes, c, ps', nodes')
    ensures Plans(p, ps') && KnownNodes(p, nodes') && |nodes'| < |nodes|
    ensures Assigned(ps') + multiset(nodes') == Assigned(ps) + multiset(nodes)
  {
    AssignedInsert(ps, c.slot.plan, c.slot.pos, nodes[c.node]);
    RemoveAtMultiset(nodes, c.node);
    assert KnownNodes(p, ps[c.slot.plan]);
  }

  // Whatever the rule, the plans and the waiting nodes stay the same nodes together.
  lemma {:induction false} InsertsConserves(rule: Rule, p: Problem, fill: Fill, was: Stage, now: Stage, n: nat)
    requires p.speedKph > 0.0 && Plans(p, was.plans) && Inserts(rule, p, fill, was, now) && n <= |fill.choices|
    ensures Plans(p, fill.stages[n].plans)
    ensures Assigned(fill.stages[n].plans) + multiset(fill.stages[n].waiting) == Assigned(was.plans) + multiset(was.waiting)
  {
    if n > 0 {
      InsertsConserves(rule, p, fill, was, now, n - 1);
      var a, b := fill.stages[n - 1], fill.stages[n];
      StepConserves(p, a.plans, a.waiting, fill.choices[n - 1], b.plans, b.waiting);
    }
  }

  // A choice that is no fallback fits the plan it goes to.
  lemma ChosenFits(rule: Rule, p: Problem, ps: seq<Order>, nodes: seq<nat>, c: Choice)
    requires p.speedKph > 0.0 && Plans(p, ps) && KnownNodes(p, nodes) && Chosen(rule, AllQuotes(p, ps, nodes), c)
    ensures c.node < |nodes| && c.slot.plan < |ps| && FitsAt(p, p.vehicles[c.slot.plan], ps[c.slot.plan], nodes[c.node], c.slot.pos)
  {
  }

  lemma StepKeepsSchedules(rule: Rule, p: Problem, was: Stage, c: Choice, now: Stage)
    requires p.speedKph > 0.0 && InsertStep(rule, p, was, c, now) && OnSchedule(p, was.plans) && SomethingFits(p, was)
    ensures OnSchedule(p, now.plans)
  {
    ChosenFits(rule, p, was.plans, was.waiting, c);
    StepConserves(p, was.plans, was.waiting, c, now.plans, now.waiting);
  }

  lemma StageKeepsSchedules(rule: Rule, p: Problem, fill: Fill, was: Stage, now: Stage, k: nat)
    requires p.speedKph > 0.0 && Inserts(rule, p, fill, was, now) && NoFallback(p, fill) && k < |fill.choices|
    requires OnSchedule(p, fill.stages[k].plans)
    ensures OnSchedule(p, fill.stages[k + 1].plans)
  {
    assert SomethingFits(p, fill.stages[k]);
    StepKeepsSchedules(rule, p, fill.stages[k], fill.choices[k], fill.stages[k + 1]);
  }

  // Without a fallback every plan stays on schedule.
  lemma InsertsKeepSchedules(rule: Rule, p: Problem, fill: Fill, was: Stage, now: Stage)
    requires p.speedKph > 0.0 && OnSchedule(p, was.plans) && Inserts(rule, p, fill, was, now) && NoFallback(p, fill)
    ensures OnSchedule(p, now.plans)
  {
    var good := (k: nat) => k < |fill.stages| && OnSchedule(p, fill.stages[k].plans);
    forall k: nat | k < |fill.choices| && good(k) ensures good(k + 1) { StageKeepsSchedules(rule, p, fill, was, now, k); }
    Climb(good, |fill.choices|);
  }

  method ShortestPlan(ps: seq<Order>) returns (shortest: nat)
    requires ps != []
    ensures FirstShortest(ps, shortest)
  {
    shortest := 0;
    for i := 0 to |ps|
      invariant shortest < |ps| && (shortest == 0 || shortest < i)
      invariant forall j :: 0 <= j < i ==> |ps[shortest]| <= |ps[j]| && (j < shortest ==> |ps[shortest]| < |ps[j]|)
    {
      if |ps[i]| < |ps[shortest]| { shortest := i; }
    }
  }

  lemma ChosenInBounds(rule: Rule, p: Problem, ps: seq<Order>, nodes: seq<nat>, c: Choice)
    requires p.speedKph > 0.0 && Plans(p, ps) && KnownNodes(p, nodes) && Chosen(rule, AllQuotes(p, ps, nodes), c)
    ensures c.node < |nodes| && c.slot.plan < |ps| && c.slot.pos <= |ps[c.slot.plan]|
    ensures !NothingFits(AllQuotes(p, ps, nodes))
  {
  }

  method Select(rule: Rule, p: Problem, ps: seq<Order>, nodes: seq<nat>) returns (c: Choice)
    requires p.speedKph > 0.0 && Plans(p, ps) && KnownNodes(p, nodes) && nodes != [] && ps != []
    ensures Selected(rule, p, ps, nodes, c)
    ensures c.node < |nodes| && c.slot.plan < |ps| && c.slot.pos <= |ps[c.slot.plan]|
  {
    var best;
    if rule == Greedy {
      best := GreedyChoice(p, ps, nodes);
    } else {
      best := RegretChoice(p, ps, nodes);
    }
    if best == None {
      var shortest := ShortestPlan(ps);
      return Choice(0, Slot(shortest, |ps[shortest]|));
    }
    ChosenInBounds(rule, p, ps, nodes, best.value);
    return best.value;
  }

  // The insertion writes within the storage of the plan's order when that has room.
  method PlaceNode(plans: Fleet, s: Slot, x: nat)
    requires plans.Valid() && plans.Separate() && s.plan < |plans.orders| && s.pos <= |plans.orders[s.plan]|
    modifies plans, plans.slices[s.plan].store
    ensures plans.Valid() && plans.Separate() && fresh(plans.Stores() - old(plans.Stores()))
    ensures plans.orders == Place(old(plans.orders), s, x)
  {
    if s.pos == plans.slices[s.plan].len {
      assert InsertAt(plans.orders[s.plan], s.pos, x) == plans.orders[s.plan] + [x];
      plans.AppendTo(s.plan, x);
    } else {
      plans.InsertInto(s.plan, s.pos, x);
    }
  }

  // The chosen node leaves the waiting list for its slot.
  method PlaceChosen(plans: Fleet, nodes0: seq<nat>, c: Choice) returns (nodes: seq<nat>)
    requires plans.Valid() && plans.Separate()
    requires c.node < |nodes0| && c.slot.plan < |plans.orders| && c.slot.pos <= |plans.orders[c.slot.plan]|
    modifies plans, plans.Stores()
    ensures plans.Valid() && plans.Separate() && fresh(plans.Stores() - old(plans.Stores()))
    ensures PlaceStep(old(plans.orders), nodes0, c, plans.orders, nodes)
  {
    PlaceNode(plans, c.slot, nodes0[c.node]);
    nodes := nodes0[..c.node] + nodes0[c.node + 1..];
  }

  // One node is chosen and placed.
  method InsertNext(rule: Rule, p: Problem, plans: Fleet, nodes0: seq<nat>, ghost start: Stage, ghost fill0: Fill)
    returns (nodes: seq<nat>, ghost fill: Fill)
    requires p.speedKph > 0.0 && Plans(p, plans.orders) && KnownNodes(p, nodes0) && nodes0 != []
    requires plans.Valid() && plans.Separate() && plans.orders != []
    requires Inserts(rule, p, fill0, start, Stage(plans.orders, nodes0))
    modifies plans, plans.Stores()
    ensures plans.Valid() && plans.Separate() && fresh(plans.Stores() - old(plans.Stores())) && plans.orders != []
    ensures Plans(p, plans.orders) && KnownNodes(p, nodes) && |nodes| < |nodes0|
    ensures Inserts(rule, p, fill, start, Stage(plans.orders, nodes))
  {
    var c := Select(rule, p, plans.ReadAll(), nodes0);
    ghost var now := Stage(Place(plans.orders, c.slot, nodes0[c.node]), RemoveAt(nodes0, c.node));
    InsertsExtend(rule, p, fill0, start, Stage(plans.orders, nodes0), c, now);
    StepConserves(p, plans.orders, nodes0, c, now.plans, now.waiting);
    fill := Fill(fill0.stages + [now], fill0.choices + [c]);
    nodes := PlaceChosen(plans, nodes0, c);
  }

  method InsertNodes(rule: Rule, p: Problem, plans: Fleet, removed: seq<nat>) returns (ghost fill: Fill)
    requires p.speedKph > 0.0 && Plans(p, plans.orders) && KnownNodes(p, removed)
    requires plans.Valid() && plans.Separate() && (removed != [] ==> plans.orders != [])
    modifies plans, plans.Stores()
    ensures plans.Valid() && fresh(plans.Stores() - old(plans.Stores()))
    ensures Plans(p, plans.orders) && Inserts(rule, p, fill, Stage(old(plans.orders), removed), Stage(plans.orders, []))
    ensures Assigned(plans.orders) == Assigned(old(plans.orders)) + multiset(removed)
  {
    var nodes := removed;
    ghost var start := Stage(plans.orders, removed);
    fill := Fill([start], []);
    while nodes != []
      invariant plans.Valid() && plans.Separate() && fresh(plans.Stores() - old(plans.Stores()))
      invariant Plans(p, plans.orders) && KnownNodes(p, nodes) && (nodes != [] ==> plans.orders != [])
      invariant Inserts(rule, p, fill, start, Stage(plans.orders, nodes))
      decreases |nodes|
    {
      nodes, fill := InsertNext(rule, p, plans, nodes, start, fill);
    }
    InsertsConserves(rule, p, fill, start, Stage(plans.orders, []), |fill.choices|);
  }
}
