// Where a node may be inserted and what the insertion is estimated to cost
// (internal/opt/alns_engine.go:331-387).
module Insertion {
  import opened Sequences
  import opened Paths
  import opened Problems
  import opened Schedules

  ghost function WeightOf(p: Problem, o: Order): real
    requires KnownNodes(p, o)
  {
    if o == [] then 0.0 else p.nodes[o[0]].weight + WeightOf(p, o[1..])
  }

  ghost function VolumeOf(p: Problem, o: Order): real
    requires KnownNodes(p, o)
  {
    if o == [] then 0.0 else p.nodes[o[0]].volume + VolumeOf(p, o[1..])
  }

  lemma LoadAppend(p: Problem, o: Order, x: nat)
    requires KnownNodes(p, o) && x < |p.nodes|
    ensures WeightOf(p, o + [x]) == WeightOf(p, o) + p.nodes[x].weight
    ensures VolumeOf(p, o + [x]) == VolumeOf(p, o) + p.nodes[x].volume
  {
    if o == [] {
      assert o + [x] == [x];
    } else {
      assert (o + [x])[1..] == o[1..] + [x];
      LoadAppend(p, o[1..], x);
    }
  }

  // A capacity that is not positive does not limit the load.
  ghost predicate CanCarry(p: Problem, v: Vehicle, o: Order)
    requires KnownNodes(p, o)
  {
    (v.capWeight > 0.0 ==> WeightOf(p, o) <= v.capWeight) &&
    (v.capVolume > 0.0 ==> VolumeOf(p, o) <= v.capVolume)
  }

  // A vehicle that lists no skills may serve any node.
  ghost predicate HasSkills(p: Problem, v: Vehicle, x: nat)
    requires x < |p.nodes|
  {
    v.skills == [] || forall s :: s in p.nodes[x].skills ==> s in v.skills
  }

  ghost predicate CanAdd(p: Problem, v: Vehicle, o: Order, x: nat)
    requires KnownNodes(p, o) && x < |p.nodes|
  {
    CanCarry(p, v, o + [x]) && HasSkills(p, v, x)
  }

  method FeasibleAdd(p: Problem, v: Vehicle, o: Order, x: nat) returns (ok: bool)
    requires KnownNodes(p, o) && x < |p.nodes|
    ensures ok <==> CanAdd(p, v, o, x)
  {
    var w, vol := 0.0, 0.0;
    assert o[0..] == o;
    for k := 0 to |o|
      invariant w + WeightOf(p, o[k..]) == WeightOf(p, o)
      invariant vol + VolumeOf(p, o[k..]) == VolumeOf(p, o)
    {
      assert o[k..][0] == o[k] && o[k..][1..] == o[k + 1..];
      w := w + p.nodes[o[k]].weight;
      vol := vol + p.nodes[o[k]].volume;
    }
    LoadAppend(p, o, x);
    w := w + p.nodes[x].weight;
    vol := vol + p.nodes[x].volume;
    if v.capWeight > 0.0 && w > v.capWeight { return false; }
    if v.capVolume > 0.0 && vol > v.capVolume { return false; }
    if |p.nodes[x].skills| > 0 && |v.skills| > 0 {
      var needed := set s | s in p.nodes[x].skills;
      needed := needed - (set s | s in v.skills);
      if needed != {} {
        var s :| s in needed;
        assert s in p.nodes[x].skills && s !in v.skills;
        return false;
      }
      forall s | s in p.nodes[x].skills ensures s in v.skills {
        assert s !in needed;
      }
    }
    return true;
  }

  ghost predicate FitsAt(p: Problem, v: Vehicle, o: Order, x: nat, pos: nat)
    requires p.speedKph > 0.0 && KnownNodes(p, o) && x < |p.nodes|
  {
    CanAdd(p, v, o, x) && pos <= |o| && Feasible(p, v, InsertAt(o, pos, x))
  }

  method FeasibleAddAt(p: Problem, v: Vehicle, o: Order, x: nat, pos: nat) returns (ok: bool)
    requires p.speedKph > 0.0 && KnownNodes(p, o) && x < |p.nodes|
    ensures ok <==> FitsAt(p, v, o, x, pos)
  {
    ok := FeasibleAdd(p, v, o, x);
    if !ok { return false; }
    if pos > |o| { return false; }
    var tmp := o[..pos];
    tmp := tmp + [x];
    tmp := tmp + o[pos..];
    var s := SchedulePlan(p, v, tmp);
    return s.feasible;
  }

  // deltaCostInsert: legs to and from the new node, minus the leg they replace, plus service. At the
  // end of the plan the "next" place is the previous one.
  function InsertionCost(p: Problem, v: Vehicle, o: Order, x: nat, pos: nat): real
    requires x < |p.nodes| && pos <= |o|
  {
    var prev := if pos == 0 then StartPlace(p, v, o) else o[pos - 1];
    var next := if pos < |o| then o[pos] else prev;
    p.d(prev, x) + p.d(x, next) - p.d(prev, next) + p.nodes[x].serviceSec as real
  }

  // By how much the estimate exceeds the change of path length plus service.
  ghost function Overestimate(p: Problem, v: Vehicle, o: Order, x: nat, pos: nat): real
    requires x < |p.nodes| && pos <= |o|
  {
    InsertionCost(p, v, o, x, pos)
    - (Length(p.d, InsertAt(o, pos, x)) - Length(p.d, o) + p.nodes[x].serviceSec as real)
  }

  // Inside a plan the estimate is exact.
  lemma InteriorEstimateExact(p: Problem, v: Vehicle, o: Order, x: nat, pos: nat)
    requires x < |p.nodes| && 0 < pos < |o|
    ensures Overestimate(p, v, o, x, pos) == 0.0
  {
    var a, b := o[..pos], o[pos..];
    assert o == a + b;
    LengthJoin(p.d, a, b);
    LengthThree(p.d, a, [x], b);
  }

  // At the end of a plan the estimate counts the new leg twice.
  lemma AppendEstimate(p: Problem, v: Vehicle, o: Order, x: nat)
    requires Symmetric(p.d) && Reflexive(p.d) && x < |p.nodes| && o != []
    ensures Overestimate(p, v, o, x, |o|) == p.d(o[|o| - 1], x)
  {
    assert InsertAt(o, |o|, x) == o + [x];
    LengthAppend(p.d, o, x);
    assert p.d(o[|o| - 1], x) == p.d(x, o[|o| - 1]);
  }

  // At the front of a plan it does so too without a depot; with one it is exact for the path from the depot.
  lemma FrontEstimate(p: Problem, v: Vehicle, o: Order, x: nat)
    requires Symmetric(p.d) && Reflexive(p.d) && x < |p.nodes| && o != []
    ensures match v.start
            case None => Overestimate(p, v, o, x, 0) == p.d(x, o[0])
            case Some(depot) =>
              InsertionCost(p, v, o, x, 0) - p.nodes[x].serviceSec as real
              == Length(p.d, [depot] + InsertAt(o, 0, x)) - Length(p.d, [depot] + o)
  {
  }
}
