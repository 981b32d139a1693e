// The routing problem handed to the optimiser (internal/opt/alns_engine.go:9-53).
module Problems {
  import opened Sequences
  import opened Paths

  // Instants are seconds after the Unix epoch; this one is Go's zero time, which means "not set".
  const ZERO_TIME: real := -62135596800.0

  datatype Window = Window(start: real, end: real)

  datatype Node = Node(serviceSec: int, tw: Option<Window>, weight: real, volume: real, skills: seq<string>)

  datatype Vehicle = Vehicle(capWeight: real, capVolume: real, skills: seq<string>, start: Option<Place>)

  // Node i stands at place i; `origin` is the place with coordinates (0, 0).
  datatype Problem = Problem(
    nodes: seq<Node>, vehicles: seq<Vehicle>, d: Distance, origin: Place, speedKph: real,
    objectives: map<string, real>, hosMaxDriveSec: int, breakSec: int, iterationsLimit: int,
    initialRemovalWeights: seq<real>, initialInsertionWeights: seq<real>)

  type Order = seq<nat>

  function Opens(n: Node): Option<real> {
    if n.tw.Some? && n.tw.value.start != ZERO_TIME then Some(n.tw.value.start) else None
  }

  function Closes(n: Node): Option<real> {
    if n.tw.Some? && n.tw.value.end != ZERO_TIME then Some(n.tw.value.end) else None
  }

  // What the search needs once it has replaced a non-positive speed.
  ghost predicate Usable(p: Problem) {
    p.speedKph > 0.0 && Metric(p.d)
  }

  ghost predicate KnownNodes(p: Problem, o: Order) {
    forall k :: 0 <= k < |o| ==> o[k] < |p.nodes|
  }

  // One order per vehicle, over known nodes.
  ghost predicate Plans(p: Problem, ps: seq<Order>) {
    |ps| == |p.vehicles| && forall i :: 0 <= i < |ps| ==> KnownNodes(p, ps[i])
  }

  lemma AssignedKnown(p: Problem, ps: seq<Order>, x: nat)
    requires Plans(p, ps) && x in Assigned(ps)
    ensures x < |p.nodes|
  {
    AssignedMembers(ps, x);
    var i :| 0 <= i < |ps| && x in ps[i];
    assert KnownNodes(p, ps[i]);
  }

  function DriveSec(p: Problem, a: Place, b: Place): real
    requires p.speedKph > 0.0
  {
    p.d(a, b) / (p.speedKph / 3.6)
  }

  lemma DriveSecNonNegative(p: Problem, a: Place, b: Place)
    requires Usable(p)
    ensures DriveSec(p, a, b) >= 0.0
    ensures a == b ==> DriveSec(p, a, b) == 0.0
  {
  }

  lemma DriveSecTriangle(p: Problem, a: Place, b: Place, c: Place)
    requires Usable(p)
    ensures DriveSec(p, a, c) <= DriveSec(p, a, b) + DriveSec(p, b, c)
  {
    assert Detour(a, b, c);
    DivideSum(p.d(a, c), p.d(a, b), p.d(b, c), p.speedKph / 3.6);
  }

  lemma DivideSum(x: real, y: real, z: real, s: real)
    requires s > 0.0 && x <= y + z
    ensures x / s <= y / s + z / s
  {
  }

  // Where a vehicle's route begins: its depot, else its first stop.
  function StartPlace(p: Problem, v: Vehicle, o: Order): Place {
    match v.start
    case Some(depot) => depot
    case None => if o != [] then o[0] else p.origin
  }

  // pathDistanceNodes: the leg from the first node to itself contributes nothing.
  method PathDistanceNodes(p: Problem, o: Order) returns (total: real)
    requires Reflexive(p.d)
    ensures total == Length(p.d, o)
  {
    total := 0.0;
    if o == [] { return; }
    var cur := o[0];
    assert [cur] + o[0..] == [cur] + o && ([cur] + o)[1..] == o;
    for k := 0 to |o|
      invariant total + Length(p.d, [cur] + o[k..]) == Length(p.d, o)
    {
      assert ([cur] + o[k..])[1..] == [o[k]] + o[k + 1..] == o[k..];
      total := total + p.d(cur, o[k]);
      cur := o[k];
    }
  }
}
