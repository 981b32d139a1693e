// Advancing, assigning and patching planned routes: the in-memory store
// (internal/store/memory.go:100-118, 204-251) and the leg step of the SQL store
// (internal/store/postgres.go:697-844).
module RouteAdvance {
  import opened Sequences
  import opened Paths
  import opened LegEmission

  datatype Policy = Policy(enabled: bool, requirePoD: bool, trigger: string, minDwellSec: int, gracePeriodSec: int,
                           movingLock: bool, hosMaxDriveSec: int)

  datatype Route = Route(version: nat, status: string, driver: string, vehicle: string, legs: seq<Leg>, autoAdvance: Option<Policy>)

  // The value that a lookup of a missing key yields.
  const NO_ROUTE := Route(0, "", "", "", [], None)

  datatype Request = Request(reason: string, force: bool)

  datatype Result = Result(changed: bool, fromLeg: string, fromStop: Option<Place>, toLeg: string, toStop: Option<Place>)

  const UNCHANGED := Result(false, "", None, "", None)

  function Reason(r: string): string {
    if r == "arrive" then "geofence_arrive" else if r == "pod" then "pod_ack" else r
  }

  predicate Blocked(autoAdvance: Option<Policy>, req: Request) {
    !req.force && autoAdvance.Some? &&
    var pol := autoAdvance.value;
    !pol.enabled || (pol.requirePoD && Reason(req.reason) != "pod_ack")
    || (pol.trigger != "" && Reason(req.reason) != "" && pol.trigger != Reason(req.reason))
  }

  // The first leg not visited; |legs| if there is none.
  ghost function Current(legs: seq<Leg>): (i: nat)
    ensures i <= |legs|
  {
    if legs == [] || legs[0].status != Visited then 0 else 1 + Current(legs[1..])
  }

  lemma CurrentMeans(legs: seq<Leg>, i: nat)
    requires i <= |legs| && (forall j :: 0 <= j < i ==> legs[j].status == Visited) && (i < |legs| ==> legs[i].status != Visited)
    ensures Current(legs) == i
  {
    if i > 0 {
      assert forall j :: 0 <= j < i - 1 ==> legs[1..][j] == legs[j + 1];
      CurrentMeans(legs[1..], i - 1);
    }
  }

  function Marked(legs: seq<Leg>, i: nat, s: LegStatus): seq<Leg> {
    if i < |legs| then legs[i := legs[i].(status := s)] else legs
  }

  ghost function AdvancedLegs(legs: seq<Leg>): seq<Leg> {
    var i := Current(legs);
    if i == |legs| then legs else Marked(Marked(legs, i, Visited), i + 1, InProgress)
  }

  // What an advance of leg i reports.
  function Report(legs: seq<Leg>, i: nat): Result
    requires i < |legs|
  {
    if i + 1 < |legs| then Result(true, legs[i].id, legs[i].to, legs[i + 1].id, legs[i + 1].to)
    else Result(true, legs[i].id, legs[i].to, "", None)
  }

  ghost function AdvanceResult(r: Route, req: Request): Result {
    if Blocked(r.autoAdvance, req) || Current(r.legs) == |r.legs| then UNCHANGED else Report(r.legs, Current(r.legs))
  }

  ghost function Advanced(r: Route, req: Request): Route {
    if AdvanceResult(r, req).changed then r.(legs := AdvancedLegs(r.legs), version := r.version + 1) else r
  }

  function AssignedTo(r: Route, driver: string, vehicle: string): Route {
    r.(driver := driver, vehicle := vehicle, version := if r.version == 0 then 1 else r.version, status := "assigned")
  }

  function Patched(r: Route, status: string): Route {
    r.(status := if status != "" then status else r.status, version := r.version + 1)
  }

  // ----- the in-memory store -----

  // A route as it is stored and handed out: every copy refers to the same legs.
  datatype Handle = Handle(version: nat, status: string, driver: string, vehicle: string, legs: array<Leg>, autoAdvance: Option<Policy>)

  // What a holder of the handle sees.
  ghost function Seen(h: Handle): Route
    reads h.legs
  {
    Route(h.version, h.status, h.driver, h.vehicle, h.legs[..], h.autoAdvance)
  }

  datatype Response = Response(result: Result, route: Handle)

  class MemoryRoutes {
    var routes: map<string, Handle>

    // No two stored routes share their legs.
    ghost predicate Valid()
      reads this
    {
      forall j, k :: j in routes && k in routes && j != k ==> routes[j].legs != routes[k].legs
    }

    ghost function Contents(): map<string, Route>
      reads this, set k | k in routes :: routes[k].legs
    {
      map k | k in routes :: Seen(routes[k])
    }

    ghost function Stored(id: string): Route
      reads this, set k | k in routes :: routes[k].legs
    {
      if id in routes then Seen(routes[id]) else NO_ROUTE
    }

    // Nothing but route id has changed, and its legs.
    twostate lemma OneChanged(id: string)
      requires old(Valid()) && id in routes && routes == old(routes)[id := routes[id]]
      requires id in old(routes) ==> routes[id].legs == old(routes)[id].legs
      requires forall k :: k in old(routes) && k != id ==> unchanged(old(routes)[k].legs)
      requires id !in old(routes) ==> fresh(routes[id].legs)
      ensures Valid() && Contents() == old(Contents())[id := Seen(routes[id])]
    {
    }

    // None: the route is not found. The legs are marked where they are, so a handle given out earlier
    // shows the new legs under its old version.
    method AdvanceRoute(id: string, req: Request) returns (res: Option<Response>)
      requires Valid()
      modifies this, if id in routes then {routes[id].legs} else {}
      ensures Valid()
      ensures id !in old(routes) ==> res == None && Contents() == old(Contents())
      ensures id in old(routes) ==>
                var was := old(Stored(id));
                res.Some? && res.value.result == AdvanceResult(was, req)
                && routes == old(routes)[id := res.value.route] && Contents() == old(Contents())[id := Advanced(was, req)]
                && Seen(old(routes)[id]) == was.(legs := Advanced(was, req).legs)
    {
      if id !in routes { return None; }
      var r := routes[id];
      ghost var was := Seen(r);
      var allowed := Allows(r.autoAdvance, req);
      if !allowed { return Some(Response(UNCHANGED, r)); }
      var report := MarkLegs(r.legs);
      if !report.changed { return Some(Response(UNCHANGED, r)); }
      r := r.(version := r.version + 1);
      routes := routes[id := r];
      assert Seen(r) == Advanced(was, req);
      OneChanged(id);
      res := Some(Response(report, r));
    }

    // A route that is not stored is created from the zero value.
    method AssignRoute(id: string, driver: string, vehicle: string) returns (r: Handle)
      requires Valid()
      modifies this
      ensures Valid() && routes == old(routes)[id := r]
      ensures Contents() == old(Contents())[id := AssignedTo(old(Stored(id)), driver, vehicle)]
    {
      r := Lookup(id);
      r := r.(driver := driver, vehicle := vehicle);
      if r.version == 0 { r := r.(version := 1); }
      r := r.(status := "assigned");
      assert Seen(r) == AssignedTo(old(Stored(id)), driver, vehicle);
      routes := routes[id := r];
      OneChanged(id);
    }

    method PatchRoute(id: string, status: string) returns (r: Handle)
      requires Valid()
      modifies this
      ensures Valid() && routes == old(routes)[id := r]
      ensures Contents() == old(Contents())[id := Patched(old(Stored(id)), status)]
    {
      r := Lookup(id);
      if status != "" { r := r.(status := status); }
      if r.version == 0 { r := r.(version := 1); } else { r := r.(version := r.version + 1); }
      assert Seen(r) == Patched(old(Stored(id)), status);
      routes := routes[id := r];
      OneChanged(id);
    }

    // The stored route, or the zero value: a route without legs.
    method Lookup(id: string) returns (r: Handle)
      ensures Seen(r) == Stored(id)
      ensures if id in routes then r == routes[id] else fresh(r.legs)
    {
      if id in routes { return routes[id]; }
      var none := new Leg[0];
      r := Handle(0, "", "", "", none, None);
    }
  }

  // The policy checks.
  method Allows(autoAdvance: Option<Policy>, req: Request) returns (ok: bool)
    ensures ok <==> !Blocked(autoAdvance, req)
  {
    if !req.force && autoAdvance.Some? {
      var pol := autoAdvance.value;
      if !pol.enabled { return false; }
      var reason := req.reason;
      if reason == "arrive" { reason := "geofence_arrive"; }
      if reason == "pod" { reason := "pod_ack"; }
      if pol.requirePoD && reason != "pod_ack" { return false; }
      if pol.trigger != "" && reason != "" && pol.trigger != reason { return false; }
    }
    return true;
  }

  // The first open leg becomes visited and the next one in progress.
  method MarkLegs(legs: array<Leg>) returns (res: Result)
    modifies legs
    ensures legs[..] == AdvancedLegs(old(legs[..]))
    ensures var i := Current(old(legs[..])); res == if i == legs.Length then UNCHANGED else Report(old(legs[..]), i)
  {
    var idx := FirstOpen(legs);
    if idx == -1 { return UNCHANGED; }
    legs[idx] := legs[idx].(status := Visited);
    res := Result(true, legs[idx].id, legs[idx].to, "", None);
    if idx + 1 < legs.Length {
      legs[idx + 1] := legs[idx + 1].(status := InProgress);
      res := res.(toLeg := legs[idx + 1].id, toStop := legs[idx + 1].to);
    }
  }

  method FirstOpen(legs: array<Leg>) returns (i: int)
    ensures if i == -1 then Current(legs[..]) == legs.Length else i == Current(legs[..]) < legs.Length
  {
    for k: nat := 0 to legs.Length
      invariant forall j :: 0 <= j < k ==> legs[j].status == Visited
    {
      if legs[k].status != Visited {
        CurrentMeans(legs[..], k);
        return k;
      }
    }
    CurrentMeans(legs[..], legs.Length);
    return -1;
  }

  // ----- every run of advances, assignments and patches -----

  datatype Op = Advance(req: Request) | Assign(driver: string, vehicle: string) | Patch(status: string)

  ghost function Apply(r: Route, op: Op): Route {
    match op
    case Advance(req) => Advanced(r, req)
    case Assign(driver, vehicle) => AssignedTo(r, driver, vehicle)
    case Patch(status) => Patched(r, status)
  }

  ghost function RunRoute(r: Route, ops: seq<Op>): Route
    decreases |ops|
  {
    if ops == [] then r else RunRoute(Apply(r, ops[0]), ops[1..])
  }

  // The results of the advances that changed something, in order.
  ghost function Changes(r: Route, ops: seq<Op>): seq<Result>
    decreases |ops|
  {
    if ops == [] then []
    else (if ops[0].Advance? && AdvanceResult(r, ops[0].req).changed then [AdvanceResult(r, ops[0].req)] else [])
         + Changes(Apply(r, ops[0]), ops[1..])
  }

  ghost function Patches(ops: seq<Op>): nat {
    if ops == [] then 0 else (if ops[0].Patch? then 1 else 0) + Patches(ops[1..])
  }

  // The status of leg j once the first k legs have been visited.
  function StatusAt(j: nat, k: nat): LegStatus {
    if j < k then Visited else if j == k then InProgress else Pending
  }

  // The planned legs with the first k visited, the next in progress and the others pending.
  ghost predicate Progress(planned: seq<Leg>, legs: seq<Leg>, k: nat) {
    |legs| == |planned| && k <= |planned| && forall j :: 0 <= j < |legs| ==> legs[j] == planned[j].(status := StatusAt(j, k))
  }

  lemma {:induction false} ProgressAdvances(planned: seq<Leg>, legs: seq<Leg>, k: nat)
    requires Progress(planned, legs, k)
    ensures Current(legs) == k
    ensures k < |planned| ==> Progress(planned, AdvancedLegs(legs), k + 1) && Report(legs, k) == Report(planned, k)
  {
    CurrentMeans(legs, k);
  }

  // A run from k legs visited: what it has reached, given the rest of the run after one step.
  ghost predicate Reached(planned: seq<Leg>, r: Route, k: nat, ops: seq<Op>) {
    var changes := Changes(r, ops);
    k + |changes| <= |planned| && Progress(planned, RunRoute(r, ops).legs, k + |changes|) &&
    (forall n :: 0 <= n < |changes| ==> changes[n] == Report(planned, k + n)) &&
    RunRoute(r, ops).version == r.version + Patches(ops) + |changes|
  }

  // An advance that changes something adds its result to those of the rest of the run.
  lemma {:induction false} EffectiveStep(r: Route, ops: seq<Op>)
    requires ops != [] && ops[0].Advance? && AdvanceResult(r, ops[0].req).changed
    ensures Changes(r, ops) == [AdvanceResult(r, ops[0].req)] + Changes(Apply(r, ops[0]), ops[1..])
    ensures RunRoute(r, ops) == RunRoute(Apply(r, ops[0]), ops[1..]) && Patches(ops) == Patches(ops[1..])
    ensures Apply(r, ops[0]).version == r.version + 1
  {
  }

  lemma {:induction false} EffectiveAdvance(planned: seq<Leg>, r: Route, k: nat, ops: seq<Op>)
    requires ops != [] && ops[0].Advance? && AdvanceResult(r, ops[0].req).changed
    requires k < |planned| && AdvanceResult(r, ops[0].req) == Report(planned, k)
    requires Reached(planned, Apply(r, ops[0]), k + 1, ops[1..])
    ensures Reached(planned, r, k, ops)
  {
    EffectiveStep(r, ops);
    var tail := Changes(Apply(r, ops[0]), ops[1..]);
    var changes := [Report(planned, k)] + tail;
    assert |changes| == 1 + |tail| && changes == Changes(r, ops);
    forall n | 0 <= n < |changes| ensures changes[n] == Report(planned, k + n) {
      if n > 0 { assert changes[n] == tail[n - 1]; }
    }
  }

  lemma {:induction false} RunFrom(planned: seq<Leg>, r: Route, k: nat, ops: seq<Op>)
    requires Progress(planned, r.legs, k) && r.version >= 1
    ensures Reached(planned, r, k, ops)
    decreases |ops|
  {
    if ops != [] {
      var r' := Apply(r, ops[0]);
      if ops[0].Advance? && AdvanceResult(r, ops[0].req).changed {
        ProgressAdvances(planned, r.legs, k);
        RunFrom(planned, r', k + 1, ops[1..]);
        EffectiveAdvance(planned, r, k, ops);
      } else {
        RunFrom(planned, r', k, ops[1..]);
        assert Changes(r, ops) == Changes(r', ops[1..]);
      }
    }
  }

  // From a planned route, whatever the run: the n-th effective advance leaves leg n for leg n + 1, so
  // there are at most as many as legs and each starts where the previous one ended; the statuses are
  // visited, one in progress, then pending; and the version counts patches and effective advances.
  lemma {:induction false} RunsOfPlannedRoute(r: Route, ops: seq<Op>)
    requires Progress(r.legs, r.legs, 0) && r.version == 1
    ensures var changes := Changes(r, ops);
      && |changes| <= |r.legs| && Progress(r.legs, RunRoute(r, ops).legs, |changes|)
      && (forall n :: 0 <= n < |changes| ==> changes[n] == Report(r.legs, n))
      && (forall n :: 0 <= n < |changes| - 1 ==> changes[n].toLeg == changes[n + 1].fromLeg && changes[n].toStop == r.legs[n + 1].to)
      && RunRoute(r, ops).version == 1 + Patches(ops) + |changes|
  {
    RunFrom(r.legs, r, 0, ops);
    var changes := Changes(r, ops);
    forall n | 0 <= n < |changes| - 1 ensures changes[n].toLeg == changes[n + 1].fromLeg && changes[n].toStop == r.legs[n + 1].to {
      assert changes[n] == Report(r.legs, n) && changes[n + 1] == Report(r.legs, n + 1);
    }
  }

  // The legs that the planner emits are those of a planned route.
  lemma EmittedLegsArePlanned(t: Trip, order: seq<Place>, start: int)
    requires order != []
    ensures Progress(AllLegs(t, order, start), AllLegs(t, order, start), 0)
  {
    LegsNumbered(t, order, start);
  }

  // ----- the SQL store -----

  // UPDATE ... SET status = s WHERE number = n
  ghost function UpdateNumber(rows: seq<Leg>, n: nat, s: LegStatus): seq<Leg> {
    seq(|rows|, j requires 0 <= j < |rows| => if rows[j].number == n then rows[j].(status := s) else rows[j])
  }

  // UPDATE ... SET status = s WHERE id = id
  ghost function UpdateId(rows: seq<Leg>, id: string, s: LegStatus): seq<Leg> {
    seq(|rows|, j requires 0 <= j < |rows| => if rows[j].id == id then rows[j].(status := s) else rows[j])
  }

  // Both updates: the current row by its id, then the row with the next number.
  ghost function SqlAdvanced(rows: seq<Leg>): seq<Leg>
    requires Current(rows) < |rows|
  {
    var leg := rows[Current(rows)];
    UpdateNumber(UpdateId(rows, leg.id, Visited), leg.number + 1, InProgress)
  }

  const SECOND := 1_000_000_000

  datatype Driver = Driver(onBreak: Option<bool>, status: Option<string>)

  // What the queries of one call return: the nanoseconds since the last event of a type at the current
  // stop, the last speed, and the recorded state of the assigned driver.
  datatype Facts = Facts(since: string -> Option<int>, speedKph: Option<real>, driver: Option<Driver>)

  datatype Call = Call(autoAdvance: Option<Policy>, req: Request, facts: Facts)

  // SELECT SUM(drive_sec) ... WHERE status = 'visited'
  ghost function Driven(rows: seq<Leg>): nat {
    if rows == [] then 0 else (if rows[0].status == Visited then rows[0].driveSec else 0) + Driven(rows[1..])
  }

  predicate Within(since: Option<int>, seconds: int) {
    since.Some? && since.value < seconds * SECOND
  }

  function EventType(reason: string): string {
    if reason == "pod_ack" then "pod" else if reason == "geofence_arrive" then "arrive" else reason
  }

  // The checks of an enabled policy, by the alert that they raise, in the order in which they are made.
  datatype Alert = RequirePoD | TriggerMismatch | MinDwell | GracePeriod | MovingLock | BreakRequired | BreakInProgress | ShiftOff

  function Rank(a: Alert): nat {
    match a
    case RequirePoD => 0
    case TriggerMismatch => 1
    case MinDwell => 2
    case GracePeriod => 3
    case MovingLock => 4
    case BreakRequired => 5
    case BreakInProgress => 6
    case ShiftOff => 7
  }

  ghost predicate Raised(a: Alert, pol: Policy, reason: string, f: Facts, rows: seq<Leg>) {
    match a
    case RequirePoD => pol.requirePoD && reason != "pod_ack"
    case TriggerMismatch => pol.trigger != "" && reason != "" && pol.trigger != reason
    case MinDwell => pol.minDwellSec > 0 && Within(f.since("arrive"), pol.minDwellSec)
    case GracePeriod => pol.gracePeriodSec > 0 && reason != "" && Within(f.since(EventType(reason)), pol.gracePeriodSec)
    case MovingLock => pol.movingLock && f.speedKph.Some? && f.speedKph.value > 3.0
    case BreakRequired => pol.hosMaxDriveSec > 0 && Driven(rows) >= pol.hosMaxDriveSec
    case BreakInProgress => f.driver.Some? && f.driver.value.onBreak == Some(true)
    case ShiftOff => f.driver.Some? && f.driver.value.status == Some("off")
  }

  // No check of a lower rank objects.
  ghost predicate PassedUpTo(n: nat, pol: Policy, reason: string, f: Facts, rows: seq<Leg>) {
    forall a :: Rank(a) < n ==> !Raised(a, pol, reason, f, rows)
  }

  ghost predicate Permitted(c: Call, rows: seq<Leg>) {
    c.req.force || c.autoAdvance == None ||
    (c.autoAdvance.value.enabled && PassedUpTo(8, c.autoAdvance.value, Reason(c.req.reason), c.facts, rows))
  }

  // A refusal by an enabled policy names the first check that objects.
  ghost predicate Alerted(c: Call, rows: seq<Leg>, alerts: seq<Alert>) {
    if Permitted(c, rows) || !c.autoAdvance.value.enabled then alerts == []
    else
      |alerts| == 1 && Raised(alerts[0], c.autoAdvance.value, Reason(c.req.reason), c.facts, rows)
      && PassedUpTo(Rank(alerts[0]), c.autoAdvance.value, Reason(c.req.reason), c.facts, rows)
  }

  // What one call does to the rows, and reports.
  ghost predicate SqlStep(rows: seq<Leg>, allowed: bool, res: Result, now: seq<Leg>) {
    var i := Current(rows);
    if !allowed || i == |rows| then now == rows && res == UNCHANGED
    else
      now == SqlAdvanced(rows) && res.changed && res.fromLeg == rows[i].id && res.fromStop == rows[i].to &&
      ReportsNext(now, rows[i].id, res)
  }

  // The rows of one route, as the queries see them: ordered by number.
  class RouteLegTable {
    var rows: seq<Leg>

    method AdvanceRoute(c: Call) returns (res: Result, alerts: seq<Alert>)
      modifies this
      ensures SqlStep(old(rows), Permitted(c, old(rows)), res, rows)
      ensures if Current(old(rows)) == |old(rows)| then alerts == [] else Alerted(c, old(rows), alerts)
    {
      alerts := [];
      var cur := FirstNotVisited(rows);
      if cur == None { return UNCHANGED, []; }
      var permitted;
      permitted, alerts := CheckPolicy(c, rows);
      if !permitted { return UNCHANGED, alerts; }
      var leg := rows[cur.value];
      rows := SetById(rows, leg.id, Visited);
      rows := SetByNumber(rows, leg.number + 1, InProgress);
      res := NextInResult(rows, Result(true, leg.id, leg.to, "", None));
    }
  }

  method CheckPolicy(c: Call, rows: seq<Leg>) returns (permitted: bool, alerts: seq<Alert>)
    ensures permitted <==> Permitted(c, rows)
    ensures Alerted(c, rows, alerts)
  {
    if c.req.force || c.autoAdvance == None { return true, []; }
    if !c.autoAdvance.value.enabled { return false, []; }
    var reason := c.req.reason;
    if reason == "arrive" { reason := "geofence_arrive"; }
    if reason == "pod" { reason := "pod_ack"; }
    var alert := FirstAlert(c.autoAdvance.value, reason, c.facts, rows);
    permitted, alerts := alert == None, if alert == None then [] else [alert.value];
  }

  method FirstAlert(pol: Policy, reason: string, f: Facts, rows: seq<Leg>) returns (alert: Option<Alert>)
    ensures alert == None ==> PassedUpTo(8, pol, reason, f, rows)
    ensures alert.Some? ==> Raised(alert.value, pol, reason, f, rows) && PassedUpTo(Rank(alert.value), pol, reason, f, rows)
  {
    if pol.requirePoD && reason != "pod_ack" { return Some(RequirePoD); }
    if pol.trigger != "" && reason != "" && pol.trigger != reason { return Some(TriggerMismatch); }
    if pol.minDwellSec > 0 && Within(f.since("arrive"), pol.minDwellSec) { return Some(MinDwell); }
    if pol.gracePeriodSec > 0 && reason != "" {
      var evt := reason;
      if evt == "pod_ack" { evt := "pod"; }
      if evt == "geofence_arrive" { evt := "arrive"; }
      if Within(f.since(evt), pol.gracePeriodSec) { return Some(GracePeriod); }
    }
    if pol.movingLock && f.speedKph.Some? && f.speedKph.value > 3.0 { return Some(MovingLock); }
    if pol.hosMaxDriveSec > 0 {
      var driven := SumDriven(rows);
      if driven >= pol.hosMaxDriveSec { return Some(BreakRequired); }
    }
    if f.driver.Some? {
      if f.driver.value.onBreak == Some(true) { return Some(BreakInProgress); }
      if f.driver.value.status == Some("off") { return Some(ShiftOff); }
    }
    return None;
  }

  method SumDriven(rows: seq<Leg>) returns (sum: nat)
    ensures sum == Driven(rows)
  {
    sum := 0;
    for k := 0 to |rows|
      invariant sum + Driven(rows[k..]) == Driven(rows)
    {
      if rows[k].status == Visited { sum := sum + rows[k].driveSec; }
    }
  }

  // SELECT ... WHERE status <> 'visited' ORDER BY number LIMIT 1
  method FirstNotVisited(rows: seq<Leg>) returns (i: Option<nat>)
    ensures if i == None then Current(rows) == |rows| else i.value == Current(rows) < |rows|
  {
    for k: nat := 0 to |rows|
      invariant forall j :: 0 <= j < k ==> rows[j].status == Visited
    {
      if rows[k].status != Visited {
        CurrentMeans(rows, k);
        return Some(k);
      }
    }
    CurrentMeans(rows, |rows|);
    return None;
  }

  // The first row with this id; |rows| if there is none.
  ghost function RowOf(rows: seq<Leg>, id: string): nat {
    if rows == [] || rows[0].id == id then 0 else 1 + RowOf(rows[1..], id)
  }

  lemma RowOfMeans(rows: seq<Leg>, id: string, i: nat)
    requires i <= |rows| && (forall j :: 0 <= j < i ==> rows[j].id != id) && (i < |rows| ==> rows[i].id == id)
    ensures RowOf(rows, id) == i
  {
    if i > 0 {
      assert forall j :: 0 <= j < i - 1 ==> rows[1..][j] == rows[j + 1];
      RowOfMeans(rows[1..], id, i - 1);
    }
  }

  // The result names the row after the one with this id.
  ghost predicate ReportsNext(rows: seq<Leg>, id: string, res: Result) {
    var i := RowOf(rows, id);
    if i + 1 < |rows| then res.toLeg == rows[i + 1].id && res.toStop == rows[i + 1].to
    else res.toLeg == "" && res.toStop == None
  }

  method NextInResult(rows: seq<Leg>, res0: Result) returns (res: Result)
    requires res0.toLeg == "" && res0.toStop == None
    ensures res == res0.(toLeg := res.toLeg, toStop := res.toStop) && ReportsNext(rows, res0.fromLeg, res)
  {
    res := res0;
    for i := 0 to |rows|
      invariant res == res0 && forall j :: 0 <= j < i ==> rows[j].id != res0.fromLeg
    {
      if rows[i].id == res0.fromLeg {
        RowOfMeans(rows, res0.fromLeg, i);
        if i + 1 < |rows| { res := res.(toLeg := rows[i + 1].id, toStop := rows[i + 1].to); }
        return;
      }
    }
    RowOfMeans(rows, res0.fromLeg, |rows|);
  }

  method SetById(rows: seq<Leg>, id: string, s: LegStatus) returns (now: seq<Leg>)
    ensures now == UpdateId(rows, id, s)
  {
    now := [];
    for k := 0 to |rows|
      invariant |now| == k && forall j :: 0 <= j < k ==> now[j] == UpdateId(rows, id, s)[j]
    {
      now := now + [if rows[k].id == id then rows[k].(status := s) else rows[k]];
    }
  }

  method SetByNumber(rows: seq<Leg>, n: nat, s: LegStatus) returns (now: seq<Leg>)
    ensures now == UpdateNumber(rows, n, s)
  {
    now := [];
    for k := 0 to |rows|
      invariant |now| == k && forall j :: 0 <= j < k ==> now[j] == UpdateNumber(rows, n, s)[j]
    {
      now := now + [if rows[k].number == n then rows[k].(status := s) else rows[k]];
    }
  }

  ghost predicate WellNumbered(rows: seq<Leg>) {
    (forall k :: 0 <= k < |rows| ==> rows[k].number == k + 1) &&
    forall j, k :: 0 <= j < k < |rows| ==> rows[j].id != rows[k].id
  }

  lemma {:induction false} SqlUpdatesAreMemoryUpdates(rows: seq<Leg>)
    requires WellNumbered(rows) && Current(rows) < |rows|
    ensures SqlAdvanced(rows) == AdvancedLegs(rows)
  {
  }

  lemma AdvanceKeepsRows(rows: seq<Leg>)
    ensures |AdvancedLegs(rows)| == |rows|
    ensures forall j :: 0 <= j < |rows| ==> AdvancedLegs(rows)[j] == rows[j].(status := AdvancedLegs(rows)[j].status)
  {
  }

  // On legs numbered 1..m the SQL updates make the same step as the in-memory store: the row that is
  // set in progress by its number is the row that the result names as the next leg.
  lemma {:induction false} SqlStepIsMemoryStep(rows: seq<Leg>, res: Result)
    requires WellNumbered(rows) && Current(rows) < |rows|
    requires res.changed && res.fromLeg == rows[Current(rows)].id && res.fromStop == rows[Current(rows)].to
    requires ReportsNext(SqlAdvanced(rows), rows[Current(rows)].id, res)
    ensures SqlAdvanced(rows) == AdvancedLegs(rows) && res == Report(rows, Current(rows)) && WellNumbered(AdvancedLegs(rows))
  {
    var i := Current(rows);
    SqlUpdatesAreMemoryUpdates(rows);
    AdvanceKeepsRows(rows);
    var now := AdvancedLegs(rows);
    assert now[i].id == rows[i].id;
    forall j | 0 <= j < i ensures now[j].id != rows[i].id { assert now[j].id == rows[j].id; }
    RowOfMeans(now, rows[i].id, i);
    assert forall j :: 0 <= j < |rows| ==> now[j].id == rows[j].id && now[j].to == rows[j].to && now[j].number == rows[j].number;
  }

  lemma EmittedLegsWellNumbered(t: Trip, order: seq<Place>, start: int)
    requires order != [] && forall m: nat, n: nat :: m != n ==> t.ids(m) != t.ids(n)
    ensures WellNumbered(AllLegs(t, order, start))
  {
    LegsNumbered(t, order, start);
  }

  // ----- every run of the SQL store -----

  // A run of calls, with the rows before and after each and the reported results.
  ghost predicate SqlRun(states: seq<seq<Leg>>, calls: seq<Call>, results: seq<Result>) {
    |states| == |calls| + 1 && |results| == |calls| && forall n: nat :: n < |calls| ==> SqlCall(states, calls, results, n)
  }

  ghost predicate SqlCall(states: seq<seq<Leg>>, calls: seq<Call>, results: seq<Result>, n: nat)
    requires n < |calls| == |results| && |states| == |calls| + 1
  {
    SqlStep(states[n], Permitted(calls[n], states[n]), results[n], states[n + 1])
  }

  // How many of the first n calls changed something.
  ghost function ChangedBy(results: seq<Result>, n: nat): nat
    requires n <= |results|
  {
    if n == 0 then 0 else ChangedBy(results, n - 1) + (if results[n - 1].changed then 1 else 0)
  }

  // A call changes something exactly if it is permitted and a leg is left, and then reports that leg.
  ghost predicate CallEffect(planned: seq<Leg>, k: nat, allowed: bool, res: Result) {
    (res.changed <==> allowed && k < |planned|) && (res.changed ==> k < |planned| && res == Report(planned, k))
  }

  lemma SqlRunStep(planned: seq<Leg>, rows: seq<Leg>, k: nat, allowed: bool, res: Result, now: seq<Leg>)
    requires Progress(planned, rows, k) && WellNumbered(rows) && SqlStep(rows, allowed, res, now)
    ensures CallEffect(planned, k, allowed, res)
    ensures WellNumbered(now) && Progress(planned, now, if res.changed then k + 1 else k)
  {
    ProgressAdvances(planned, rows, k);
    if allowed && k < |planned| { SqlStepIsMemoryStep(rows, res); }
  }

  lemma {:induction false} SqlRunFromPlanned(planned: seq<Leg>, states: seq<seq<Leg>>, calls: seq<Call>, results: seq<Result>, n: nat)
    requires SqlRun(states, calls, results) && WellNumbered(planned) && states[0] == planned && Progress(planned, planned, 0)
    requires n <= |calls|
    ensures WellNumbered(states[n]) && Progress(planned, states[n], ChangedBy(results, n))
    ensures n < |calls| ==> CallEffect(planned, ChangedBy(results, n), Permitted(calls[n], states[n]), results[n])
  {
    if n > 0 {
      SqlRunFromPlanned(planned, states, calls, results, n - 1);
      assert SqlCall(states, calls, results, n - 1);
      SqlRunStep(planned, states[n - 1], ChangedBy(results, n - 1), Permitted(calls[n - 1], states[n - 1]), results[n - 1], states[n]);
    }
    if n < |calls| {
      assert SqlCall(states, calls, results, n);
      SqlRunStep(planned, states[n], ChangedBy(results, n), Permitted(calls[n], states[n]), results[n], states[n + 1]);
    }
  }

  // Whatever the policies and events, a run on the legs that the planner emits visits them one after the
  // other: the n-th effective call reports leg n and the next leg, and none changes anything once all are
  // visited.
  lemma SqlRunsOfEmittedLegs(t: Trip, order: seq<Place>, start: int, states: seq<seq<Leg>>, calls: seq<Call>, results: seq<Result>)
    requires order != [] && forall m: nat, n: nat :: m != n ==> t.ids(m) != t.ids(n)
    requires SqlRun(states, calls, results) && states[0] == AllLegs(t, order, start)
    ensures forall n: nat :: n <= |calls| ==> Progress(states[0], states[n], ChangedBy(results, n))
    ensures forall n: nat :: n < |calls| ==> CallEffect(states[0], ChangedBy(results, n), Permitted(calls[n], states[n]), results[n])
  {
    EmittedLegsWellNumbered(t, order, start);
    EmittedLegsArePlanned(t, order, start);
    forall n: nat | n <= |calls|
      ensures Progress(states[0], states[n], ChangedBy(results, n))
      ensures n < |calls| ==> CallEffect(states[0], ChangedBy(results, n), Permitted(calls[n], states[n]), results[n])
    {
      SqlRunFromPlanned(states[0], states, calls, results, n);
    }
  }
}
