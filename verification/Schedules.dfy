// schedulePlan: arrival times, waiting, planned breaks and time-window feasibility
// (internal/opt/alns_engine.go:389-428).
module Schedules {
  import opened Sequences
  import opened Paths
  import opened Problems
  import Breaks

  // Where the driver is, the elapsed time, and the driving since the last break.
  datatype Clock = Clock(at: Place, t: real, since: real)

  datatype Schedule = Schedule(drive: real, dist: real, late: real, feasible: bool)

  // Conversion of a float to an integer drops the fraction.
  function Truncate(x: real): int {
    if x >= 0.0 then x.Floor else -((-x).Floor)
  }

  predicate NeedsBreak(p: Problem, c: Clock, idx: nat)
    requires p.speedKph > 0.0
  {
    p.hosMaxDriveSec > 0 && Truncate(c.since + DriveSec(p, c.at, idx)) > p.hosMaxDriveSec
  }

  // Drive to node idx, after a break if one is due, and wait for its window to open.
  function Reach(p: Problem, c: Clock, idx: nat): Clock
    requires p.speedKph > 0.0 && idx < |p.nodes|
  {
    var drive := DriveSec(p, c.at, idx);
    var t := c.t + (if NeedsBreak(p, c, idx) then p.breakSec as real else 0.0) + drive;
    var since := (if NeedsBreak(p, c, idx) then 0.0 else c.since) + drive;
    match Opens(p.nodes[idx])
    case Some(ws) => Clock(idx, if t < ws then ws else t, since)
    case None => Clock(idx, t, since)
  }

  predicate TooLate(p: Problem, idx: nat, arrival: real)
    requires idx < |p.nodes|
  {
    var we := Closes(p.nodes[idx]);
    we.Some? && arrival > we.value
  }

  function Serve(p: Problem, c: Clock, idx: nat): Clock
    requires idx < |p.nodes|
  {
    c.(t := c.t + p.nodes[idx].serviceSec as real)
  }

  // The schedule of the remaining stops o from clock c, with `dist` metres already driven.
  ghost function RunFrom(p: Problem, c: Clock, dist: real, o: Order): Schedule
    requires p.speedKph > 0.0 && KnownNodes(p, o)
    decreases |o|
  {
    if o == [] then Schedule(c.t, dist, 0.0, true)
    else
      var r := Reach(p, c, o[0]);
      var dist' := dist + p.d(c.at, o[0]);
      if TooLate(p, o[0], r.t) then Schedule(r.t, dist', r.t - Closes(p.nodes[o[0]]).value, false)
      else RunFrom(p, Serve(p, r, o[0]), dist', o[1..])
  }

  function StartClock(p: Problem, v: Vehicle, o: Order): Clock {
    Clock(StartPlace(p, v, o), 0.0, 0.0)
  }

  ghost function ScheduleOf(p: Problem, v: Vehicle, o: Order): Schedule
    requires p.speedKph > 0.0 && KnownNodes(p, o)
  {
    RunFrom(p, StartClock(p, v, o), 0.0, o)
  }

  ghost predicate Feasible(p: Problem, v: Vehicle, o: Order)
    requires p.speedKph > 0.0 && KnownNodes(p, o)
  {
    ScheduleOf(p, v, o).feasible
  }

  lemma RunFromStep(p: Problem, c: Clock, dist: real, o: Order, k: nat)
    requires p.speedKph > 0.0 && KnownNodes(p, o) && k < |o|
    ensures var r := Reach(p, c, o[k]);
            && RunFrom(p, c, dist, o[k..])
            == if TooLate(p, o[k], r.t) then Schedule(r.t, dist + p.d(c.at, o[k]), r.t - Closes(p.nodes[o[k]]).value, false)
               else RunFrom(p, Serve(p, r, o[k]), dist + p.d(c.at, o[k]), o[k + 1..])
  {
    assert o[k..][0] == o[k] && o[k..][1..] == o[k + 1..];
  }

  method SchedulePlan(p: Problem, v: Vehicle, o: Order) returns (s: Schedule)
    requires p.speedKph > 0.0 && KnownNodes(p, o)
    ensures s == ScheduleOf(p, v, o)
  {
    var speed := p.speedKph / 3.6;
    var cur: Place := match v.start case Some(depot) => depot case None => if o != [] then o[0] else p.origin;
    var t, distTotal, lateTotal, driveSinceBreak := 0.0, 0.0, 0.0, 0.0;
    assert o[0..] == o;
    for k := 0 to |o|
      invariant lateTotal == 0.0
      invariant RunFrom(p, Clock(cur, t, driveSinceBreak), distTotal, o[k..]) == ScheduleOf(p, v, o)
    {
      ghost var c := Clock(cur, t, driveSinceBreak);
      RunFromStep(p, c, distTotal, o, k);
      var nd := p.nodes[o[k]];
      var d := p.d(cur, o[k]);
      var drive := d / speed;
      if p.hosMaxDriveSec > 0 && Truncate(driveSinceBreak + drive) > p.hosMaxDriveSec {
        t := t + p.breakSec as real;
        driveSinceBreak := 0.0;
      }
      t := t + drive;
      driveSinceBreak := driveSinceBreak + drive;
      var arr := t;
      if nd.tw.Some? && nd.tw.value.start != ZERO_TIME {
        var ws := nd.tw.value.start;
        if arr < ws { arr := ws; t := arr; }
      }
      assert Clock(o[k], t, driveSinceBreak) == Reach(p, c, o[k]) && arr == t;
      if nd.tw.Some? && nd.tw.value.end != ZERO_TIME {
        var we := nd.tw.value.end;
        if arr > we { return Schedule(t, distTotal + d, lateTotal + (arr - we), false); }
      }
      t := t + nd.serviceSec as real;
      distTotal := distTotal + d;
      cur := o[k];
    }
    return Schedule(t, distTotal, lateTotal, true);
  }

  // A plan is feasible exactly when it reports no lateness, and then the distance is that of the whole path.
  lemma FeasibleMeansNotLate(p: Problem, c: Clock, dist: real, o: Order)
    requires p.speedKph > 0.0 && KnownNodes(p, o)
    ensures RunFrom(p, c, dist, o).feasible <==> RunFrom(p, c, dist, o).late == 0.0
    ensures RunFrom(p, c, dist, o).feasible ==> RunFrom(p, c, dist, o).dist == dist + Length(p.d, [c.at] + o)
    decreases |o|
  {
    if o != [] {
      var r := Reach(p, c, o[0]);
      assert ([c.at] + o)[1..] == [o[0]] + o[1..] == o;
      if !TooLate(p, o[0], r.t) {
        FeasibleMeansNotLate(p, Serve(p, r, o[0]), dist + p.d(c.at, o[0]), o[1..]);
      }
    }
  }

  // Without a deadline no plan is late.
  lemma NoDeadlineOnTime(p: Problem, c: Clock, dist: real, o: Order)
    requires p.speedKph > 0.0 && KnownNodes(p, o) && forall k :: 0 <= k < |o| ==> Closes(p.nodes[o[k]]) == None
    ensures RunFrom(p, c, dist, o).feasible
    decreases |o|
  {
  }

  // Wherever the driver goes next from clock c, the arrival is after `late`.
  ghost predicate Behind(p: Problem, c: Clock, late: real)
    requires p.speedKph > 0.0
  {
    forall y: nat :: y < |p.nodes| ==> c.t + DriveSec(p, c.at, y) > late
  }

  lemma BehindStep(p: Problem, c: Clock, late: real, x: nat)
    requires Usable(p) && ServiceNonNegative(p) && p.breakSec >= 0 && x < |p.nodes| && Behind(p, c, late)
    ensures Reach(p, c, x).t > late && Behind(p, Serve(p, Reach(p, c, x), x), late)
  {
    var next := Serve(p, Reach(p, c, x), x);
    forall y: nat | y < |p.nodes| ensures next.t + DriveSec(p, next.at, y) > late { DriveSecNonNegative(p, next.at, y); }
  }

  // A stop that has closed by then makes the rest of the route infeasible.
  lemma {:induction false} NeverInTime(p: Problem, c: Clock, dist: real, o: Order, x: nat)
    requires Usable(p) && ServiceNonNegative(p) && p.breakSec >= 0 && KnownNodes(p, o) && x in o && x < |p.nodes|
    requires Closes(p.nodes[x]).Some? && Behind(p, c, Closes(p.nodes[x]).value)
    ensures !RunFrom(p, c, dist, o).feasible
    decreases |o|
  {
    var late := Closes(p.nodes[x]).value;
    BehindStep(p, c, late, o[0]);
    if o[0] != x { NeverInTime(p, Serve(p, Reach(p, c, o[0]), o[0]), dist + p.d(c.at, o[0]), o[1..], x); }
  }

  // ----- planned breaks -----

  ghost function Drives(p: Problem, at: Place, o: Order): seq<real>
    requires p.speedKph > 0.0
    decreases |o|
  {
    if o == [] then [] else [DriveSec(p, at, o[0])] + Drives(p, o[0], o[1..])
  }

  // Before which stops of o the schedule takes a break.
  ghost function BreaksTaken(p: Problem, c: Clock, o: Order): seq<bool>
    requires p.speedKph > 0.0 && KnownNodes(p, o)
    decreases |o|
  {
    if o == [] then []
    else [NeedsBreak(p, c, o[0])] + BreaksTaken(p, Serve(p, Reach(p, c, o[0]), o[0]), o[1..])
  }

  ghost function WithinLimit(p: Problem): real -> bool {
    x => p.hosMaxDriveSec <= 0 || Truncate(x) <= p.hosMaxDriveSec
  }

  ghost function ServiceTotal(p: Problem, o: Order): real
    requires KnownNodes(p, o)
  {
    if o == [] then 0.0 else p.nodes[o[0]].serviceSec as real + ServiceTotal(p, o[1..])
  }

  lemma ReachSince(p: Problem, c: Clock, x: nat)
    requires p.speedKph > 0.0 && x < |p.nodes|
    ensures NeedsBreak(p, c, x) <==> !WithinLimit(p)(c.since + DriveSec(p, c.at, x))
    ensures Reach(p, c, x).since == Breaks.Since(c.since, NeedsBreak(p, c, x), DriveSec(p, c.at, x))
    ensures Reach(p, c, x).at == x
  {
  }

  lemma {:induction false} BreaksTakenAreLazy(p: Problem, c: Clock, o: Order)
    requires p.speedKph > 0.0 && KnownNodes(p, o)
    ensures BreaksTaken(p, c, o) == Breaks.Lazy(WithinLimit(p), c.since, Drives(p, c.at, o))
    decreases |o|
  {
    if o != [] {
      ReachSince(p, c, o[0]);
      BreaksTakenAreLazy(p, Serve(p, Reach(p, c, o[0]), o[0]), o[1..]);
    }
  }

  lemma DrivesAreLegs(p: Problem, at: Place, o: Order)
    requires Usable(p)
    ensures Breaks.Legs(Drives(p, at, o))
    decreases |o|
  {
    if o != [] {
      DriveSecNonNegative(p, at, o[0]);
      DrivesAreLegs(p, o[0], o[1..]);
    }
  }

  // Among all ways to place breaks that respect the truncated limit, schedulePlan's has the fewest,
  // and none of its unbroken stretches exceeds the limit unless it is one over-long leg.
  lemma ScheduleBreaksBest(p: Problem, v: Vehicle, o: Order, other: seq<bool>)
    requires Usable(p) && KnownNodes(p, o)
    ensures var c, legs := StartClock(p, v, o), Drives(p, StartPlace(p, v, o), o);
            var taken := BreaksTaken(p, c, o);
            && |taken| == |legs|
            && (Breaks.Allowed(WithinLimit(p), 0.0, legs, other) ==> Breaks.Count(taken) <= Breaks.Count(other))
            && (Breaks.EachFits(WithinLimit(p), legs) ==> Breaks.Allowed(WithinLimit(p), 0.0, legs, taken))
            && forall lo, hi :: 0 <= lo < hi <= |legs| && (forall k :: lo < k < hi ==> !taken[k]) ==>
                 WithinLimit(p)(Breaks.Sum(legs[lo..hi])) || hi == lo + 1
  {
    var c, legs, fits := StartClock(p, v, o), Drives(p, StartPlace(p, v, o), o), WithinLimit(p);
    BreaksTakenAreLazy(p, c, o);
    DrivesAreLegs(p, c.at, o);
    Breaks.LazyLength(fits, 0.0, legs);
    if Breaks.Allowed(fits, 0.0, legs, other) {
      Breaks.FewestBreaks(fits, 0.0, legs, other);
    }
    if Breaks.EachFits(fits, legs) {
      Breaks.LazyIsAllowed(fits, 0.0, legs);
    }
    forall lo, hi | 0 <= lo < hi <= |legs| && (forall k :: lo < k < hi ==> !BreaksTaken(p, c, o)[k])
      ensures fits(Breaks.Sum(legs[lo..hi])) || hi == lo + 1
    {
      Breaks.StretchFits(fits, 0.0, legs, lo, hi);
    }
  }

  lemma FinishStep(p: Problem, c: Clock, x: nat)
    requires p.speedKph > 0.0 && x < |p.nodes| && Opens(p.nodes[x]) == None
    ensures Reach(p, c, x).t == c.t + DriveSec(p, c.at, x) + (if NeedsBreak(p, c, x) then p.breakSec as real else 0.0)
    ensures Serve(p, Reach(p, c, x), x).t == Reach(p, c, x).t + p.nodes[x].serviceSec as real
    ensures Reach(p, c, x).at == x
  {
  }

  lemma {:induction false} FinishAddsBreaks(p: Problem, c: Clock, dist: real, o: Order)
    requires p.speedKph > 0.0 && KnownNodes(p, o) && NeverWaits(p, o)
    requires RunFrom(p, c, dist, o).feasible
    ensures RunFrom(p, c, dist, o).drive
         == c.t + Breaks.Sum(Drives(p, c.at, o)) + ServiceTotal(p, o) + Breaks.BreakTime(BreaksTaken(p, c, o), p.breakSec as real)
    decreases |o|
  {
    if o != [] {
      var next := Serve(p, Reach(p, c, o[0]), o[0]);
      FinishAddsBreaks(p, next, dist + p.d(c.at, o[0]), o[1..]);
      FinishStep(p, c, o[0]);
    }
  }

  // No stop has a window to wait for.
  ghost predicate NeverWaits(p: Problem, o: Order)
    requires KnownNodes(p, o)
  {
    forall k :: 0 <= k < |o| ==> Opens(p.nodes[o[k]]) == None
  }

  // With no window to wait for, the finishing time is driving plus service plus one break length for
  // each break taken.
  lemma {:induction false} FinishCountsBreaks(p: Problem, v: Vehicle, o: Order)
    requires p.speedKph > 0.0 && KnownNodes(p, o) && NeverWaits(p, o) && Feasible(p, v, o)
    ensures var c := StartClock(p, v, o);
            && ScheduleOf(p, v, o).drive
            == Breaks.Sum(Drives(p, c.at, o)) + ServiceTotal(p, o) + Breaks.Times(Breaks.Count(BreaksTaken(p, c, o)), p.breakSec as real)
  {
    var c := StartClock(p, v, o);
    var taken := BreaksTaken(p, c, o);
    FinishAddsBreaks(p, c, 0.0, o);
    assert Breaks.BreakTime(taken, p.breakSec as real) == Breaks.Times(Breaks.Count(taken), p.breakSec as real) by {
      Breaks.BreakTimeIsProportional(taken, p.breakSec as real);
    }
  }

  // The arrival at x, from `at` at time t, after a break or without one.
  function ArriveWith(p: Problem, at: Place, t: real, x: nat, rest: bool): real
    requires p.speedKph > 0.0
  {
    t + DriveSec(p, at, x) + (if rest then p.breakSec as real else 0.0)
  }

  // With breaks before the given stops, no stop is reached after it closes.
  ghost predicate OnTimeWith(p: Problem, at: Place, t: real, o: Order, breaks: seq<bool>)
    requires p.speedKph > 0.0 && KnownNodes(p, o) && |breaks| == |o|
    decreases |o|
  {
    o != [] ==>
      var arrival := ArriveWith(p, at, t, o[0], breaks[0]);
      !TooLate(p, o[0], arrival) && OnTimeWith(p, o[0], arrival + p.nodes[o[0]].serviceSec as real, o[1..], breaks[1..])
  }

  ghost function FinishWith(p: Problem, at: Place, t: real, o: Order, breaks: seq<bool>): real
    requires p.speedKph > 0.0 && KnownNodes(p, o) && |breaks| == |o|
    decreases |o|
  {
    if o == [] then t
    else FinishWith(p, o[0], ArriveWith(p, at, t, o[0], breaks[0]) + p.nodes[o[0]].serviceSec as real, o[1..], breaks[1..])
  }

  // The clock c is no later than t and has driven no longer since its last break than s, or it is a
  // break's length ahead.
  ghost predicate BreakAhead(p: Problem, c: Clock, t: real, s: real) {
    c.since >= 0.0 && s >= 0.0 && ((c.t <= t && c.since <= s) || c.t + p.breakSec as real <= t)
  }

  lemma BreakAheadStep(p: Problem, c: Clock, t: real, s: real, x: nat, rest: bool)
    requires Usable(p) && x < |p.nodes| && Opens(p.nodes[x]) == None && p.breakSec >= 0 && BreakAhead(p, c, t, s)
    requires WithinLimit(p)(Breaks.Since(s, rest, DriveSec(p, c.at, x)))
    ensures Reach(p, c, x).t <= ArriveWith(p, c.at, t, x, rest)
    ensures BreakAhead(p, Serve(p, Reach(p, c, x), x), ArriveWith(p, c.at, t, x, rest) + p.nodes[x].serviceSec as real,
                       Breaks.Since(s, rest, DriveSec(p, c.at, x)))
  {
    DriveSecNonNegative(p, c.at, x);
    FinishStep(p, c, x);
    ReachSince(p, c, x);
  }

  lemma {:induction false} LazyBreaksStayAhead(p: Problem, c: Clock, dist: real, t: real, s: real, o: Order, breaks: seq<bool>)
    requires Usable(p) && KnownNodes(p, o) && NeverWaits(p, o) && p.breakSec >= 0 && BreakAhead(p, c, t, s)
    requires Breaks.Allowed(WithinLimit(p), s, Drives(p, c.at, o), breaks) && |breaks| == |o| && OnTimeWith(p, c.at, t, o, breaks)
    ensures RunFrom(p, c, dist, o).feasible && RunFrom(p, c, dist, o).drive <= FinishWith(p, c.at, t, o, breaks)
    decreases |o|
  {
    if o != [] {
      var x, drive := o[0], DriveSec(p, c.at, o[0]);
      var arrival := ArriveWith(p, c.at, t, x, breaks[0]);
      BreakAheadStep(p, c, t, s, x, breaks[0]);
      LazyBreaksStayAhead(p, Serve(p, Reach(p, c, x), x), dist + p.d(c.at, x), arrival + p.nodes[x].serviceSec as real,
                          Breaks.Since(s, breaks[0], drive), o[1..], breaks[1..]);
    }
  }

  // With no window to wait for, if any allowed placement of breaks meets every deadline then so does
  // that of schedulePlan, and none finishes earlier.
  lemma ScheduleBreaksEarliest(p: Problem, v: Vehicle, o: Order, breaks: seq<bool>)
    requires Usable(p) && KnownNodes(p, o) && NeverWaits(p, o) && p.breakSec >= 0
    requires Breaks.Allowed(WithinLimit(p), 0.0, Drives(p, StartPlace(p, v, o), o), breaks) && |breaks| == |o|
    requires OnTimeWith(p, StartPlace(p, v, o), 0.0, o, breaks)
    ensures Feasible(p, v, o) && ScheduleOf(p, v, o).drive <= FinishWith(p, StartPlace(p, v, o), 0.0, o, breaks)
  {
    LazyBreaksStayAhead(p, StartClock(p, v, o), 0.0, 0.0, 0.0, o, breaks);
  }

  // ----- removing nodes keeps a route on time -----

  function Without(o: Order, gone: set<nat>): Order {
    if o == [] then [] else (if o[0] in gone then [] else [o[0]]) + Without(o[1..], gone)
  }

  lemma WithoutMembers(o: Order, gone: set<nat>)
    ensures forall x :: x in Without(o, gone) <==> x in o && x !in gone
    ensures forall x :: multiset(Without(o, gone))[x] == if x in gone then 0 else multiset(o)[x]
  {
    if o != [] {
      WithoutMembers(o[1..], gone);
      assert o == [o[0]] + o[1..];
    }
  }

  ghost predicate ServiceNonNegative(p: Problem) {
    forall i :: 0 <= i < |p.nodes| ==> p.nodes[i].serviceSec >= 0
  }

  // Clock c is ahead of clock b on the way to the next stop of o.
  ghost predicate Ahead(p: Problem, c: Clock, b: Clock, o: Order)
    requires p.speedKph > 0.0
  {
    o != [] ==> c.t + DriveSec(p, c.at, o[0]) <= b.t + DriveSec(p, b.at, o[0])
  }

  // With no driving limit a stop is reached after exactly the drive, or when its window opens.
  lemma ReachWithoutLimit(p: Problem, c: Clock, x: nat)
    requires p.speedKph > 0.0 && x < |p.nodes| && p.hosMaxDriveSec <= 0
    ensures Reach(p, c, x).at == x
    ensures Reach(p, c, x).t == match Opens(p.nodes[x])
                                case Some(ws) => (if c.t + DriveSec(p, c.at, x) < ws then ws else c.t + DriveSec(p, c.at, x))
                                case None => c.t + DriveSec(p, c.at, x)
  {
  }

  // The clock that skips x is still ahead of the clock that served x.
  lemma SkipKeepsAhead(p: Problem, c: Clock, b: Clock, x: nat, next: nat)
    requires Usable(p) && ServiceNonNegative(p) && x < |p.nodes| && p.hosMaxDriveSec <= 0
    requires c.t + DriveSec(p, c.at, next) <= b.t + DriveSec(p, b.at, next)
    ensures c.t + DriveSec(p, c.at, next) <= Serve(p, Reach(p, b, x), x).t + DriveSec(p, x, next)
  {
    DriveSecTriangle(p, b.at, x, next);
    ReachWithoutLimit(p, b, x);
  }

  // The clock that reaches x first is not too late there, and is first to leave.
  lemma VisitKeepsAhead(p: Problem, c: Clock, b: Clock, x: nat)
    requires p.speedKph > 0.0 && x < |p.nodes| && p.hosMaxDriveSec <= 0
    requires c.t + DriveSec(p, c.at, x) <= b.t + DriveSec(p, b.at, x)
    requires !TooLate(p, x, Reach(p, b, x).t)
    ensures !TooLate(p, x, Reach(p, c, x).t)
    ensures Serve(p, Reach(p, c, x), x).t <= Serve(p, Reach(p, b, x), x).t
    ensures Serve(p, Reach(p, c, x), x).at == Serve(p, Reach(p, b, x), x).at == x
  {
  }

  lemma {:induction false} StaysAhead(p: Problem, c: Clock, b: Clock, dc: real, db: real, o: Order, gone: set<nat>)
    requires Usable(p) && ServiceNonNegative(p) && KnownNodes(p, o) && p.hosMaxDriveSec <= 0
    requires RunFrom(p, b, db, o).feasible
    requires Ahead(p, c, b, Without(o, gone))
    ensures KnownNodes(p, Without(o, gone)) && RunFrom(p, c, dc, Without(o, gone)).feasible
    decreases |o|
  {
    if o != [] {
      var left, x := Without(o, gone), o[0];
      var b', c' := Serve(p, Reach(p, b, x), x), Serve(p, Reach(p, c, x), x);
      assert !TooLate(p, x, Reach(p, b, x).t);
      if x in gone {
        assert left == Without(o[1..], gone);
        if left != [] { SkipKeepsAhead(p, c, b, x, left[0]); }
        StaysAhead(p, c, b', dc, db + p.d(b.at, x), o[1..], gone);
      } else {
        VisitKeepsAhead(p, c, b, x);
        assert left == [x] + left[1..] && left[1..] == Without(o[1..], gone);
        StaysAhead(p, c', b', dc + p.d(c.at, x), db + p.d(b.at, x), o[1..], gone);
      }
    }
  }

  // Destroying part of a feasible plan leaves it feasible when no driving limit is set.
  lemma RemovalKeepsFeasible(p: Problem, v: Vehicle, o: Order, gone: set<nat>)
    requires Usable(p) && ServiceNonNegative(p) && KnownNodes(p, o) && p.hosMaxDriveSec <= 0
    requires Feasible(p, v, o)
    ensures KnownNodes(p, Without(o, gone)) && Feasible(p, v, Without(o, gone))
  {
    var left := Without(o, gone);
    var c, b := StartClock(p, v, left), StartClock(p, v, o);
    if left != [] {
      WithoutMembers(o, gone);
      assert left[0] in o;
      DriveSecNonNegative(p, c.at, left[0]);
      DriveSecNonNegative(p, b.at, left[0]);
    }
    StaysAhead(p, c, b, 0.0, 0.0, o, gone);
  }

  // ----- and only then: any positive driving limit has a plan that a removal makes late -----

  // Removing `gone` from a feasible plan leaves it feasible.
  ghost predicate SurvivesRemoval(p: Problem, v: Vehicle, o: Order, gone: set<nat>) {
    Usable(p) && ServiceNonNegative(p) && KnownNodes(p, o) && Feasible(p, v, o) ==>
      KnownNodes(p, Without(o, gone)) && Feasible(p, v, Without(o, gone))
  }

  ghost predicate RemovalSafe(limit: int) {
    forall p: Problem, v: Vehicle, o: Order, gone: set<nat> :: p.hosMaxDriveSec == limit ==> SurvivesRemoval(p, v, o, gone)
  }

  // Distances of the witness, in units of u: every leg is between 3u and 6u, so detours never help.
  function WitnessDistance(u: real): Distance {
    (x, y) =>
      if x == y then 0.0
      else if x + y == 1 then 5.0 * u
      else if x + y == 3 && x * y == 2 then 4.0 * u
      else if x + y == 5 && x * y == 6 then 3.0 * u
      else 6.0 * u
  }

  function WitnessProblem(limit: nat): Problem {
    var u := (limit + 1) as real / 11.0;
    var free := Node(0, None, 0.0, 0.0, []);
    var last := Node(0, Some(Window(ZERO_TIME, 18.0 * u + (limit + 1) as real)), 0.0, 0.0, []);
    Problem([free, free, free, free, last], [], WitnessDistance(u), 0, 3.6, map[], limit, limit + 1, 0, [], [])
  }

  lemma WitnessUsable(limit: nat)
    ensures Usable(WitnessProblem(limit))
  {
  }

  // One step of the witness: with no window to wait for, the clock moves by the drive and the break.
  lemma {:induction false} WitnessStep(p: Problem, c: Clock, dist: real, o: Order, drive: real, next: Clock)
    requires p.speedKph == 3.6 && KnownNodes(p, o) && o != [] && Opens(p.nodes[o[0]]) == None
    requires drive == p.d(c.at, o[0]) >= 0.0 && c.since >= 0.0 && p.nodes[o[0]].serviceSec == 0 && p.hosMaxDriveSec > 0
    requires next == if c.since + drive >= (p.hosMaxDriveSec + 1) as real
                     then Clock(o[0], c.t + p.breakSec as real + drive, drive)
                     else Clock(o[0], c.t + drive, c.since + drive)
    ensures Serve(p, Reach(p, c, o[0]), o[0]) == next && Reach(p, c, o[0]).t == next.t
    ensures RunFrom(p, c, dist, o).feasible
        <==> !TooLate(p, o[0], next.t) && RunFrom(p, next, dist + drive, o[1..]).feasible
  {
  }

  lemma {:induction false} WitnessWithAll(limit: nat)
    requires limit > 0
    ensures var p := WitnessProblem(limit);
            Feasible(p, Vehicle(0.0, 0.0, [], Some(0)), [1, 2, 3, 4])
  {
    var p := WitnessProblem(limit);
    var u, b := (limit + 1) as real / 11.0, (limit + 1) as real;
    var o: Order := [1, 2, 3, 4];
    assert o[1..] == [2, 3, 4] && o[1..][1..] == [3, 4] && o[1..][1..][1..] == [4];
    WitnessStep(p, Clock(0, 0.0, 0.0), 0.0, o, 5.0 * u, Clock(1, 5.0 * u, 5.0 * u));
    WitnessStep(p, Clock(1, 5.0 * u, 5.0 * u), 5.0 * u, [2, 3, 4], 4.0 * u, Clock(2, 9.0 * u, 9.0 * u));
    WitnessStep(p, Clock(2, 9.0 * u, 9.0 * u), 9.0 * u, [3, 4], 3.0 * u, Clock(3, 12.0 * u + b, 3.0 * u));
    WitnessStep(p, Clock(3, 12.0 * u + b, 3.0 * u), 12.0 * u, [4], 6.0 * u, Clock(4, 18.0 * u + b, 9.0 * u));
  }

  lemma {:induction false} WitnessWithoutTwo(limit: nat)
    requires limit > 0
    ensures var p := WitnessProblem(limit);
            !Feasible(p, Vehicle(0.0, 0.0, [], Some(0)), [1, 3, 4])
  {
  }

  lemma WitnessRemoval(o: Order)
    requires o == [1, 2, 3, 4]
    ensures Without(o, {2}) == [1, 3, 4]
  {
    WithoutStep([4], {2});
    WithoutStep([3, 4], {2});
    WithoutStep([2, 3, 4], {2});
    WithoutStep(o, {2});
    assert o[1..] == [2, 3, 4];
  }

  lemma WithoutStep(o: Order, gone: set<nat>)
    requires o != []
    ensures Without(o, gone) == if o[0] in gone then Without(o[1..], gone) else [o[0]] + Without(o[1..], gone)
  {
  }

  lemma WitnessRefutes(limit: nat)
    requires limit > 0
    ensures !SurvivesRemoval(WitnessProblem(limit), Vehicle(0.0, 0.0, [], Some(0)), [1, 2, 3, 4], {2})
  {
    var p := WitnessProblem(limit);
    WitnessRemoval([1, 2, 3, 4]);
    assert Usable(p) by { WitnessUsable(limit); }
    assert ServiceNonNegative(p) && KnownNodes(p, [1, 2, 3, 4]) && KnownNodes(p, [1, 3, 4]);
    assert Feasible(p, Vehicle(0.0, 0.0, [], Some(0)), [1, 2, 3, 4]) by { WitnessWithAll(limit); }
    assert !Feasible(p, Vehicle(0.0, 0.0, [], Some(0)), [1, 3, 4]) by { WitnessWithoutTwo(limit); }
    Refutes(p, Vehicle(0.0, 0.0, [], Some(0)), [1, 2, 3, 4], {2}, [1, 3, 4]);
  }

  lemma Refutes(p: Problem, v: Vehicle, o: Order, gone: set<nat>, left: Order)
    requires Usable(p) && ServiceNonNegative(p) && KnownNodes(p, o) && Feasible(p, v, o)
    requires Without(o, gone) == left && KnownNodes(p, left) && !Feasible(p, v, left)
    ensures !SurvivesRemoval(p, v, o, gone)
  {
  }

  // Removal is safe for every plan exactly when no driving limit is set.
  lemma RemovalSafeExactly(limit: int)
    ensures RemovalSafe(limit) <==> limit <= 0
  {
    if limit <= 0 {
      forall p: Problem, v: Vehicle, o: Order, gone: set<nat> | p.hosMaxDriveSec == limit
        ensures SurvivesRemoval(p, v, o, gone)
      {
        if Usable(p) && ServiceNonNegative(p) && KnownNodes(p, o) && Feasible(p, v, o) {
          RemovalKeepsFeasible(p, v, o, gone);
        }
      }
    } else {
      WitnessRefutes(limit);
      assert WitnessProblem(limit).hosMaxDriveSec == limit;
    }
  }
}
