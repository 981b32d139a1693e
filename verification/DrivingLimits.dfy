// A driving limit in the plan and in the policy (internal/store/postgres.go:766-774, 1157-1184). The
// planner takes a break before a stretch exceeds the limit and then counts from zero; the policy check
// adds up all driving of the visited legs, whatever the breaks between them.
module DrivingLimits {
  import opened Sequences
  import opened Paths
  import opened LegEmission
  import opened RouteAdvance

  // The driving of the first k legs.
  ghost function Driving(legs: seq<Leg>, k: nat): nat
    requires k <= |legs|
  {
    if k == 0 then 0 else legs[0].driveSec + Driving(legs[1..], k - 1)
  }

  lemma {:induction false} DrivingGrows(legs: seq<Leg>, j: nat, k: nat)
    requires j <= k <= |legs|
    ensures Driving(legs, j) <= Driving(legs, k)
  {
    if j > 0 { DrivingGrows(legs[1..], j - 1, k - 1); }
  }

  lemma {:induction false} NoneDriven(rows: seq<Leg>)
    requires forall j :: 0 <= j < |rows| ==> rows[j].status != Visited
    ensures Driven(rows) == 0
  {
    if rows != [] { NoneDriven(rows[1..]); }
  }

  lemma {:induction false} ProgressDriven(planned: seq<Leg>, rows: seq<Leg>, k: nat)
    requires Progress(planned, rows, k)
    ensures Driven(rows) == Driving(planned, k)
  {
    if k == 0 {
      NoneDriven(rows);
    } else {
      assert rows[0].status == Visited && rows[0].driveSec == planned[0].driveSec;
      ProgressDriven(planned[1..], rows[1..], k - 1);
    }
  }

  // An unforced call under a policy with this limit.
  ghost predicate Limited(c: Call, limit: int) {
    !c.req.force && c.autoAdvance.Some? && c.autoAdvance.value.hosMaxDriveSec == limit
  }

  ghost predicate AllLimited(calls: seq<Call>, limit: int) {
    forall n :: 0 <= n < |calls| ==> Limited(calls[n], limit)
  }

  lemma {:induction false} PermittedBelowLimit(c: Call, rows: seq<Leg>, limit: int)
    requires Limited(c, limit) && limit > 0 && Permitted(c, rows)
    ensures Driven(rows) < limit
  {
    assert Rank(BreakRequired) < 8;
  }

  // Legs that are planned for a route and numbered in order.
  ghost predicate Planned(legs: seq<Leg>) {
    WellNumbered(legs) && Progress(legs, legs, 0)
  }

  // In a run without force, a leg is left only while the driving up to it is below the limit.
  lemma {:induction false} LeftBelowLimit(planned: seq<Leg>, states: seq<seq<Leg>>, calls: seq<Call>, results: seq<Result>,
                                          limit: int, n: nat)
    requires Planned(planned) && SqlRun(states, calls, results) && states[0] == planned
    requires limit > 0 && AllLimited(calls, limit) && n <= |calls|
    ensures var k := ChangedBy(results, n); k <= |planned| && (k > 0 ==> Driving(planned, k - 1) < limit)
  {
    SqlRunFromPlanned(planned, states, calls, results, n);
    if n > 0 {
      LeftBelowLimit(planned, states, calls, results, limit, n - 1);
      SqlRunFromPlanned(planned, states, calls, results, n - 1);
      if results[n - 1].changed {
        PermittedBelowLimit(calls[n - 1], states[n - 1], limit);
        ProgressDriven(planned, states[n - 1], ChangedBy(results, n - 1));
      }
    }
  }

  // ----- a run that visits every leg -----

  const QUIET := Facts(_ => None, None, None)

  function QuietCall(limit: int): Call {
    Call(Some(Policy(true, false, "", 0, 0, false, limit)), Request("", false), QUIET)
  }

  lemma {:induction false} QuietPermitted(limit: int, rows: seq<Leg>)
    requires Driven(rows) < limit
    ensures Permitted(QuietCall(limit), rows) && Limited(QuietCall(limit), limit)
  {
  }

  lemma {:induction false} StepExists(planned: seq<Leg>, rows: seq<Leg>, k: nat) returns (res: Result, now: seq<Leg>)
    requires Progress(planned, rows, k) && WellNumbered(rows) && k < |planned|
    ensures SqlStep(rows, true, res, now) && res.changed
  {
    ProgressAdvances(planned, rows, k);
    now := SqlAdvanced(rows);
    var i := RowOf(now, rows[k].id);
    res := Result(true, rows[k].id, rows[k].to, if i + 1 < |now| then now[i + 1].id else "", if i + 1 < |now| then now[i + 1].to else None);
  }

  lemma {:induction false} RunExtends(states: seq<seq<Leg>>, calls: seq<Call>, results: seq<Result>, c: Call, res: Result, now: seq<Leg>)
    requires SqlRun(states, calls, results) && SqlStep(states[|calls|], Permitted(c, states[|calls|]), res, now)
    ensures SqlRun(states + [now], calls + [c], results + [res])
    ensures ChangedBy(results + [res], |calls| + 1) == ChangedBy(results, |calls|) + if res.changed then 1 else 0
  {
    var states', calls', results' := states + [now], calls + [c], results + [res];
    forall n: nat | n < |calls'| ensures SqlCall(states', calls', results', n) {
      if n < |calls| { assert SqlCall(states, calls, results, n); }
    }
    ChangedPrefix(results, [res], |calls|);
  }

  lemma {:induction false} ChangedPrefix(results: seq<Result>, more: seq<Result>, n: nat)
    requires n <= |results|
    ensures ChangedBy(results + more, n) == ChangedBy(results, n)
  {
    if n > 0 { ChangedPrefix(results, more, n - 1); }
  }

  // k quiet calls visit k legs, if the driving before the last of them is below the limit.
  lemma {:induction false} QuietRun(planned: seq<Leg>, limit: int, k: nat)
    returns (states: seq<seq<Leg>>, calls: seq<Call>, results: seq<Result>)
    requires Planned(planned) && k <= |planned| && limit > 0 && (k > 0 ==> Driving(planned, k - 1) < limit)
    ensures SqlRun(states, calls, results) && states[0] == planned && AllLimited(calls, limit)
    ensures |calls| == k == ChangedBy(results, k)
  {
    if k == 0 {
      states, calls, results := [planned], [], [];
    } else {
      if k > 1 { DrivingGrows(planned, k - 2, k - 1); }
      states, calls, results := QuietRun(planned, limit, k - 1);
      SqlRunFromPlanned(planned, states, calls, results, k - 1);
      var rows := states[k - 1];
      ProgressDriven(planned, rows, k - 1);
      QuietPermitted(limit, rows);
      var res, now := StepExists(planned, rows, k - 1);
      RunExtends(states, calls, results, QuietCall(limit), res, now);
      states, calls, results := states + [now], calls + [QuietCall(limit)], results + [res];
    }
  }

  // Some run without force visits all legs.
  ghost predicate CanComplete(planned: seq<Leg>, limit: int) {
    exists states, calls, results ::
      SqlRun(states, calls, results) && states[0] == planned && AllLimited(calls, limit) && ChangedBy(results, |calls|) == |planned|
  }

  // A route can be completed under a limit exactly when all driving before the last leg is below it.
  lemma {:induction false} CompletesExactly(planned: seq<Leg>, limit: int)
    requires Planned(planned) && planned != [] && limit > 0
    ensures CanComplete(planned, limit) <==> Driving(planned, |planned| - 1) < limit
  {
    if CanComplete(planned, limit) {
      var states, calls, results :| SqlRun(states, calls, results) && states[0] == planned && AllLimited(calls, limit)
        && ChangedBy(results, |calls|) == |planned|;
      LeftBelowLimit(planned, states, calls, results, limit, |calls|);
    }
    if Driving(planned, |planned| - 1) < limit {
      var states, calls, results := QuietRun(planned, limit, |planned|);
    }
  }

  // ----- planned breaks -----

  lemma {:induction false} DrivingFirst(legs: seq<Leg>, more: seq<Leg>, k: nat)
    requires k <= |legs|
    ensures Driving(legs + more, k) == Driving(legs, k)
  {
    if k > 0 {
      assert (legs + more)[1..] == legs[1..] + more;
      DrivingFirst(legs[1..], more, k - 1);
    }
  }

  // Up to a break and the drive after it, the legs drive longer than the limit.
  ghost predicate OverAtBreaks(legs: seq<Leg>, driven: nat, limit: int) {
    forall b :: 0 <= b < |legs| && legs[b].kind == BreakLeg ==> b + 1 < |legs| && driven + Driving(legs, b + 2) > limit
  }

  lemma OverAfterDrive(leg: Leg, tail: seq<Leg>, driven: nat, limit: int)
    requires leg.kind == DriveLeg && OverAtBreaks(tail, driven + leg.driveSec, limit)
    ensures OverAtBreaks([leg] + tail, driven, limit)
  {
    var legs := [leg] + tail;
    forall b | 0 <= b < |legs| && legs[b].kind == BreakLeg ensures b + 1 < |legs| && driven + Driving(legs, b + 2) > limit {
      assert legs[b] == tail[b - 1] && legs[1..] == tail;
    }
  }

  lemma OverAfterBreak(pause: Leg, leg: Leg, tail: seq<Leg>, driven: nat, limit: int)
    requires pause.kind == BreakLeg && pause.driveSec == 0 && driven + leg.driveSec > limit
    requires OverAtBreaks([leg] + tail, driven, limit)
    ensures OverAtBreaks([pause] + ([leg] + tail), driven, limit)
  {
    var on := [leg] + tail;
    var legs := [pause] + on;
    assert legs[1..] == on && on[1..] == tail;
    assert Driving(on, 1) == leg.driveSec by { assert Driving(tail, 0) == 0; }
    forall b | 0 <= b < |legs| && legs[b].kind == BreakLeg ensures b + 1 < |legs| && driven + Driving(legs, b + 2) > limit {
      if b > 0 { assert legs[b] == on[b - 1]; }
    }
  }

  lemma OverFromMore(legs: seq<Leg>, less: nat, driven: nat, limit: int)
    requires less <= driven && OverAtBreaks(legs, less, limit)
    ensures OverAtBreaks(legs, driven, limit)
  {
  }

  lemma {:induction false} BodyOverAtBreaks(t: Trip, c: Cursor, rest: seq<Place>)
    ensures OverAtBreaks(Body(t, c, rest), c.driven, t.hosMax)
    decreases |rest|
  {
    if rest != [] {
      var due, drive := BreakDue(t, c, rest[0]), DriveTo(t, Ready(t, c, rest[0]), rest[0]);
      var c' := AfterDrive(t, Ready(t, c, rest[0]), rest[0]);
      var tail := Body(t, c', rest[1..]);
      BodyOverAtBreaks(t, c', rest[1..]);
      BodyStep(t, c, rest);
      OverFromMore(tail, c'.driven, c.driven + drive.driveSec, t.hosMax);
      OverAfterDrive(drive, tail, c.driven, t.hosMax);
      if due { OverAfterBreak(TakeBreak(t, c), drive, tail, c.driven, t.hosMax); }
    }
  }

  lemma {:induction false} LegsOverAtBreaks(t: Trip, order: seq<Place>, start: int)
    requires order != []
    ensures OverAtBreaks(AllLegs(t, order, start), 0, t.hosMax)
  {
    var c := FirstCursor(t, order[0], start);
    var body, closing := Body(t, c, order[1..]), Closing(t, EndOf(t, c, order[1..]));
    BodyOverAtBreaks(t, c, order[1..]);
    var on := body + closing;
    forall b | 0 <= b < |on| && on[b].kind == BreakLeg ensures b + 1 < |on| && c.driven + Driving(on, b + 2) > t.hosMax {
      assert b < |body|;
      DrivingFirst(body, closing, b + 2);
    }
    if t.depot.Some? {
      OverAfterDrive(FromDepot(t, t.depot.value, order[0], start), on, 0, t.hosMax);
    }
    assert AllLegs(t, order, start) == Opening(t, order[0], start) + on;
    if t.depot.None? { assert Opening(t, order[0], start) + on == on; }
  }

  // A route that was planned with a break, and goes on after the drive that follows it, cannot be
  // completed without force under the limit that it was planned for, nor under a lower one.
  lemma {:induction false} BrokenRouteStalls(t: Trip, order: seq<Place>, start: int, limit: int, b: nat)
    requires order != [] && forall m: nat, n: nat :: m != n ==> t.ids(m) != t.ids(n)
    requires 0 < limit <= t.hosMax
    requires b + 2 < |AllLegs(t, order, start)| && AllLegs(t, order, start)[b].kind == BreakLeg
    ensures !CanComplete(AllLegs(t, order, start), limit)
  {
    var legs := AllLegs(t, order, start);
    EmittedLegsWellNumbered(t, order, start);
    EmittedLegsArePlanned(t, order, start);
    CompletesExactly(legs, limit);
    LegsOverAtBreaks(t, order, start);
    DrivingGrows(legs, b + 2, |legs| - 1);
  }
}
