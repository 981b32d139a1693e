// Turning a tour into numbered drive and break legs (internal/store/postgres.go:1030-1079, 1126-1194).
module LegEmission {
  import opened Sequences
  import opened Paths
  import Breaks

  datatype LegKind = DriveLeg | BreakLeg

  datatype LegStatus = InProgress | Pending | Visited

  datatype Leg = Leg(id: string, number: nat, kind: LegKind, breakSec: int, from: Option<Place>, to: Option<Place>,
                     distM: nat, driveSec: nat, arrival: int, departure: int, status: LegStatus)

  // Rounded distances, service times, window starts, the depot if there is one, the driving limit
  // (none if not positive), the break length, and the identifier drawn for each leg.
  datatype Trip = Trip(distM: (Place, Place) -> nat, serviceSec: Place -> int, opens: Place -> Option<int>,
                       depot: Option<Place>, hosMax: int, breakSec: int, ids: nat -> string)

  // 50 km/h, rounded to the nearest second.
  function DriveSecs(distM: nat): nat {
    (distM as real / (50000.0 / 3600.0) + 0.5).Floor
  }

  function Wait(t: Trip, b: Place, arrival: int): int {
    match t.opens(b)
    case Some(start) => if arrival < start then start else arrival
    case None => arrival
  }

  // The stop just left, the time, the driving since the last break, and the next leg's number.
  datatype Cursor = Cursor(at: Place, now: int, driven: nat, next: nat)

  predicate BreakDue(t: Trip, c: Cursor, b: Place) {
    t.hosMax > 0 && c.driven + DriveSecs(t.distM(c.at, b)) > t.hosMax && c.next > 1
  }

  function TakeBreak(t: Trip, c: Cursor): Leg {
    Leg(t.ids(c.next), c.next, BreakLeg, t.breakSec, None, None, 0, 0, c.now, c.now + t.breakSec, Pending)
  }

  function AfterBreak(t: Trip, c: Cursor): Cursor {
    c.(now := c.now + t.breakSec, driven := 0, next := c.next + 1)
  }

  function DriveTo(t: Trip, c: Cursor, b: Place): Leg {
    var dist := t.distM(c.at, b);
    var eta := Wait(t, b, c.now + DriveSecs(dist));
    Leg(t.ids(c.next), c.next, DriveLeg, 0, Some(c.at), Some(b), dist, DriveSecs(dist), eta, eta + t.serviceSec(b),
        if c.next == 1 && t.depot == None then InProgress else Pending)
  }

  function AfterDrive(t: Trip, c: Cursor, b: Place): Cursor {
    var leg := DriveTo(t, c, b);
    Cursor(b, leg.departure, c.driven + leg.driveSec, c.next + 1)
  }

  function Ready(t: Trip, c: Cursor, b: Place): Cursor {
    if BreakDue(t, c, b) then AfterBreak(t, c) else c
  }

  // The legs to the remaining stops: each a drive, after a break if one is due.
  ghost function Body(t: Trip, c: Cursor, rest: seq<Place>): seq<Leg>
    decreases |rest|
  {
    if rest == [] then []
    else (if BreakDue(t, c, rest[0]) then [TakeBreak(t, c)] else [])
         + [DriveTo(t, Ready(t, c, rest[0]), rest[0])]
         + Body(t, AfterDrive(t, Ready(t, c, rest[0]), rest[0]), rest[1..])
  }

  ghost function EndOf(t: Trip, c: Cursor, rest: seq<Place>): Cursor
    decreases |rest|
  {
    if rest == [] then c else EndOf(t, AfterDrive(t, Ready(t, c, rest[0]), rest[0]), rest[1..])
  }

  function FromDepot(t: Trip, depot: Place, first: Place, start: int): Leg {
    var dist := t.distM(depot, first);
    var eta := Wait(t, first, start + DriveSecs(dist));
    Leg(t.ids(1), 1, DriveLeg, 0, None, Some(first), dist, DriveSecs(dist), eta, eta + t.serviceSec(first), InProgress)
  }

  function ToDepot(t: Trip, depot: Place, c: Cursor): Leg {
    var dist := t.distM(c.at, depot);
    var eta := c.now + DriveSecs(dist);
    Leg(t.ids(c.next), c.next, DriveLeg, 0, Some(c.at), None, dist, DriveSecs(dist), eta, eta, Pending)
  }

  function Opening(t: Trip, first: Place, start: int): seq<Leg> {
    match t.depot
    case Some(depot) => [FromDepot(t, depot, first, start)]
    case None => []
  }

  function FirstCursor(t: Trip, first: Place, start: int): Cursor {
    match t.depot
    case Some(depot) => Cursor(first, FromDepot(t, depot, first, start).departure, FromDepot(t, depot, first, start).driveSec, 2)
    case None => Cursor(first, start, 0, 1)
  }

  function Closing(t: Trip, c: Cursor): seq<Leg> {
    match t.depot
    case Some(depot) => [ToDepot(t, depot, c)]
    case None => []
  }

  // All legs up to, and without, the return to the depot.
  ghost function Outbound(t: Trip, order: seq<Place>, start: int): seq<Leg>
    requires order != []
  {
    Opening(t, order[0], start) + Body(t, FirstCursor(t, order[0], start), order[1..])
  }

  ghost function AllLegs(t: Trip, order: seq<Place>, start: int): seq<Leg>
    requires order != []
  {
    Outbound(t, order, start) + Closing(t, EndOf(t, FirstCursor(t, order[0], start), order[1..]))
  }

  // The first of the depots nearest to the first stop.
  method NearestDepot(d: Distance, depots: seq<Place>, first: Place) returns (best: nat)
    requires depots != []
    ensures best < |depots| && forall i :: 0 <= i < |depots| ==>
              d(first, depots[best]) <= d(first, depots[i]) && (i < best ==> d(first, depots[best]) < d(first, depots[i]))
  {
    best := 0;
    var bestd := d(first, depots[0]);
    for i := 1 to |depots|
      invariant best < i && bestd == d(first, depots[best])
      invariant forall j :: 0 <= j < i ==> bestd <= d(first, depots[j]) && (j < best ==> bestd < d(first, depots[j]))
    {
      if d(first, depots[i]) < bestd { bestd := d(first, depots[i]); best := i; }
    }
  }

  // One round of the loop over the tour: a break leg if one is due, and the drive to b.
  method EmitNext(t: Trip, c: Cursor, b: Place) returns (legs: seq<Leg>, c': Cursor)
    ensures legs == (if BreakDue(t, c, b) then [TakeBreak(t, c)] else []) + [DriveTo(t, Ready(t, c, b), b)]
    ensures c' == AfterDrive(t, Ready(t, c, b), b)
  {
    var curr, driveCum, next := c.now, c.driven, c.next;
    legs := [];
    var dist := t.distM(c.at, b);
    var drive := DriveSecs(dist);
    if t.hosMax > 0 && driveCum + drive > t.hosMax && next > 1 {
      legs := [Leg(t.ids(next), next, BreakLeg, t.breakSec, None, None, 0, 0, curr, curr + t.breakSec, Pending)];
      curr := curr + t.breakSec;
      driveCum := 0;
      next := next + 1;
    }
    var etaA := Wait(t, b, curr + drive);
    var etaD := etaA + t.serviceSec(b);
    var status := if next == 1 && t.depot == None then InProgress else Pending;
    legs := legs + [Leg(t.ids(next), next, DriveLeg, 0, Some(c.at), Some(b), dist, drive, etaA, etaD, status)];
    c' := Cursor(b, etaD, driveCum + drive, next + 1);
  }

  method EmitLegs(t: Trip, order: seq<Place>, start: int) returns (legs: seq<Leg>)
    requires order != []
    ensures legs == AllLegs(t, order, start)
  {
    legs := [];
    var c := Cursor(order[0], start, 0, 1);
    if t.depot.Some? {
      var leg := FromDepot(t, t.depot.value, order[0], start);
      legs := [leg];
      c := Cursor(order[0], leg.departure, leg.driveSec, 2);
    }
    ghost var opening, c0 := legs, c;
    for i := 0 to |order| - 1
      invariant legs + Body(t, c, order[i + 1..]) == opening + Body(t, c0, order[1..])
      invariant EndOf(t, c, order[i + 1..]) == EndOf(t, c0, order[1..])
    {
      ghost var was, done, rest := c, legs, order[i + 1..];
      assert rest[0] == order[i + 1] && rest[1..] == order[i + 2..];
      var more;
      more, c := EmitNext(t, c, order[i + 1]);
      legs := legs + more;
      EmitStep(t, was, done, rest, legs, c);
    }
    if t.depot.Some? { legs := legs + [ToDepot(t, t.depot.value, c)]; }
  }

  lemma EmitStep(t: Trip, c: Cursor, done: seq<Leg>, rest: seq<Place>, more: seq<Leg>, c': Cursor)
    requires rest != [] && c' == AfterDrive(t, Ready(t, c, rest[0]), rest[0])
    requires more == done + ((if BreakDue(t, c, rest[0]) then [TakeBreak(t, c)] else []) + [DriveTo(t, Ready(t, c, rest[0]), rest[0])])
    ensures more + Body(t, c', rest[1..]) == done + Body(t, c, rest)
    ensures EndOf(t, c', rest[1..]) == EndOf(t, c, rest)
  {
  }

  // ----- numbering and status -----

  ghost predicate NumberedFrom(t: Trip, legs: seq<Leg>, first: nat) {
    forall k :: 0 <= k < |legs| ==> legs[k].number == first + k && legs[k].id == t.ids(first + k)
  }

  // Each leg is in progress if it is the first of a trip without a depot, and pending otherwise.
  ghost predicate StatusesFrom(t: Trip, legs: seq<Leg>, first: int) {
    forall k :: 0 <= k < |legs| ==> legs[k].status == if first + k == 1 && t.depot == None then InProgress else Pending
  }

  lemma {:induction false} BodyNumbers(t: Trip, c: Cursor, rest: seq<Place>)
    ensures NumberedFrom(t, Body(t, c, rest), c.next)
    ensures EndOf(t, c, rest).next == c.next + |Body(t, c, rest)|
    ensures c.next >= 1 ==> StatusesFrom(t, Body(t, c, rest), c.next)
    decreases |rest|
  {
    if rest != [] {
      var c' := AfterDrive(t, Ready(t, c, rest[0]), rest[0]);
      var head: seq<Leg> := (if BreakDue(t, c, rest[0]) then [TakeBreak(t, c)] else []) + [DriveTo(t, Ready(t, c, rest[0]), rest[0])];
      BodyNumbers(t, c', rest[1..]);
      assert c'.next == c.next + |head|;
      NumbersJoin(t, head, Body(t, c', rest[1..]), c.next);
    }
  }

  lemma NumbersJoin(t: Trip, head: seq<Leg>, tail: seq<Leg>, first: nat)
    requires NumberedFrom(t, head, first) && NumberedFrom(t, tail, first + |head|)
    ensures NumberedFrom(t, head + tail, first)
    ensures StatusesFrom(t, head, first) && StatusesFrom(t, tail, first + |head|) ==> StatusesFrom(t, head + tail, first)
  {
  }

  // The legs are numbered 1..m in order, and the first one alone is in progress.
  lemma {:induction false} LegsNumbered(t: Trip, order: seq<Place>, start: int)
    requires order != []
    ensures NumberedFrom(t, AllLegs(t, order, start), 1)
    ensures forall k :: 0 <= k < |AllLegs(t, order, start)| ==>
              AllLegs(t, order, start)[k].status == if k == 0 then InProgress else Pending
  {
    var c := FirstCursor(t, order[0], start);
    var opening, body, closing := Opening(t, order[0], start), Body(t, c, order[1..]), Closing(t, EndOf(t, c, order[1..]));
    BodyNumbers(t, c, order[1..]);
    assert AllLegs(t, order, start) == opening + body + closing;
    var legs := opening + body + closing;
    forall k | 0 <= k < |legs|
      ensures legs[k].number == 1 + k && legs[k].id == t.ids(1 + k) && legs[k].status == if k == 0 then InProgress else Pending
    {
      if |opening| <= k < |opening + body| {
        assert legs[k] == body[k - |opening|];
      } else if |opening + body| <= k {
        assert legs[k] == closing[0];
      }
    }
  }

  // ----- the drives follow the tour -----

  ghost function Froms(legs: seq<Leg>): seq<Option<Place>> {
    if legs == [] then [] else (if legs[0].kind == DriveLeg then [legs[0].from] else []) + Froms(legs[1..])
  }

  ghost function Tos(legs: seq<Leg>): seq<Option<Place>> {
    if legs == [] then [] else (if legs[0].kind == DriveLeg then [legs[0].to] else []) + Tos(legs[1..])
  }

  lemma {:induction false} FromsConcat(a: seq<Leg>, b: seq<Leg>)
    ensures Froms(a + b) == Froms(a) + Froms(b)
  {
    if a == [] {
      assert a + b == b;
    } else {
      var head := if a[0].kind == DriveLeg then [a[0].from] else [];
      FromsConcat(a[1..], b);
      assert (a + b)[0] == a[0] && (a + b)[1..] == a[1..] + b;
      assert head + (Froms(a[1..]) + Froms(b)) == (head + Froms(a[1..])) + Froms(b);
    }
  }

  lemma {:induction false} TosConcat(a: seq<Leg>, b: seq<Leg>)
    ensures Tos(a + b) == Tos(a) + Tos(b)
  {
    if a == [] {
      assert a + b == b;
    } else {
      var head := if a[0].kind == DriveLeg then [a[0].to] else [];
      TosConcat(a[1..], b);
      assert (a + b)[0] == a[0] && (a + b)[1..] == a[1..] + b;
      assert head + (Tos(a[1..]) + Tos(b)) == (head + Tos(a[1..])) + Tos(b);
    }
  }

  // The legs to the next stop, followed by the legs to the others.
  lemma BodyStep(t: Trip, c: Cursor, rest: seq<Place>)
    requires rest != []
    ensures var on := [DriveTo(t, Ready(t, c, rest[0]), rest[0])] + Body(t, AfterDrive(t, Ready(t, c, rest[0]), rest[0]), rest[1..]);
            Body(t, c, rest) == if BreakDue(t, c, rest[0]) then [TakeBreak(t, c)] + on else on
  {
  }

  lemma DriveFollows(leg: Leg, tail: seq<Leg>)
    requires leg.kind == DriveLeg
    ensures Froms([leg] + tail) == [leg.from] + Froms(tail) && Tos([leg] + tail) == [leg.to] + Tos(tail)
  {
  }

  lemma BreakFollows(leg: Leg, tail: seq<Leg>)
    requires leg.kind == BreakLeg
    ensures Froms([leg] + tail) == Froms(tail) && Tos([leg] + tail) == Tos(tail)
  {
  }

  ghost function Known(s: seq<Place>): seq<Option<Place>> {
    seq(|s|, i requires 0 <= i < |s| => Some(s[i]))
  }

  lemma KnownSplit(x: Place, s: seq<Place>)
    ensures Known([x] + s) == [Some(x)] + Known(s)
  {
  }

  lemma {:induction false} BodyFollows(t: Trip, c: Cursor, rest: seq<Place>)
    ensures Froms(Body(t, c, rest)) == Known(([c.at] + rest)[..|rest|]) && Tos(Body(t, c, rest)) == Known(rest)
    ensures EndOf(t, c, rest).at == ([c.at] + rest)[|rest|]
    decreases |rest|
  {
    if rest != [] {
      var drive := DriveTo(t, Ready(t, c, rest[0]), rest[0]);
      var c' := AfterDrive(t, Ready(t, c, rest[0]), rest[0]);
      var tail := Body(t, c', rest[1..]);
      BodyFollows(t, c', rest[1..]);
      BodyStep(t, c, rest);
      DriveFollows(drive, tail);
      if BreakDue(t, c, rest[0]) { BreakFollows(TakeBreak(t, c), [drive] + tail); }
      assert c'.at == rest[0] && drive.from == Some(c.at) && drive.to == Some(rest[0]);
      assert [rest[0]] + rest[1..] == rest;
      assert ([c.at] + rest)[..|rest|] == [c.at] + rest[..|rest| - 1];
      KnownSplit(c.at, rest[..|rest| - 1]);
      KnownSplit(rest[0], rest[1..]);
    }
  }

  lemma KnownEnds(s: seq<Place>)
    requires s != []
    ensures Known(s[..|s| - 1]) + [Some(s[|s| - 1])] == Known(s) && [Some(s[0])] + Known(s[1..]) == Known(s)
  {
  }

  // The leg from the depot and the leg back, if there is a depot.
  lemma {:induction false} EndLegs(t: Trip, order: seq<Place>, start: int)
    requires order != []
    ensures var opening := Opening(t, order[0], start);
            if t.depot.Some? then Froms(opening) == [None] && Tos(opening) == [Some(order[0])]
            else Froms(opening) == Tos(opening) == []
    ensures var c := EndOf(t, FirstCursor(t, order[0], start), order[1..]);
            if t.depot.Some? then Froms(Closing(t, c)) == [Some(c.at)] && Tos(Closing(t, c)) == [None]
            else Froms(Closing(t, c)) == Tos(Closing(t, c)) == []
  {
  }

  // The drive legs lead from stop to stop in tour order, from the depot and back to it if there is one.
  lemma {:induction false} DrivesFollowTour(t: Trip, order: seq<Place>, start: int)
    requires order != []
    ensures Froms(AllLegs(t, order, start)) == if t.depot.Some? then [None] + Known(order) else Known(order[..|order| - 1])
    ensures Tos(AllLegs(t, order, start)) == if t.depot.Some? then Known(order) + [None] else Known(order[1..])
  {
    var c := FirstCursor(t, order[0], start);
    var opening, body, closing := Opening(t, order[0], start), Body(t, c, order[1..]), Closing(t, EndOf(t, c, order[1..]));
    BodyFollows(t, c, order[1..]);
    assert [order[0]] + order[1..] == order;
    FromsConcat(opening + body, closing);
    FromsConcat(opening, body);
    TosConcat(opening + body, closing);
    TosConcat(opening, body);
    EndLegs(t, order, start);
    KnownEnds(order);
  }

  // ----- times -----

  // No leg starts before the previous one is over, and no stop is reached before its window opens.
  ghost predicate OnTimeFrom(t: Trip, now: int, legs: seq<Leg>)
    decreases |legs|
  {
    legs == [] || (legs[0].arrival >= now && (legs[0].to.Some? ==> Wait(t, legs[0].to.value, legs[0].arrival) == legs[0].arrival)
                   && OnTimeFrom(t, legs[0].departure, legs[1..]))
  }

  ghost function LastDeparture(now: int, legs: seq<Leg>): int
    decreases |legs|
  {
    if legs == [] then now else LastDeparture(legs[0].departure, legs[1..])
  }

  lemma OnTimeConcat(t: Trip, now: int, a: seq<Leg>, b: seq<Leg>)
    requires OnTimeFrom(t, now, a) && OnTimeFrom(t, LastDeparture(now, a), b)
    ensures OnTimeFrom(t, now, a + b)
    decreases |a|
  {
    if a == [] {
      assert a + b == b;
    } else {
      assert (a + b)[1..] == a[1..] + b;
      OnTimeConcat(t, a[0].departure, a[1..], b);
    }
  }

  lemma {:induction false} BodyOnTime(t: Trip, c: Cursor, rest: seq<Place>)
    ensures OnTimeFrom(t, c.now, Body(t, c, rest))
    ensures LastDeparture(c.now, Body(t, c, rest)) == EndOf(t, c, rest).now
    decreases |rest|
  {
    if rest != [] {
      var r := Ready(t, c, rest[0]);
      var c' := AfterDrive(t, r, rest[0]);
      BodyOnTime(t, c', rest[1..]);
      var tail := Body(t, c', rest[1..]);
      var driveOn := [DriveTo(t, r, rest[0])] + tail;
      assert driveOn[1..] == tail;
      if BreakDue(t, c, rest[0]) {
        assert Body(t, c, rest) == [TakeBreak(t, c)] + driveOn;
        assert ([TakeBreak(t, c)] + driveOn)[1..] == driveOn;
      } else {
        assert Body(t, c, rest) == driveOn;
      }
    }
  }

  lemma LegsOnTime(t: Trip, order: seq<Place>, start: int)
    requires order != []
    ensures OnTimeFrom(t, start, AllLegs(t, order, start))
  {
    var c := FirstCursor(t, order[0], start);
    var opening, body, closing := Opening(t, order[0], start), Body(t, c, order[1..]), Closing(t, EndOf(t, c, order[1..]));
    BodyOnTime(t, c, order[1..]);
    OnTimeConcat(t, c.now, body, closing);
    assert AllLegs(t, order, start) == opening + (body + closing);
    if t.depot.Some? { assert opening[1..] == []; }
    OnTimeConcat(t, start, opening, body + closing);
  }

  // ----- breaks -----

  ghost function WithinLimit(t: Trip): real -> bool {
    x => t.hosMax <= 0 || x <= t.hosMax as real
  }

  // The driving time of each drive leg, and whether a break comes right before it.
  ghost function DriveTimes(legs: seq<Leg>): seq<real> {
    if legs == [] then [] else (if legs[0].kind == DriveLeg then [legs[0].driveSec as real] else []) + DriveTimes(legs[1..])
  }

  ghost function BreakFlags(legs: seq<Leg>, rested: bool): seq<bool> {
    if legs == [] then []
    else if legs[0].kind == BreakLeg then BreakFlags(legs[1..], true)
    else [rested] + BreakFlags(legs[1..], false)
  }

  ghost function BreakLegs(legs: seq<Leg>): nat {
    if legs == [] then 0 else (if legs[0].kind == BreakLeg then 1 else 0) + BreakLegs(legs[1..])
  }

  // Every break is followed by a drive, so no two breaks are adjacent.
  ghost predicate BreaksSeparated(legs: seq<Leg>) {
    forall k :: 0 <= k < |legs| && legs[k].kind == BreakLeg ==> k + 1 < |legs| && legs[k + 1].kind == DriveLeg
  }

  ghost function Unrested(flags: seq<bool>): seq<bool> {
    if flags == [] then [] else flags[0 := false]
  }

  // What the breaks of a leg list are judged by.
  ghost predicate BreaksLike(legs: seq<Leg>, rested: bool, times: seq<real>, flags: seq<bool>) {
    DriveTimes(legs) == times && BreakFlags(legs, rested) == flags && Breaks.Legs(times) && BreaksSeparated(legs) &&
    BreakLegs(legs) + (if rested && flags != [] then 1 else 0) == Breaks.Count(flags)
  }

  lemma DriveBreaks(leg: Leg, tail: seq<Leg>, rested: bool, times: seq<real>, flags: seq<bool>)
    requires leg.kind == DriveLeg && BreaksLike(tail, false, times, flags)
    ensures BreaksLike([leg] + tail, rested, [leg.driveSec as real] + times, [rested] + flags)
  {
  }

  lemma PauseBreaks(leg: Leg, on: seq<Leg>, times: seq<real>, flags: seq<bool>)
    requires leg.kind == BreakLeg && on != [] && on[0].kind == DriveLeg && flags != [] && BreaksLike(on, true, times, flags)
    ensures BreaksLike([leg] + on, false, times, flags)
  {
  }

  lemma {:induction false} BodyBreaks(t: Trip, c: Cursor, rest: seq<Place>)
    requires c.next > 1 || (c.next == 1 && c.driven == 0)
    ensures var legs := Body(t, c, rest);
            var lazy := Breaks.Lazy(WithinLimit(t), c.driven as real, DriveTimes(legs));
            BreaksLike(legs, false, DriveTimes(legs), if c.next > 1 then lazy else Unrested(lazy))
    decreases |rest|
  {
    if rest != [] {
      var b, due := rest[0], BreakDue(t, c, rest[0]);
      var drive := DriveTo(t, Ready(t, c, b), b);
      var c' := AfterDrive(t, Ready(t, c, b), b);
      var tail := Body(t, c', rest[1..]);
      var times := DriveTimes(tail);
      var flags := Breaks.Lazy(WithinLimit(t), c'.driven as real, times);
      BodyBreaks(t, c', rest[1..]);
      BodyStep(t, c, rest);
      DriveBreaks(drive, tail, due, times, flags);
      if due { PauseBreaks(TakeBreak(t, c), [drive] + tail, [drive.driveSec as real] + times, [due] + flags); }
      LazyStep(t, c, b, drive.driveSec, times);
      DueIsLazy(t, c, b);
    }
  }

  // After the first leg, a break is due exactly when the next leg would not fit.
  lemma DueIsLazy(t: Trip, c: Cursor, b: Place)
    ensures c.next > 1 ==> (BreakDue(t, c, b) <==> !WithinLimit(t)(c.driven as real + DriveSecs(t.distM(c.at, b)) as real))
    ensures c.next <= 1 ==> !BreakDue(t, c, b)
  {
  }

  // The lazy rule on the leg to b continues from the driving that the cursor records.
  lemma LazyStep(t: Trip, c: Cursor, b: Place, drive: nat, times: seq<real>)
    requires drive == DriveSecs(t.distM(c.at, b)) && (c.next > 1 || c.driven == 0)
    ensures var c' := AfterDrive(t, Ready(t, c, b), b);
            Breaks.Lazy(WithinLimit(t), c.driven as real, [drive as real] + times)
            == [!WithinLimit(t)(c.driven as real + drive as real)] + Breaks.Lazy(WithinLimit(t), c'.driven as real, times)
  {
  }

  // On the way out the breaks are those of the lazy rule, except that none is taken before the first leg.
  lemma OutboundLazy(t: Trip, order: seq<Place>, start: int)
    requires order != []
    ensures var legs := Outbound(t, order, start);
            BreaksLike(legs, false, DriveTimes(legs), Unrested(Breaks.Lazy(WithinLimit(t), 0.0, DriveTimes(legs))))
  {
    var c := FirstCursor(t, order[0], start);
    var body := Body(t, c, order[1..]);
    BodyBreaks(t, c, order[1..]);
    if t.depot.Some? {
      var first := FromDepot(t, t.depot.value, order[0], start);
      var times := DriveTimes(body);
      var lazy := Breaks.Lazy(WithinLimit(t), c.driven as real, times);
      DriveBreaks(first, body, false, times, lazy);
      var all := [first.driveSec as real] + times;
      assert all[1..] == times && 0.0 + all[0] == c.driven as real;
      assert Breaks.Lazy(WithinLimit(t), 0.0, all)[1..] == lazy;
    } else {
      assert Outbound(t, order, start) == body;
    }
  }

  lemma UnrestedCount(flags: seq<bool>)
    ensures Breaks.Count(Unrested(flags)) <= Breaks.Count(flags)
  {
  }

  // Before the unchecked return to the depot: no placement of breaks that respects the limit has fewer
  // breaks, no stretch without a break exceeds the limit unless it is one over-long leg, and every
  // break is followed by a drive.
  lemma BreakPlacementBest(t: Trip, order: seq<Place>, start: int, other: seq<bool>)
    requires order != []
    ensures var legs := Outbound(t, order, start);
            var times, flags := DriveTimes(legs), BreakFlags(legs, false);
            && |flags| == |times| && BreaksSeparated(legs)
            && (Breaks.Allowed(WithinLimit(t), 0.0, times, other) ==> BreakLegs(legs) <= Breaks.Count(other))
            && (Breaks.EachFits(WithinLimit(t), times) ==> Breaks.Allowed(WithinLimit(t), 0.0, times, flags))
            && forall lo, hi :: 0 <= lo < hi <= |times| && (forall k :: lo < k < hi ==> !flags[k]) ==>
                 WithinLimit(t)(Breaks.Sum(times[lo..hi])) || hi == lo + 1
  {
    var legs, fits := Outbound(t, order, start), WithinLimit(t);
    var times, flags := DriveTimes(legs), BreakFlags(legs, false);
    var lazy := Breaks.Lazy(fits, 0.0, times);
    OutboundLazy(t, order, start);
    Breaks.LazyLength(fits, 0.0, times);
    UnrestedCount(lazy);
    if Breaks.Allowed(fits, 0.0, times, other) {
      Breaks.FewestBreaks(fits, 0.0, times, other);
    }
    if Breaks.EachFits(fits, times) {
      Breaks.LazyIsAllowed(fits, 0.0, times);
      if times != [] { assert 0.0 + times[0] == times[0] && fits(times[0]) && !lazy[0] && flags == lazy; }
    }
    forall lo, hi | 0 <= lo < hi <= |times| && (forall k :: lo < k < hi ==> !flags[k])
      ensures fits(Breaks.Sum(times[lo..hi])) || hi == lo + 1
    {
      assert forall k :: lo < k < hi ==> flags[k] == lazy[k];
      Breaks.StretchFits(fits, 0.0, times, lo, hi);
    }
  }
}
