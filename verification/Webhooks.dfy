// The webhook delivery queue: the in-memory store (internal/store/memory.go:332-382, 451-459, 544-551)
// and the worker that drains it (internal/webhooks/worker.go:43-90).
//
// Instants are whole seconds. The outcome of a POST, the passing of time and manual retries are arbitrary.
module Webhooks {
  import opened Sequences

  datatype Status = Pending | Retry | Delivered | Failed

  datatype Delivery = Delivery(tenant: string, status: Status, attempts: nat, nextAt: int)

  predicate Waiting(d: Delivery) {
    d.status == Pending || d.status == Retry
  }

  predicate Due(d: Delivery, now: int) {
    Waiting(d) && d.nextAt <= now
  }

  function Pow2(n: nat): nat { if n == 0 then 1 else 2 * Pow2(n - 1) }

  // The wait after a failed attempt, given the attempts before it.
  function Backoff(attempts: nat): nat { Pow2(Min(attempts, 10)) }

  lemma PowersUpToTen(n: nat)
    requires n <= 10
    ensures Pow2(n) <= 1024
    decreases 10 - n
  {
    if n < 10 {
      assert Pow2(n + 1) == 2 * Pow2(n);
      PowersUpToTen(n + 1);
    } else {
      assert Pow2(10) == 2 * Pow2(9) == 4 * Pow2(8) == 8 * Pow2(7) == 16 * Pow2(6) == 32 * Pow2(5);
      assert Pow2(5) == 2 * Pow2(4) == 4 * Pow2(3) == 8 * Pow2(2) == 16 * Pow2(1);
    }
  }

  // The cap of an hour is never reached.
  method NextBackoff(tried: int) returns (base: nat)
    ensures base == Backoff(Max(tried, 0)) <= 1024
  {
    var attempts: nat := if tried < 0 then 0 else tried;
    if attempts > 10 { attempts := 10; }
    var wait: int := Pow2(attempts);
    PowersUpToTen(attempts);
    if wait > 3600 { wait := 3600; }
    base := wait;
  }

  // ----- the effect of each store operation on one delivery -----

  function Marked(d: Delivery, success: bool, nextAt: int): Delivery {
    if success then d.(attempts := d.attempts + 1, status := Delivered)
    else d.(attempts := d.attempts + 1, status := Retry, nextAt := nextAt)
  }

  type Deliveries = map<string, Delivery>

  function MarkIn(ds: Deliveries, id: string, success: bool, nextAt: int): Deliveries {
    if id in ds then ds[id := Marked(ds[id], success, nextAt)] else ds
  }

  function FailIn(ds: Deliveries, id: string): Deliveries {
    if id in ds then ds[id := ds[id].(status := Failed)] else ds
  }

  function RetryIn(ds: Deliveries, tenant: string, id: string, now: int): Deliveries {
    if id in ds && ds[id].tenant == tenant then ds[id := ds[id].(status := Pending, nextAt := now)] else ds
  }

  datatype Item = Item(id: string, attempts: nat)

  // A fetch returns waiting deliveries that are due, at most `limit`, and all of them if there is room.
  ghost predicate Fetched(ds: Deliveries, now: int, limit: nat, items: seq<Item>) {
    (forall k :: 0 <= k < |items| ==>
       items[k].id in ds && Due(ds[items[k].id], now) && items[k].attempts == ds[items[k].id].attempts) &&
    (forall j, k :: 0 <= j < k < |items| ==> items[j].id != items[k].id) &&
    (limit > 0 ==> |items| <= limit) &&
    (limit == 0 || |items| < limit ==> forall id :: id in ds && Due(ds[id], now) ==> HasItem(items, id))
  }

  ghost predicate HasItem(items: seq<Item>, id: string) {
    exists k :: 0 <= k < |items| && items[k].id == id
  }

  // The due deliveries among the first k identifiers have been collected.
  ghost predicate FetchedFrom(ds: Deliveries, now: int, ids: seq<string>, k: nat, items: seq<Item>)
    requires k <= |ids|
  {
    (forall m :: 0 <= m < |items| ==>
       items[m].id in ids[..k] && items[m].id in ds && Due(ds[items[m].id], now) && items[m].attempts == ds[items[m].id].attempts) &&
    (forall j, m :: 0 <= j < m < |items| ==> items[j].id != items[m].id) &&
    forall m :: 0 <= m < k && ids[m] in ds && Due(ds[ids[m]], now) ==> HasItem(items, ids[m])
  }

  lemma HasItemAppend(items: seq<Item>, it: Item, id: string)
    ensures HasItem(items + [it], id) <==> HasItem(items, id) || id == it.id
  {
    var more := items + [it];
    assert more[|items|] == it;
    if HasItem(items, id) {
      var m :| 0 <= m < |items| && items[m].id == id;
      assert more[m].id == id;
    }
    if HasItem(more, id) && id != it.id {
      var m :| 0 <= m < |more| && more[m].id == id;
      assert items[m].id == id;
    }
  }

  lemma FetchStep(ds: Deliveries, now: int, ids: seq<string>, k: nat, items: seq<Item>)
    requires k < |ids| && Distinct(ids) && ids[k] in ds && FetchedFrom(ds, now, ids, k, items)
    ensures FetchedFrom(ds, now, ids, k + 1, if Due(ds[ids[k]], now) then items + [Item(ids[k], ds[ids[k]].attempts)] else items)
  {
    assert ids[..k + 1] == ids[..k] + [ids[k]];
    if Due(ds[ids[k]], now) {
      var it := Item(ids[k], ds[ids[k]].attempts);
      var more := items + [it];
      forall m | 0 <= m < |items| ensures items[m].id != it.id {
        assert items[m].id in ids[..k];
      }
      forall m | 0 <= m < k + 1 && ids[m] in ds && Due(ds[ids[m]], now) ensures HasItem(more, ids[m]) {
        HasItemAppend(items, it, ids[m]);
      }
    }
  }

  // ----- the store -----

  class MemoryQueue {
    var deliveries: Deliveries
    var byTenant: map<string, seq<string>>
    var dlq: seq<string>

    // Every delivery is listed once, under its tenant.
    ghost predicate Valid()
      reads this
    {
      (forall t :: t in byTenant ==> Distinct(byTenant[t]) && forall id :: id in byTenant[t] ==> id in deliveries && deliveries[id].tenant == t) &&
      forall id :: id in deliveries ==> deliveries[id].tenant in byTenant && id in byTenant[deliveries[id].tenant]
    }

    constructor ()
      ensures Valid() && deliveries == map[] && dlq == []
    {
      deliveries, byTenant, dlq := map[], map[], [];
    }

    // The identifier is freshly drawn.
    method Enqueue(id: string, tenant: string, now: int)
      requires Valid() && id !in deliveries
      modifies this
      ensures Valid() && dlq == old(dlq) && deliveries == old(deliveries)[id := Delivery(tenant, Pending, 0, now)]
    {
      deliveries := deliveries[id := Delivery(tenant, Pending, 0, now)];
      byTenant := byTenant[tenant := (if tenant in byTenant then byTenant[tenant] else []) + [id]];
    }

    // The map of tenants is iterated in any order.
    method DeliveryIds() returns (ids: seq<string>)
      requires Valid()
      ensures Distinct(ids) && forall id :: id in ids <==> id in deliveries
    {
      ids := [];
      var left := byTenant.Keys;
      while left != {}
        invariant left <= byTenant.Keys && Distinct(ids)
        invariant forall id :: id in ids <==> id in deliveries && deliveries[id].tenant !in left
        decreases |left|
      {
        var t :| t in left;
        DistinctConcat(ids, byTenant[t]);
        ids := ids + byTenant[t];
        left := left - {t};
      }
    }

    method FetchDue(limit: nat, now: int) returns (items: seq<Item>)
      requires Valid()
      ensures Fetched(deliveries, now, limit, items)
    {
      items := [];
      var ids := DeliveryIds();
      for k: nat := 0 to |ids|
        invariant FetchedFrom(deliveries, now, ids, k, items)
        invariant limit > 0 ==> |items| < limit
      {
        var d := deliveries[ids[k]];
        FetchStep(deliveries, now, ids, k, items);
        if Due(d, now) {
          items := items + [Item(ids[k], d.attempts)];
          if limit > 0 && |items| >= limit { return; }
        }
      }
    }

    // Without a next attempt given, a failed delivery is due again in a minute.
    method Mark(id: string, success: bool, nextAt: Option<int>, now: int)
      requires Valid()
      modifies this
      ensures Valid() && dlq == old(dlq)
      ensures deliveries == MarkIn(old(deliveries), id, success, if nextAt.Some? then nextAt.value else now + 60)
    {
      if id !in deliveries { return; }
      var d := deliveries[id];
      d := d.(attempts := d.attempts + 1);
      if success {
        d := d.(status := Delivered);
      } else {
        d := d.(status := Retry, nextAt := if nextAt.Some? then nextAt.value else now + 60);
      }
      deliveries := deliveries[id := d];
    }

    method Fail(id: string)
      requires Valid()
      modifies this
      ensures Valid() && dlq == old(dlq) + [id] && deliveries == FailIn(old(deliveries), id)
    {
      if id in deliveries { deliveries := deliveries[id := deliveries[id].(status := Failed)]; }
      dlq := dlq + [id];
    }

    method RetryDelivery(tenant: string, id: string, now: int)
      requires Valid()
      modifies this
      ensures Valid() && dlq == old(dlq) && deliveries == RetryIn(old(deliveries), tenant, id, now)
    {
      if id in deliveries && deliveries[id].tenant == tenant {
        deliveries := deliveries[id := deliveries[id].(status := Pending, nextAt := now)];
      }
    }
  }

  // ----- the machine: store, worker and callers interleaved -----

  // A POST that has been sent but not yet recorded; `retryAt` was computed when it was sent.
  datatype Flight = Flight(id: string, attempts: nat, retryAt: int)

  datatype Outcome = Kept | Done | Dead

  datatype Event = Posted(id: string, at: int, attempts: nat) | Finished(id: string, outcome: Outcome) | Retried(id: string)

  // The queue, the items the worker still has to send, the POST in flight, the clock and the history.
  datatype State = State(deliveries: Deliveries, dlq: seq<string>, batch: seq<Item>, flight: Option<Flight>, now: int, log: seq<Event>)

  datatype Op =
    | Enqueue(id: string, tenant: string)
    | Fetch(items: seq<Item>)
    | Send
    | Finish(success: bool)
    | RetryOp(tenant: string, id: string)
    | Wait(seconds: nat)

  const BATCH: nat := 50

  ghost predicate Enabled(s: State, op: Op) {
    match op
    case Enqueue(id, _) => id !in s.deliveries
    case Fetch(items) => s.batch == [] && s.flight == None && Fetched(s.deliveries, s.now, BATCH, items)
    case Send => s.batch != [] && s.flight == None
    case Finish(_) => s.flight.Some?
    case RetryOp(_, _) => true
    case Wait(_) => true
  }

  // A failed attempt is recorded as dead when it was the last one allowed.
  function OutcomeOf(max: nat, f: Flight, success: bool): Outcome {
    if success then Done else if f.attempts + 1 >= max then Dead else Kept
  }

  ghost function Step(max: nat, s: State, op: Op): State
    requires Enabled(s, op)
  {
    match op
    case Enqueue(id, tenant) => s.(deliveries := s.deliveries[id := Delivery(tenant, Pending, 0, s.now)])
    case Fetch(items) => s.(batch := items)
    case Send =>
      var it := s.batch[0];
      s.(batch := s.batch[1..], flight := Some(Flight(it.id, it.attempts, s.now + Backoff(it.attempts))),
         log := s.log + [Posted(it.id, s.now, it.attempts)])
    case Finish(success) =>
      var f := s.flight.value;
      var outcome := OutcomeOf(max, f, success);
      var ended := s.(flight := None, log := s.log + [Finished(f.id, outcome)]);
      if outcome == Dead then ended.(deliveries := FailIn(s.deliveries, f.id), dlq := s.dlq + [f.id])
      else ended.(deliveries := MarkIn(s.deliveries, f.id, success, f.retryAt))
    case RetryOp(tenant, id) =>
      if id in s.deliveries && s.deliveries[id].tenant == tenant
      then s.(deliveries := RetryIn(s.deliveries, tenant, id, s.now), log := s.log + [Retried(id)])
      else s
    case Wait(seconds) => s.(now := s.now + seconds)
  }

  const START := State(map[], [], [], None, 0, [])

  ghost predicate Runs(max: nat, from: State, ops: seq<Op>, to: State)
    decreases |ops|
  {
    if ops == [] then from == to
    else Enabled(from, ops[0]) && Runs(max, Step(max, from, ops[0]), ops[1..], to)
  }

  // ----- counting events -----

  ghost function Posts(log: seq<Event>, id: string): nat {
    if log == [] then 0
    else Posts(log[..|log| - 1], id) + (match log[|log| - 1] case Posted(i, _, _) => (if i == id then 1 else 0) case _ => 0)
  }

  ghost function Finishes(log: seq<Event>, id: string, o: Outcome): nat {
    if log == [] then 0 else Finishes(log[..|log| - 1], id, o) + (if log[|log| - 1] == Finished(id, o) then 1 else 0)
  }

  ghost function Retries(log: seq<Event>, id: string): nat {
    if log == [] then 0 else Retries(log[..|log| - 1], id) + (if log[|log| - 1] == Retried(id) then 1 else 0)
  }

  ghost function Occurrences(dlq: seq<string>, id: string): nat {
    if dlq == [] then 0 else Occurrences(dlq[..|dlq| - 1], id) + (if dlq[|dlq| - 1] == id then 1 else 0)
  }

  // The last POST of a delivery, unless it was retried by hand since.
  ghost function LastPost(log: seq<Event>, id: string): Option<Event> {
    if log == [] then None
    else
      match log[|log| - 1]
      case Posted(i, _, _) => if i == id then Some(log[|log| - 1]) else LastPost(log[..|log| - 1], id)
      case Retried(i) => if i == id then None else LastPost(log[..|log| - 1], id)
      case Finished(_, _) => LastPost(log[..|log| - 1], id)
  }

  // ----- the invariant -----

  predicate InFlight(s: State, id: string) {
    s.flight.Some? && s.flight.value.id == id
  }

  ghost predicate Batched(s: State, id: string) {
    HasItem(s.batch, id)
  }

  // What the history says of one delivery.
  ghost predicate Accounts(max: nat, s: State, id: string)
    requires id in s.deliveries
  {
    var d, kept, done, dead := s.deliveries[id], Finishes(s.log, id, Kept), Finishes(s.log, id, Done), Finishes(s.log, id, Dead);
    && d.attempts == kept + done
    && Posts(s.log, id) == kept + done + dead + (if InFlight(s, id) then 1 else 0)
    && Occurrences(s.dlq, id) == dead
    && kept <= max - 1
    && done + dead <= Retries(s.log, id) + (if Waiting(d) then 0 else 1)
    && (d.status == Failed ==> dead >= 1) && (d.status == Delivered ==> done >= 1)
    && (dead >= 1 ==> kept + done >= max - 1)
  }

  // The earliest next POST of a delivery: the last one plus its backoff.
  ghost predicate Timing(s: State, id: string)
    requires id in s.deliveries
  {
    var d := s.deliveries[id];
    match LastPost(s.log, id)
    case Some(Posted(_, at, attempts)) =>
      if InFlight(s, id) then s.flight.value.retryAt == at + Backoff(attempts) && s.flight.value.attempts == attempts
      else if Waiting(d) then
        d.attempts == attempts + 1 && (if Batched(s, id) then s.now else d.nextAt) >= at + Backoff(attempts)
      else true
    case _ => true
  }

  // Consecutive POSTs of a delivery, without a manual retry between them, keep the backoff distance.
  ghost predicate SpacedAt(log: seq<Event>, j: nat)
    requires j < |log|
  {
    match log[j]
    case Posted(id, at, attempts) =>
      (match LastPost(log[..j], id)
       case Some(Posted(_, before, tried)) => at >= before + Backoff(tried) && attempts == tried + 1
       case _ => true)
    case _ => true
  }

  ghost predicate Spaced(log: seq<Event>) {
    forall j :: 0 <= j < |log| ==> SpacedAt(log, j)
  }

  // The items the worker holds are waiting deliveries with their current attempts.
  ghost predicate Held(s: State) {
    (forall k :: 0 <= k < |s.batch| ==>
       s.batch[k].id in s.deliveries && Waiting(s.deliveries[s.batch[k].id]) && s.batch[k].attempts == s.deliveries[s.batch[k].id].attempts) &&
    (forall j, k :: 0 <= j < k < |s.batch| ==> s.batch[j].id != s.batch[k].id) &&
    (s.flight.Some? ==>
       s.flight.value.id in s.deliveries && Waiting(s.deliveries[s.flight.value.id])
       && s.flight.value.attempts == s.deliveries[s.flight.value.id].attempts && !Batched(s, s.flight.value.id))
  }

  // Deliveries that do not exist have no history.
  ghost predicate NoHistory(s: State, id: string) {
    Posts(s.log, id) == 0 && Retries(s.log, id) == 0 && (forall o :: Finishes(s.log, id, o) == 0) && Occurrences(s.dlq, id) == 0
    && LastPost(s.log, id) == None
  }

  ghost predicate Inv(max: nat, s: State) {
    Held(s) && Spaced(s.log) &&
    (forall id :: id in s.deliveries ==> Accounts(max, s, id) && Timing(s, id)) &&
    (forall id :: id !in s.deliveries ==> NoHistory(s, id))
  }

  lemma Append(log: seq<Event>, e: Event, id: string)
    ensures Posts(log + [e], id) == Posts(log, id) + (if e.Posted? && e.id == id then 1 else 0)
    ensures forall o :: Finishes(log + [e], id, o) == Finishes(log, id, o) + (if e == Finished(id, o) then 1 else 0)
    ensures Retries(log + [e], id) == Retries(log, id) + (if e == Retried(id) then 1 else 0)
    ensures LastPost(log + [e], id) == match e
                                       case Posted(i, _, _) => if i == id then Some(e) else LastPost(log, id)
                                       case Retried(i) => if i == id then None else LastPost(log, id)
                                       case Finished(_, _) => LastPost(log, id)
  {
  }

  lemma AppendDead(dlq: seq<string>, x: string, id: string)
    ensures Occurrences(dlq + [x], id) == Occurrences(dlq, id) + (if x == id then 1 else 0)
  {
  }

  lemma {:induction false} SpacedAppend(log: seq<Event>, e: Event)
    requires Spaced(log)
    requires e.Posted? ==> match LastPost(log, e.id)
                           case Some(Posted(_, before, tried)) => e.at >= before + Backoff(tried) && e.attempts == tried + 1
                           case _ => true
    ensures Spaced(log + [e])
  {
    var more := log + [e];
    forall j | 0 <= j < |more| ensures SpacedAt(more, j) {
      if j < |log| {
        assert more[..j] == log[..j] && SpacedAt(log, j);
      } else {
        assert more[..j] == log;
      }
    }
  }

  // ----- every step keeps the invariant -----

  lemma InvStart(max: nat)
    requires max >= 1
    ensures Inv(max, START)
  {
  }

  lemma {:induction false} InvEnqueue(max: nat, s: State, op: Op)
    requires max >= 1 && Inv(max, s) && op.Enqueue? && Enabled(s, op)
    ensures Inv(max, Step(max, s, op))
  {
    var t := Step(max, s, op);
    forall id | id in t.deliveries ensures Accounts(max, t, id) && Timing(t, id) {
      if id == op.id {
        assert NoHistory(s, id);
      } else {
        assert Accounts(max, s, id) && Timing(s, id);
      }
    }
  }

  lemma {:induction false} InvFetch(max: nat, s: State, op: Op)
    requires max >= 1 && Inv(max, s) && op.Fetch? && Enabled(s, op)
    ensures Inv(max, Step(max, s, op))
  {
    var t := Step(max, s, op);
    forall id | id in t.deliveries ensures Accounts(max, t, id) && Timing(t, id) {
      assert Accounts(max, s, id) && Timing(s, id) && !Batched(s, id);
    }
  }

  // Sending takes exactly the first item out of the batch.
  lemma SendBatch(s: State, id: string)
    requires s.batch != [] && Held(s)
    ensures HasItem(s.batch[1..], id) <==> HasItem(s.batch, id) && id != s.batch[0].id
  {
  }

  lemma {:induction false} SendHeld(max: nat, s: State, op: Op)
    requires Held(s) && op.Send? && Enabled(s, op)
    ensures Held(Step(max, s, op))
  {
  }

  lemma {:induction false} SendOne(max: nat, s: State, op: Op, id: string)
    requires max >= 1 && Inv(max, s) && op.Send? && Enabled(s, op)
    ensures id in s.deliveries ==> Accounts(max, Step(max, s, op), id) && Timing(Step(max, s, op), id)
    ensures id !in s.deliveries ==> NoHistory(Step(max, s, op), id)
  {
    var it := s.batch[0];
    SendBatch(s, id);
    Append(s.log, Posted(it.id, s.now, it.attempts), id);
    if id in s.deliveries {
      assert Accounts(max, s, id) && Timing(s, id);
    } else {
      assert NoHistory(s, id);
    }
  }

  lemma {:induction false} InvSend(max: nat, s: State, op: Op)
    requires max >= 1 && Inv(max, s) && op.Send? && Enabled(s, op)
    ensures Inv(max, Step(max, s, op))
  {
    var it := s.batch[0];
    SendHeld(max, s, op);
    assert Batched(s, it.id) && Timing(s, it.id);
    SpacedAppend(s.log, Posted(it.id, s.now, it.attempts));
    forall id | id in s.deliveries ensures Accounts(max, Step(max, s, op), id) && Timing(Step(max, s, op), id) { SendOne(max, s, op, id); }
    forall id | id !in s.deliveries ensures NoHistory(Step(max, s, op), id) { SendOne(max, s, op, id); }
  }

  // The delivery whose POST has come back: its counters after each outcome.
  lemma {:induction false} FinishOwnLog(log: seq<Event>, id: string, outcome: Outcome)
    ensures var more := log + [Finished(id, outcome)];
            && Posts(more, id) == Posts(log, id) && Retries(more, id) == Retries(log, id)
            && Finishes(more, id, Kept) == Finishes(log, id, Kept) + (if outcome == Kept then 1 else 0)
            && Finishes(more, id, Done) == Finishes(log, id, Done) + (if outcome == Done then 1 else 0)
            && Finishes(more, id, Dead) == Finishes(log, id, Dead) + (if outcome == Dead then 1 else 0)
  {
  }

  lemma {:induction false} FinishOwnAccounts(max: nat, s: State, op: Op)
    requires max >= 1 && op.Finish? && Enabled(s, op) && s.flight.value.id in s.deliveries
    requires Waiting(s.deliveries[s.flight.value.id]) && s.flight.value.attempts == s.deliveries[s.flight.value.id].attempts
    requires Accounts(max, s, s.flight.value.id)
    ensures Accounts(max, Step(max, s, op), s.flight.value.id)
  {
    var f := s.flight.value;
    FinishOwnLog(s.log, f.id, OutcomeOf(max, f, op.success));
    AppendDead(s.dlq, f.id, f.id);
  }

  lemma {:induction false} FinishOwnTiming(max: nat, s: State, op: Op)
    requires op.Finish? && Enabled(s, op) && s.flight.value.id in s.deliveries
    requires !Batched(s, s.flight.value.id) && s.flight.value.attempts == s.deliveries[s.flight.value.id].attempts
    requires Timing(s, s.flight.value.id)
    ensures Timing(Step(max, s, op), s.flight.value.id)
  {
  }

  lemma {:induction false} FinishOwn(max: nat, s: State, op: Op)
    requires max >= 1 && Inv(max, s) && op.Finish? && Enabled(s, op)
    ensures s.flight.value.id in s.deliveries
    ensures Accounts(max, Step(max, s, op), s.flight.value.id) && Timing(Step(max, s, op), s.flight.value.id)
  {
    assert Held(s) && Accounts(max, s, s.flight.value.id) && Timing(s, s.flight.value.id);
    FinishOwnAccounts(max, s, op);
    FinishOwnTiming(max, s, op);
  }

  lemma {:induction false} FinishOther(max: nat, s: State, op: Op, id: string)
    requires max >= 1 && Inv(max, s) && op.Finish? && Enabled(s, op) && id != s.flight.value.id
    ensures id in s.deliveries ==> Accounts(max, Step(max, s, op), id) && Timing(Step(max, s, op), id)
    ensures id !in s.deliveries ==> NoHistory(Step(max, s, op), id)
  {
    var t, f := Step(max, s, op), s.flight.value;
    Append(s.log, Finished(f.id, OutcomeOf(max, f, op.success)), id);
    AppendDead(s.dlq, f.id, id);
    if id in s.deliveries {
      assert Accounts(max, s, id) && Timing(s, id);
      assert t.deliveries[id] == s.deliveries[id] && (Batched(t, id) <==> Batched(s, id));
    } else {
      assert NoHistory(s, id);
    }
  }

  lemma {:induction false} FinishHeld(max: nat, s: State, op: Op)
    requires Held(s) && op.Finish? && Enabled(s, op)
    ensures Held(Step(max, s, op))
  {
  }

  lemma {:induction false} FinishOne(max: nat, s: State, op: Op, id: string)
    requires max >= 1 && Inv(max, s) && op.Finish? && Enabled(s, op)
    ensures id in s.deliveries ==> Accounts(max, Step(max, s, op), id) && Timing(Step(max, s, op), id)
    ensures id !in s.deliveries ==> NoHistory(Step(max, s, op), id)
  {
    if id == s.flight.value.id { FinishOwn(max, s, op); } else { FinishOther(max, s, op, id); }
  }

  // Finishing records its outcome and creates no delivery.
  lemma {:induction false} FinishFrame(max: nat, s: State, op: Op)
    requires Held(s) && op.Finish? && Enabled(s, op)
    ensures Step(max, s, op).deliveries.Keys == s.deliveries.Keys
    ensures Step(max, s, op).log == s.log + [Finished(s.flight.value.id, OutcomeOf(max, s.flight.value, op.success))]
  {
  }

  lemma {:induction false} InvFinish(max: nat, s: State, op: Op)
    requires max >= 1 && Inv(max, s) && op.Finish? && Enabled(s, op)
    ensures Inv(max, Step(max, s, op))
  {
    FinishHeld(max, s, op);
    FinishFrame(max, s, op);
    SpacedAppend(s.log, Finished(s.flight.value.id, OutcomeOf(max, s.flight.value, op.success)));
    forall id | id in s.deliveries ensures Accounts(max, Step(max, s, op), id) && Timing(Step(max, s, op), id) {
      FinishOne(max, s, op, id);
    }
    forall id | id !in s.deliveries ensures NoHistory(Step(max, s, op), id) { FinishOne(max, s, op, id); }
  }

  lemma {:induction false} RetryOne(max: nat, s: State, op: Op, id: string)
    requires max >= 1 && Inv(max, s) && op.RetryOp? && op.id in s.deliveries && s.deliveries[op.id].tenant == op.tenant
    ensures id in s.deliveries ==> Accounts(max, Step(max, s, op), id) && Timing(Step(max, s, op), id)
    ensures id !in s.deliveries ==> NoHistory(Step(max, s, op), id)
  {
    Append(s.log, Retried(op.id), id);
    if id in s.deliveries {
      assert Accounts(max, s, id) && Timing(s, id);
      assert Batched(Step(max, s, op), id) <==> Batched(s, id);
    } else {
      assert NoHistory(s, id);
    }
  }

  lemma {:induction false} InvRetry(max: nat, s: State, op: Op)
    requires max >= 1 && Inv(max, s) && op.RetryOp? && Enabled(s, op)
    ensures Inv(max, Step(max, s, op))
  {
    var t := Step(max, s, op);
    if op.id in s.deliveries && s.deliveries[op.id].tenant == op.tenant {
      SpacedAppend(s.log, Retried(op.id));
      forall id | id in t.deliveries ensures Accounts(max, t, id) && Timing(t, id) { RetryOne(max, s, op, id); }
      forall id | id !in t.deliveries ensures NoHistory(t, id) { RetryOne(max, s, op, id); }
    }
  }

  lemma {:induction false} InvWait(max: nat, s: State, op: Op)
    requires max >= 1 && Inv(max, s) && op.Wait? && Enabled(s, op)
    ensures Inv(max, Step(max, s, op))
  {
    var t := Step(max, s, op);
    forall id | id in t.deliveries ensures Accounts(max, t, id) && Timing(t, id) {
      assert Accounts(max, s, id) && Timing(s, id);
    }
  }

  lemma InvStep(max: nat, s: State, op: Op)
    requires max >= 1 && Inv(max, s) && Enabled(s, op)
    ensures Inv(max, Step(max, s, op))
  {
    match op
    case Enqueue(_, _) => InvEnqueue(max, s, op);
    case Fetch(_) => InvFetch(max, s, op);
    case Send => InvSend(max, s, op);
    case Finish(_) => InvFinish(max, s, op);
    case RetryOp(_, _) => InvRetry(max, s, op);
    case Wait(_) => InvWait(max, s, op);
  }

  lemma {:induction false} InvRuns(max: nat, s: State, ops: seq<Op>, t: State)
    requires max >= 1 && Inv(max, s) && Runs(max, s, ops, t)
    ensures Inv(max, t)
    decreases |ops|
  {
    if ops != [] {
      InvStep(max, s, ops[0]);
      InvRuns(max, Step(max, s, ops[0]), ops[1..], t);
    }
  }

  // ----- the main results, over every interleaving -----

  // Each POST is accounted for by an attempt, a dead-letter entry or the one still in flight, and
  // there are never more than MaxAttempts plus one for each manual retry.
  lemma PostsAccounted(max: nat, ops: seq<Op>, s: State, id: string)
    requires max >= 1 && Runs(max, START, ops, s) && id in s.deliveries
    ensures Posts(s.log, id) == s.deliveries[id].attempts + Occurrences(s.dlq, id) + (if InFlight(s, id) then 1 else 0)
    ensures Posts(s.log, id) <= max + Retries(s.log, id)
  {
    InvStart(max);
    InvRuns(max, START, ops, s);
    assert Accounts(max, s, id);
    assert Held(s);
  }

  // A delivery that is neither retried by hand nor ever accepted is dead-lettered, once, exactly when
  // its MaxAttempts-th POST has come back.
  lemma DeadLetteredAfterMax(max: nat, ops: seq<Op>, s: State, id: string)
    requires max >= 1 && Runs(max, START, ops, s) && id in s.deliveries
    requires Retries(s.log, id) == 0 && Finishes(s.log, id, Done) == 0
    ensures s.deliveries[id].status == Failed <==> Posts(s.log, id) == max && !InFlight(s, id)
    ensures s.deliveries[id].status == Failed <==> Occurrences(s.dlq, id) == 1
    ensures s.deliveries[id].status != Failed ==> Waiting(s.deliveries[id]) && Occurrences(s.dlq, id) == 0
  {
    InvStart(max);
    InvRuns(max, START, ops, s);
    assert Accounts(max, s, id);
    assert Held(s);
  }

  // Two POSTs of a delivery with no manual retry between them are at least the backoff apart.
  lemma PostsSpaced(max: nat, ops: seq<Op>, s: State, j: nat)
    requires max >= 1 && Runs(max, START, ops, s) && j < |s.log|
    ensures SpacedAt(s.log, j)
  {
    InvStart(max);
    InvRuns(max, START, ops, s);
  }

  // ----- the worker's pass as a run of the machine -----

  lemma {:induction false} RunsAppend(max: nat, s: State, ops: seq<Op>, t: State, op: Op)
    requires Runs(max, s, ops, t) && Enabled(t, op)
    ensures Runs(max, s, ops + [op], Step(max, t, op))
    decreases |ops|
  {
    var more := ops + [op];
    if ops == [] {
      assert more[1..] == [];
    } else {
      assert more[1..] == ops[1..] + [op];
      RunsAppend(max, Step(max, s, ops[0]), ops[1..], t, op);
    }
  }

  ghost predicate Mirrors(store: MemoryQueue, s: State)
    reads store
  {
    store.Valid() && store.deliveries == s.deliveries && store.dlq == s.dlq
  }

  // One item: send it, let time pass until the answer is there, record the outcome.
  method Deliver(store: MemoryQueue, max: nat, it: Item, now: int, ghost s: State) returns (later: int, ghost ops: seq<Op>, ghost t: State)
    requires Mirrors(store, s) && s.now == now && s.flight == None && s.batch != [] && s.batch[0] == it
    modifies store
    ensures Runs(max, s, ops, t) && Mirrors(store, t)
    ensures t.now == later && t.flight == None && t.batch == s.batch[1..]
    ensures |ops| == 3 && ops[0].Send? && ops[1].Wait? && ops[2].Finish?
  {
    var wait := NextBackoff(it.attempts);
    var retryAt := now + wait;
    ghost var sent := Step(max, s, Send);
    RunsAppend(max, s, [], s, Send);
    var elapsed: nat := *;
    later := now + elapsed;
    ghost var back := Step(max, sent, Wait(elapsed));
    RunsAppend(max, s, [] + [Send], sent, Wait(elapsed));
    var success: bool := *;
    t := Step(max, back, Finish(success));
    ops := [] + [Send] + [Wait(elapsed)] + [Finish(success)];
    RunsAppend(max, s, [] + [Send] + [Wait(elapsed)], back, Finish(success));
    if !success && it.attempts + 1 >= max {
      store.Fail(it.id);
    } else {
      store.Mark(it.id, success, Some(retryAt), later);
    }
  }

  lemma {:induction false} RunsConcat(max: nat, s: State, a: seq<Op>, t: State, b: seq<Op>, u: State)
    requires Runs(max, s, a, t) && Runs(max, t, b, u)
    ensures Runs(max, s, a + b, u)
    decreases |a|
  {
    if a == [] {
      assert a + b == b;
    } else {
      assert (a + b)[1..] == a[1..] + b;
      RunsConcat(max, Step(max, s, a[0]), a[1..], t, b, u);
    }
  }

  // A pass fetches once and then sends every fetched item and records its outcome.
  ghost predicate WholePass(ops: seq<Op>, items: seq<Item>, done: nat) {
    |ops| == 1 + 3 * done && ops[0] == Fetch(items) &&
    forall k :: 0 <= k < done ==> ops[3 * k + 1].Send? && ops[3 * k + 2].Wait? && ops[3 * k + 3].Finish?
  }

  lemma PassGrows(ops: seq<Op>, items: seq<Item>, done: nat, part: seq<Op>)
    requires WholePass(ops, items, done) && |part| == 3 && part[0].Send? && part[1].Wait? && part[2].Finish?
    ensures WholePass(ops + part, items, done + 1)
  {
    var more := ops + part;
    forall k | 0 <= k < done + 1 ensures more[3 * k + 1].Send? && more[3 * k + 2].Wait? && more[3 * k + 3].Finish? {
      if k == done {
        assert more[3 * k + 1] == part[0] && more[3 * k + 2] == part[1] && more[3 * k + 3] == part[2];
      } else {
        assert more[3 * k + 1] == ops[3 * k + 1] && more[3 * k + 2] == ops[3 * k + 2] && more[3 * k + 3] == ops[3 * k + 3];
      }
    }
  }

  // An uninterrupted pass of the worker is one of the machine's runs, so all results above apply to it.
  method ProcessOnce(store: MemoryQueue, max: nat, now: int, ghost s: State) returns (ghost ops: seq<Op>, ghost t: State)
    requires Mirrors(store, s) && s.now == now && s.flight == None && s.batch == []
    modifies store
    ensures Runs(max, s, ops, t) && Mirrors(store, t) && t.flight == None && t.batch == []
    ensures ops != [] && ops[0].Fetch? && WholePass(ops, ops[0].items, |ops[0].items|)
  {
    var items := store.FetchDue(BATCH, now);
    var clock := now;
    t := Step(max, s, Fetch(items));
    RunsAppend(max, s, [], s, Fetch(items));
    ops := [] + [Fetch(items)];
    for k := 0 to |items|
      invariant Mirrors(store, t) && t.now == clock && t.flight == None && t.batch == items[k..]
      invariant Runs(max, s, ops, t) && WholePass(ops, items, k)
    {
      ghost var was, part := t, [];
      clock, part, t := Deliver(store, max, items[k], clock, t);
      RunsConcat(max, s, ops, was, part, t);
      PassGrows(ops, items, k, part);
      ops := ops + part;
    }
  }
}
