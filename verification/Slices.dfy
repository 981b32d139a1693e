// Orders as the program stores them: slices of heap storage, and the plans that refer to them. The
// plans of two solutions may be the same object, and two plans may refer to the same storage.
module Slices {
  import opened Sequences
  import opened Problems

  // The first `len` cells of the storage; the cells after them are spare capacity.
  datatype Slice = Slice(store: array<nat>, len: nat) {
    ghost predicate Holds(o: Order)
      reads store
    {
      len <= store.Length && store[..len] == o
    }
  }

  // append([]int(nil), o...): a copy in storage of its own, with some spare cells.
  method Copy(o: Order) returns (s: Slice)
    ensures fresh(s.store) && s.Holds(o)
  {
    var spare: nat :| spare >= 0;
    var store := new nat[|o| + spare](j => if 0 <= j < |o| then o[j] else 0);
    s := Slice(store, |o|);
  }

  // append(s, x): in place while there is a spare cell, else in fresh storage.
  method Append(s: Slice, ghost o: Order, x: nat) returns (r: Slice)
    requires s.Holds(o)
    modifies s.store
    ensures r.Holds(o + [x]) && (r.store == s.store || fresh(r.store))
  {
    if s.len < s.store.Length {
      s.store[s.len] := x;
      r := Slice(s.store, s.len + 1);
    } else {
      r := Copy(s.store[..s.len] + [x]);
    }
  }

  // The shift that makes room for x at pos: in place while there is a spare cell, else in fresh storage.
  method Insert(s: Slice, ghost o: Order, pos: nat, x: nat) returns (r: Slice)
    requires s.Holds(o) && pos < |o|
    modifies s.store
    ensures r.Holds(InsertAt(o, pos, x)) && (r.store == s.store || fresh(r.store))
  {
    if s.len < s.store.Length {
      var t := s.len;
      while t > pos
        invariant pos <= t <= s.len
        invariant forall j :: 0 <= j < t ==> s.store[j] == o[j]
        invariant forall j :: t < j <= s.len ==> s.store[j] == o[j - 1]
      {
        s.store[t] := s.store[t - 1];
        t := t - 1;
      }
      r := Slice(s.store, s.len + 1);
    } else {
      r := Copy(s.store[..pos + 1] + s.store[pos..s.len]);
    }
    r.store[pos] := x;
  }

  // The plans of a solution, one slice for each vehicle; `orders` is what the slices hold.
  class Fleet {
    var slices: seq<Slice>
    ghost var orders: seq<Order>

    ghost function Stores(): set<array<nat>>
      reads this
    {
      set i | 0 <= i < |slices| :: slices[i].store
    }

    ghost predicate Valid()
      reads this, Stores()
    {
      |orders| == |slices| && forall i :: 0 <= i < |slices| ==> slices[i].Holds(orders[i])
    }

    // No two plans share storage, so writing into one order leaves the others alone.
    ghost predicate Separate()
      reads this
    {
      forall i, j :: 0 <= i < j < |slices| ==> slices[i].store != slices[j].store
    }

    // Plans without any node, each with storage of its own.
    constructor (n: nat)
      ensures Valid() && Separate() && fresh(Stores()) && orders == seq(n, _ => [])
    {
      slices, orders := [], [];
      new;
      for vi := 0 to n
        invariant |slices| == vi && Valid() && Separate() && orders == seq(vi, _ => [])
        invariant forall j :: 0 <= j < vi ==> fresh(slices[j].store)
      {
        var s := Copy([]);
        slices, orders := slices + [s], orders + [[]];
      }
    }

    function Read(i: nat): (o: Order)
      requires Valid() && i < |slices|
      reads this, Stores()
      ensures o == orders[i]
    {
      slices[i].store[..slices[i].len]
    }

    function ReadAll(): (ps: seq<Order>)
      requires Valid()
      reads this, Stores()
      ensures ps == orders
    {
      seq(|slices|, i requires 0 <= i < |slices| && Valid() reads this, Stores() => Read(i))
    }

    // Plan i is replaced by a copy of o; what the other plans refer to stays.
    method Write(i: nat, o: Order)
      requires Valid() && i < |slices|
      modifies this
      ensures Valid() && orders == old(orders)[i := o] && |slices| == old(|slices|)
    {
      var s := Copy(o);
      slices, orders := slices[i := s], orders[i := o];
    }

    // Node x is added at the end of plan i, within the storage of the plan when that has room.
    method AppendTo(i: nat, x: nat)
      requires Valid() && Separate() && i < |slices|
      modifies this, slices[i].store
      ensures Valid() && Separate() && orders == old(orders)[i := old(orders)[i] + [x]] && |slices| == old(|slices|)
      ensures fresh(Stores() - old(Stores()))
    {
      var s := Append(slices[i], orders[i], x);
      slices, orders := slices[i := s], orders[i := orders[i] + [x]];
    }

    // Node x is put at position pos of plan i, within the storage of the plan when that has room.
    method InsertInto(i: nat, pos: nat, x: nat)
      requires Valid() && Separate() && i < |slices| && pos < |orders[i]|
      modifies this, slices[i].store
      ensures Valid() && Separate() && orders == old(orders)[i := InsertAt(old(orders)[i], pos, x)] && |slices| == old(|slices|)
      ensures fresh(Stores() - old(Stores()))
    {
      var s := Insert(slices[i], orders[i], pos, x);
      slices, orders := slices[i := s], orders[i := InsertAt(orders[i], pos, x)];
    }
  }
}
