// The destroy half of an iteration: choosing nodes and removing them
// (internal/opt/alns_engine.go:174-201, 582-623).
module Destroy {
  import opened Sequences
  import opened Problems
  import opened Slices
  import opened Schedules

  function Elements(s: seq<nat>): set<nat> {
    set x | x in s
  }

  ghost function WithoutAll(ps: seq<Order>, gone: set<nat>): seq<Order> {
    if ps == [] then [] else [Without(ps[0], gone)] + WithoutAll(ps[1..], gone)
  }

  lemma WithoutAllIndex(ps: seq<Order>, gone: set<nat>)
    ensures |WithoutAll(ps, gone)| == |ps|
    ensures forall i :: 0 <= i < |ps| ==> WithoutAll(ps, gone)[i] == Without(ps[i], gone)
  {
  }

  lemma WithoutNothing(o: Order)
    ensures Without(o, {}) == o
  {
  }

  lemma WithoutAllCounts(ps: seq<Order>, gone: set<nat>)
    ensures forall x :: Assigned(WithoutAll(ps, gone))[x] == if x in gone then 0 else Assigned(ps)[x]
  {
    if ps != [] {
      WithoutAllCounts(ps[1..], gone);
      WithoutMembers(ps[0], gone);
      assert WithoutAll(ps, gone)[1..] == WithoutAll(ps[1..], gone);
    }
  }

  // Removing chosen nodes from plans that serve each node once takes out exactly those nodes.
  lemma RemovalTakesExactly(ps: seq<Order>, removed: seq<nat>)
    requires OnceEach(Assigned(ps)) && Distinct(removed)
    requires forall x :: x in removed ==> x in Assigned(ps)
    ensures Assigned(WithoutAll(ps, Elements(removed))) + multiset(removed) == Assigned(ps)
  {
    var gone := Elements(removed);
    WithoutAllCounts(ps, gone);
    forall x
      ensures (Assigned(WithoutAll(ps, gone)) + multiset(removed))[x] == Assigned(ps)[x]
    {
      DistinctCount(removed, x);
    }
  }

  // The nodes that stay are appended one by one to plan i, which begins empty.
  method KeepNodes(o: Order, rm: set<nat>, out: Fleet, i: nat)
    requires out.Valid() && out.Separate() && i < |out.slices| && out.orders[i] == []
    modifies out, out.Stores()
    ensures out.Valid() && out.Separate() && fresh(out.Stores() - old(out.Stores()))
    ensures out.orders == old(out.orders)[i := Without(o, rm)]
  {
    assert o[0..] == o;
    for k := 0 to |o|
      invariant out.Valid() && out.Separate() && |out.slices| == old(|out.slices|)
      invariant fresh(out.Stores() - old(out.Stores()))
      invariant out.orders == old(out.orders)[i := out.orders[i]] && out.orders[i] + Without(o[k..], rm) == Without(o, rm)
    {
      assert o[k..][0] == o[k] && o[k..][1..] == o[k + 1..];
      if o[k] !in rm { out.AppendTo(i, o[k]); }
    }
    assert out.orders[i] + Without([], rm) == out.orders[i];
  }

  lemma WithoutAllNothing(ps: seq<Order>)
    ensures WithoutAll(ps, {}) == ps
  {
    if ps != [] {
      WithoutNothing(ps[0]);
      WithoutAllNothing(ps[1..]);
    }
  }

  // Whenever anything is removed, the plans and all their orders are freshly allocated, so solutions
  // that share the old ones are not affected by later edits.
  method RemoveNodes(plans: Fleet, removed: seq<nat>) returns (out: Fleet)
    requires plans.Valid()
    ensures out.Valid() && out.orders == WithoutAll(plans.orders, Elements(removed))
    ensures if removed == [] then out == plans else fresh(out) && fresh(out.Stores()) && out.Separate()
  {
    ghost var ps := plans.orders;
    var rm := Elements(removed);
    if removed == [] {
      assert rm == {};
      WithoutAllNothing(ps);
      return plans;
    }
    WithoutAllIndex(ps, rm);
    out := new Fleet(|plans.slices|);
    for i := 0 to |plans.slices|
      invariant fresh(out) && fresh(out.Stores()) && out.Valid() && out.Separate() && |out.orders| == |ps|
      invariant forall j :: 0 <= j < |ps| ==> out.orders[j] == if j < i then Without(ps[j], rm) else []
    {
      KeepNodes(plans.Read(i), rm, out, i);
    }
  }

  ghost function NodesOf(ps: seq<Order>): set<nat> {
    set x | x in Assigned(ps)
  }

  // The draw from `all` is any element, whatever the map's iteration order and the random generator.
  method PickRandomNodes(ps: seq<Order>, k: nat) returns (removed: seq<nat>)
    ensures Distinct(removed) && forall x :: x in removed ==> x in Assigned(ps)
    ensures |removed| == Min(k, |NodesOf(ps)|)
  {
    var all: set<nat> := {};
    for vi := 0 to |ps|
      invariant forall x :: x in all <==> exists i :: 0 <= i < vi && x in ps[i]
    {
      all := all + (set x | x in ps[vi]);
    }
    assert all == NodesOf(ps) by {
      forall x ensures x in all <==> x in NodesOf(ps) { AssignedMembers(ps, x); }
    }
    removed := [];
    while |removed| < k && all != {}
      invariant Distinct(removed) && |removed| <= k && |removed| + |all| == |NodesOf(ps)|
      invariant forall x :: x in removed ==> x in NodesOf(ps) && x !in all
      invariant all <= NodesOf(ps)
      decreases |all|
    {
      var x :| x in all;
      removed := removed + [x];
      all := all - {x};
    }
  }

  datatype Scored = Scored(idx: nat, score: real)

  // Shaw's relatedness: close by, and with overlapping windows.
  function Relatedness(p: Problem, a: nat, b: nat): real
    requires a < |p.nodes| && b < |p.nodes|
  {
    p.d(a, b) - 1000.0 * (if p.nodes[a].tw.Some? && p.nodes[b].tw.Some?
                          then Overlap(p.nodes[a].tw.value, p.nodes[b].tw.value) else 0.0)
  }

  function Overlap(a: Window, b: Window): real {
    var start := if b.start > a.start then b.start else a.start;
    var end := if b.end < a.end then b.end else a.end;
    if end < start then 0.0 else end - start
  }

  // The first n entries are in their final, ascending place.
  ghost predicate Settled(s: seq<Scored>, n: nat) {
    forall i, j :: 0 <= i < n && i < j < |s| ==> s[i].score <= s[j].score
  }

  // Entry i is the least of the entries i..j-1.
  ghost predicate LeastUpTo(s: seq<Scored>, i: nat, j: nat)
    requires i < |s| && j <= |s|
  {
    forall y :: i < y < j ==> s[i].score <= s[y].score
  }

  function Swapped(s: seq<Scored>, i: nat, j: nat): seq<Scored>
    requires i < |s| && j < |s|
  {
    s[i := s[j]][j := s[i]]
  }

  lemma SwapKeeps(s: seq<Scored>, i: nat, j: nat)
    requires i < j < |s| && Settled(s, i) && LeastUpTo(s, i, j) && s[j].score < s[i].score
    ensures Settled(Swapped(s, i, j), i) && LeastUpTo(Swapped(s, i, j), i, j + 1)
    ensures multiset(Swapped(s, i, j)) == multiset(s)
  {
  }

  method SettleNext(rel: array<Scored>, i: nat)
    requires i < rel.Length && Settled(rel[..], i)
    modifies rel
    ensures multiset(rel[..]) == multiset(old(rel[..])) && Settled(rel[..], i + 1)
  {
    for j := i + 1 to rel.Length
      invariant multiset(rel[..]) == multiset(old(rel[..]))
      invariant Settled(rel[..], i) && LeastUpTo(rel[..], i, j)
    {
      ghost var was := rel[..];
      if rel[j].score < rel[i].score {
        SwapKeeps(was, i, j);
        rel[i], rel[j] := rel[j], rel[i];
        assert rel[..] == Swapped(was, i, j);
      }
    }
  }

  method SortByScore(rel: array<Scored>)
    modifies rel
    ensures multiset(rel[..]) == multiset(old(rel[..])) && Settled(rel[..], rel.Length)
  {
    for i := 0 to rel.Length
      invariant multiset(rel[..]) == multiset(old(rel[..])) && Settled(rel[..], i)
    {
      SettleNext(rel, i);
    }
  }

  lemma FlattenStep(ps: seq<Order>, n: nat)
    requires n < |ps|
    ensures Assigned(ps[..n + 1]) == Assigned(ps[..n]) + multiset(ps[n])
  {
    if n > 0 {
      assert ps[..n + 1][1..] == ps[1..][..n] && ps[..n][1..] == ps[1..][..n - 1];
      FlattenStep(ps[1..], n - 1);
    } else {
      assert ps[..1][1..] == [];
    }
  }

  method Flatten(ps: seq<Order>) returns (served: seq<nat>)
    ensures multiset(served) == Assigned(ps)
  {
    served := [];
    assert ps[..|ps|] == ps;
    for vi := 0 to |ps|
      invariant multiset(served) == Assigned(ps[..vi])
    {
      FlattenStep(ps, vi);
      served := served + ps[vi];
    }
  }

  // The other served nodes, each with its relatedness to the seed node.
  method ScoreOthers(p: Problem, served: seq<nat>, seedIdx: nat) returns (rel: seq<Scored>)
    requires KnownNodes(p, served) && seedIdx < |p.nodes|
    ensures |rel| == |served| - multiset(served)[seedIdx]
    ensures forall e :: e in rel ==> ScoredOther(p, served, seedIdx, e)
    ensures forall x :: x in served && x != seedIdx ==> Scored(x, Relatedness(p, seedIdx, x)) in rel
    ensures Distinct(served) ==> Distinct(rel)
  {
    rel := [];
    assert served[..|served|] == served;
    for k := 0 to |served|
      invariant |rel| == k - multiset(served[..k])[seedIdx]
      invariant forall e :: e in rel ==> ScoredOther(p, served[..k], seedIdx, e)
      invariant forall x :: x in served[..k] && x != seedIdx ==> Scored(x, Relatedness(p, seedIdx, x)) in rel
      invariant Distinct(served) ==> Distinct(rel)
    {
      var idx := served[k];
      assert served[..k + 1] == served[..k] + [idx];
      if idx != seedIdx {
        var e := Scored(idx, Relatedness(p, seedIdx, idx));
        if Distinct(served) {
          assert idx !in served[..k];
          assert e !in rel;
        }
        rel := rel + [e];
      }
    }
  }

  ghost predicate ScoredOther(p: Problem, served: seq<nat>, seedIdx: nat, e: Scored)
    requires KnownNodes(p, served) && seedIdx < |p.nodes|
  {
    e.idx in served && e.idx != seedIdx && e.score == Relatedness(p, seedIdx, e.idx)
  }

  // No node left in place is more related to the first removed node than a removed one is.
  ghost predicate MostRelated(p: Problem, served: multiset<nat>, removed: seq<nat>)
    requires removed != [] && KnownNodes(p, removed)
  {
    forall x, k :: x in served && x < |p.nodes| && x !in removed && 1 <= k < |removed| ==>
      Relatedness(p, removed[0], removed[k]) <= Relatedness(p, removed[0], x)
  }

  // The seed node and the first entries of the sorted list, up to k nodes.
  ghost predicate Taken(sorted: seq<Scored>, seedIdx: nat, removed: seq<nat>) {
    1 <= |removed| <= |sorted| + 1 && removed[0] == seedIdx &&
    forall m :: 1 <= m < |removed| ==> removed[m] == sorted[m - 1].idx
  }

  method TakeFirst(rel: array<Scored>, seedIdx: nat, k: nat) returns (removed: seq<nat>)
    ensures Taken(rel[..], seedIdx, removed) && |removed| == Max(1, Min(k, 1 + rel.Length))
  {
    removed := [seedIdx];
    var i := 0;
    while i < rel.Length && |removed| < k
      invariant 0 <= i <= rel.Length && |removed| == i + 1 <= Max(1, k)
      invariant Taken(rel[..], seedIdx, removed)
    {
      removed := removed + [rel[i].idx];
      i := i + 1;
    }
  }

  lemma TakenMembers(p: Problem, served: seq<nat>, list: seq<Scored>, seedIdx: nat, removed: seq<nat>)
    requires KnownNodes(p, served) && seedIdx in served && seedIdx < |p.nodes|
    requires Taken(list, seedIdx, removed)
    requires forall m :: 0 <= m < |list| ==> ScoredOther(p, served, seedIdx, list[m])
    ensures KnownNodes(p, removed) && forall x :: x in removed ==> x in served
    ensures Distinct(list) ==> Distinct(removed)
  {
  }

  lemma TakenMostRelated(p: Problem, served: seq<nat>, list: seq<Scored>, seedIdx: nat, removed: seq<nat>)
    requires KnownNodes(p, served) && seedIdx < |p.nodes| && KnownNodes(p, removed)
    requires Taken(list, seedIdx, removed) && Settled(list, |list|)
    requires forall m :: 0 <= m < |list| ==> ScoredOther(p, served, seedIdx, list[m])
    requires forall x :: x in served && x != seedIdx ==> Scored(x, Relatedness(p, seedIdx, x)) in list
    ensures MostRelated(p, multiset(served), removed)
  {
    forall j | 0 <= j < |removed| - 1 ensures list[j].idx in removed { assert removed[j + 1] in removed; }
    forall x, k | x in multiset(served) && x < |p.nodes| && x !in removed && 1 <= k < |removed|
      ensures Relatedness(p, removed[0], removed[k]) <= Relatedness(p, removed[0], x)
    {
      assert removed[0] == seedIdx && x in served;
      var m :| 0 <= m < |list| && list[m] == Scored(x, Relatedness(p, seedIdx, x));
      assert ScoredOther(p, served, seedIdx, list[k - 1]);
    }
  }

  lemma SortedMembers(list: seq<Scored>, sorted: seq<Scored>)
    requires multiset(sorted) == multiset(list)
    ensures |sorted| == |list| && forall e :: e in sorted <==> e in list
    ensures Distinct(list) ==> Distinct(sorted)
  {
    assert |multiset(sorted)| == |multiset(list)|;
    assert forall e :: e in sorted <==> e in multiset(sorted);
    assert forall e :: e in list <==> e in multiset(list);
    if Distinct(list) {
      DistinctCounts(list);
      CountsDistinct(sorted);
    }
  }

  method RemoveRelated(p: Problem, served: seq<nat>, seedIdx: nat, k: nat) returns (removed: seq<nat>)
    requires KnownNodes(p, served) && seedIdx in served && seedIdx < |p.nodes|
    ensures KnownNodes(p, removed) && forall x :: x in removed ==> x in served
    ensures Distinct(served) ==> Distinct(removed)
    ensures |removed| == Max(1, Min(k, 1 + |served| - multiset(served)[seedIdx])) && removed[0] == seedIdx
    ensures MostRelated(p, multiset(served), removed)
  {
    var list := ScoreOthers(p, served, seedIdx);
    var rel := new Scored[|list|](i requires 0 <= i < |list| => list[i]);
    assert rel[..] == list;
    SortByScore(rel);
    SortedMembers(list, rel[..]);
    forall m | 0 <= m < rel.Length ensures ScoredOther(p, served, seedIdx, rel[..][m]) { assert rel[..][m] in list; }
    removed := TakeFirst(rel, seedIdx, k);
    TakenMembers(p, served, rel[..], seedIdx, removed);
    TakenMostRelated(p, served, rel[..], seedIdx, removed);
  }

  // How the nodes to remove are chosen.
  datatype Removal = AtRandom | Related

  // Up to k served nodes: any distinct ones, or one with those most related to it.
  ghost predicate Picked(p: Problem, ps: seq<Order>, how: Removal, k: nat, removed: seq<nat>) {
    KnownNodes(p, removed) && (forall x :: x in removed ==> x in Assigned(ps)) && (removed == [] <==> Assigned(ps) == multiset{}) &&
    match how
    case AtRandom => Distinct(removed) && |removed| == Min(k, |NodesOf(ps)|)
    case Related =>
      (OnceEach(Assigned(ps)) ==> Distinct(removed)) &&
      (removed != [] ==>
         |removed| == Max(1, Min(k, 1 + |Assigned(ps)| - Assigned(ps)[removed[0]])) && MostRelated(p, Assigned(ps), removed))
  }

  method ShawRemoval(p: Problem, ps: seq<Order>, k: nat) returns (removed: seq<nat>)
    requires Plans(p, ps)
    ensures Picked(p, ps, Related, k, removed)
  {
    var served := Flatten(ps);
    if served == [] { return []; }
    var draw: nat :| draw < |served|;
    forall m | 0 <= m < |served| ensures served[m] < |p.nodes| {
      assert served[m] in multiset(served);
      AssignedKnown(p, ps, served[m]);
    }
    removed := RemoveRelated(p, served, served[draw], k);
    forall x | x in removed ensures x in Assigned(ps) { assert x in multiset(served); }
    if OnceEach(Assigned(ps)) { CountsDistinct(served); }
    assert |multiset(served)| == |served|;
  }
}
