// The standalone 2-opt pass (internal/opt/heuristics.go).
module Heuristics {
  import opened Sequences
  import opened Paths

  method PathDistance(d: Distance, order: seq<Place>) returns (total: real)
    ensures total == Length(d, order)
  {
    total := 0.0;
    var i := 0;
    assert order[0..] == order;
    while i < |order| - 1
      invariant 0 <= i && (order == [] || i < |order|)
      invariant order == [] ==> total == 0.0
      invariant order != [] ==> total + Length(d, order[i..]) == Length(d, order)
    {
      assert order[i..][1..] == order[i + 1..];
      total := total + d(order[i], order[i + 1]);
      i := i + 1;
    }
  }

  method TwoOptSwap(ord: seq<Place>, i: nat, k: nat) returns (out: seq<Place>)
    requires i <= k < |ord|
    ensures out == ReverseSegment(ord, i, k)
  {
    var a := new Place[|ord|];
    forall j | 0 <= j < i { a[j] := ord[j]; }
    var pos, j := i, k as int;
    while j >= i
      invariant i - 1 <= j <= k && pos == i + k - j
      invariant forall m :: 0 <= m < i ==> a[m] == ord[m]
      invariant forall m :: i <= m < pos ==> a[m] == ord[i + k - m]
    {
      a[pos] := ord[j];
      pos := pos + 1;
      j := j - 1;
    }
    forall m | pos <= m < |ord| { a[m] := ord[m]; }
    out := a[..];
  }

  // No reversal of an interior segment saves more than the threshold.
  ghost predicate NoReversalSaves(d: Distance, order: seq<Place>, threshold: real) {
    forall i, k :: 1 <= i < k < |order| - 1 ==>
      Length(d, order) <= Length(d, ReverseSegment(order, i, k)) + threshold
  }

  ghost predicate SameEnds(a: seq<Place>, b: seq<Place>) {
    |a| == |b| && (a != [] ==> a[0] == b[0] && a[|a| - 1] == b[|b| - 1])
  }

  // The segments (i, k) that a pass has met before it looks at (i1, k1).
  ghost predicate Before(i: nat, k: nat, i1: nat, k1: nat) {
    i < i1 || (i == i1 && k < k1)
  }

  // Either the result is locally optimal, or every pass up to the limit saved more than a millimetre.
  method ImproveOrder2Opt(d: Distance, order: seq<Place>, iterations: int) returns (best: seq<Place>)
    ensures multiset(best) == multiset(order) && SameEnds(best, order)
    ensures Length(d, best) <= Length(d, order)
    ensures NoReversalSaves(d, best, 0.001)
         || Length(d, best) + 0.001 * (Max(iterations, 1) as real) < Length(d, order)
  {
    var limit := Max(iterations, 1);
    best := order;
    var bestDist := PathDistance(d, best);
    var n, it := |order|, 0;
    while it < limit
      invariant 0 <= it <= limit
      invariant multiset(best) == multiset(order) && SameEnds(best, order)
      invariant bestDist == Length(d, best) <= Length(d, order) - 0.001 * (it as real)
      invariant it > 0 ==> bestDist < Length(d, order) - 0.001 * (it as real)
    {
      var improved := false;
      ghost var start := best;
      var i := 1;
      while i < n - 2
        invariant 1 <= i
        invariant multiset(best) == multiset(order) && SameEnds(best, order)
        invariant bestDist == Length(d, best)
        invariant !improved ==> best == start
        invariant improved ==> bestDist + 0.001 < Length(d, start)
        invariant !improved ==> forall i', k' :: 1 <= i' < k' < n - 1 && Before(i', k', i, 0) ==>
            Length(d, best) <= Length(d, ReverseSegment(best, i', k')) + 0.001
      {
        var k := i + 1;
        while k < n - 1
          invariant i < k
          invariant multiset(best) == multiset(order) && SameEnds(best, order)
          invariant bestDist == Length(d, best)
          invariant !improved ==> best == start
          invariant improved ==> bestDist + 0.001 < Length(d, start)
          invariant !improved ==> forall i', k' :: 1 <= i' < k' < n - 1 && Before(i', k', i, k) ==>
              Length(d, best) <= Length(d, ReverseSegment(best, i', k')) + 0.001
        {
          var newOrder := TwoOptSwap(best, i, k);
          ReverseSegmentMultiset(best, i, k);
          var dist := PathDistance(d, newOrder);
          if dist + 0.001 < bestDist {
            best := newOrder;
            bestDist := dist;
            improved := true;
          }
          k := k + 1;
        }
        i := i + 1;
      }
      if !improved {
        assert NoReversalSaves(d, best, 0.001);
        break;
      }
      it := it + 1;
    }
  }
}
