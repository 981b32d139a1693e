// crossExchangeImprove and twoOptStarImprove: moving nodes between two plans
// (internal/opt/alns_engine.go:507-580).
module Exchange {
  import opened Sequences
  import opened Problems

  // ----- replacing a segment of an order by another one -----

  function Splice(o: Order, i: nat, l: nat, seg: Order): Order
    requires i + l <= |o|
  {
    o[..i] + seg + o[i + l..]
  }

  // The order's storage once seg has been written over it from position i on.
  function Overwritten(o: Order, i: nat, seg: Order): Order {
    seq(|o|, j requires 0 <= j < |o| => if i <= j < i + |seg| then seg[j - i] else o[j])
  }

  // The splice as the program writes it: seg is appended to o[..i] within o's own storage, and only
  // then is the tail read from that storage.
  function SpliceInPlace(o: Order, i: nat, l: nat, seg: Order): Order
    requires i + l <= |o|
  {
    o[..i] + seg + Overwritten(o, i, seg)[i + l..]
  }

  // The two appends on a slice of o whose storage has `spare` unused cells. The inner append writes in
  // place when seg fits the storage and moves to fresh storage otherwise.
  method AppendTwice(o: Order, spare: nat, i: nat, l: nat, seg: Order) returns (r: Order)
    requires 1 <= l && i + l <= |o| && |seg| <= 2
    ensures r == SpliceInPlace(o, i, l, seg)
  {
    var storage := new nat[|o| + spare](j => if 0 <= j < |o| then o[j] else 0);
    if i + |seg| <= |o| + spare {
      for t := 0 to |seg|
        invariant forall j :: 0 <= j < |o| ==> storage[j] == if i <= j < i + t then seg[j - i] else o[j]
        invariant forall j :: 0 <= j < t ==> storage[i + j] == seg[j]
      {
        storage[i + t] := seg[t];
      }
      assert storage[..i] == o[..i] && storage[i..i + |seg|] == seg;
      assert storage[i + l..|o|] == Overwritten(o, i, seg)[i + l..];
      r := storage[..i + |seg|];
      assert r == o[..i] + seg;
    } else {
      r := storage[..i] + seg;
      assert storage[..i] == o[..i] && storage[i + l..|o|] == [] == Overwritten(o, i, seg)[i + l..];
    }
    r := r + storage[i + l..|o|];
  }

  // The program's splice is the intended one exactly when the incoming segment is no longer than the
  // outgoing one or no tail follows.
  lemma SpliceInPlaceExact(o: Order, i: nat, l: nat, seg: Order)
    requires 1 <= l <= 2 && 1 <= |seg| <= 2 && i + l <= |o|
    requires forall x :: x in seg ==> x !in o
    ensures SpliceInPlace(o, i, l, seg) == Splice(o, i, l, seg) <==> |seg| <= l || i + l == |o|
  {
    var kept, tail := o[i + l..], Overwritten(o, i, seg)[i + l..];
    if |seg| <= l || i + l == |o| {
      assert tail == kept;
    } else {
      assert tail[0] == seg[1] && kept[0] == o[i + 1];
      assert seg[1] in seg && o[i + 1] in o;
      assert SpliceInPlace(o, i, l, seg)[i + |seg|] == tail[0];
      assert Splice(o, i, l, seg)[i + |seg|] == kept[0];
    }
  }

  // ----- moves between two plans -----

  datatype Mode = AsWritten | Intended

  // Swap node i of the first plan with node j of the second, or exchange the segments of length la
  // from i and lb from j.
  datatype Move = Swap(i: nat, j: nat) | Segments(i: nat, j: nat, la: nat, lb: nat)

  datatype Kind = Cross | TwoOptStar

  predicate Legal(kind: Kind, m: Move, pa: Order, pb: Order) {
    m.i < |pa| && m.j < |pb| &&
    match m
    case Swap(_, _) => kind == Cross
    case Segments(i, j, la, lb) => kind == TwoOptStar && 1 <= la <= 2 && 1 <= lb <= 2 && i + la <= |pa| && j + lb <= |pb|
  }

  function Replace(mode: Mode, o: Order, i: nat, l: nat, seg: Order): Order
    requires i + l <= |o|
  {
    match mode
    case AsWritten => SpliceInPlace(o, i, l, seg)
    case Intended => Splice(o, i, l, seg)
  }

  function FirstAfter(kind: Kind, mode: Mode, m: Move, pa: Order, pb: Order): Order
    requires Legal(kind, m, pa, pb)
  {
    match m
    case Swap(i, j) => pa[i := pb[j]]
    case Segments(i, j, la, lb) => Replace(mode, pa, i, la, pb[j..j + lb])
  }

  function SecondAfter(kind: Kind, mode: Mode, m: Move, pa: Order, pb: Order): Order
    requires Legal(kind, m, pa, pb)
  {
    match m
    case Swap(i, j) => pb[j := pa[i]]
    case Segments(i, j, la, lb) => Replace(mode, pb, j, lb, pa[i..i + la])
  }

  // The move overwrites the first tail node of the plan that receives the longer segment.
  predicate Crooked(mode: Mode, m: Move, pa: Order, pb: Order) {
    mode == AsWritten && m.Segments? &&
    ((m.la < m.lb && m.i + m.la < |pa|) || (m.lb < m.la && m.j + m.lb < |pb|))
  }

  lemma StraightReplace(o: Order, i: nat, l: nat, seg: Order)
    requires i + l <= |o| && (|seg| <= l || i + l == |o|)
    ensures SpliceInPlace(o, i, l, seg) == Splice(o, i, l, seg)
  {
  }

  lemma SpliceMultiset(o: Order, i: nat, l: nat, seg: Order)
    requires i + l <= |o|
    ensures multiset(Splice(o, i, l, seg)) + multiset(o[i..i + l]) == multiset(o) + multiset(seg)
  {
    assert o == o[..i] + o[i..i + l] + o[i + l..];
  }

  lemma ReplaceMultiset(mode: Mode, o: Order, i: nat, l: nat, seg: Order)
    requires i + l <= |o| && (mode == Intended || |seg| <= l || i + l == |o|)
    ensures multiset(Replace(mode, o, i, l, seg)) + multiset(o[i..i + l]) == multiset(o) + multiset(seg)
  {
    if mode == AsWritten { StraightReplace(o, i, l, seg); }
    SpliceMultiset(o, i, l, seg);
  }

  lemma SwapConserves(pa: Order, pb: Order, i: nat, j: nat)
    requires i < |pa| && j < |pb|
    ensures multiset(pa[i := pb[j]]) + multiset(pb[j := pa[i]]) == multiset(pa) + multiset(pb)
  {
  }

  lemma SegmentsConserve(mode: Mode, pa: Order, pb: Order, i: nat, la: nat, j: nat, lb: nat, ca: Order, cb: Order)
    requires i + la <= |pa| && j + lb <= |pb|
    requires ca == Replace(mode, pa, i, la, pb[j..j + lb]) && cb == Replace(mode, pb, j, lb, pa[i..i + la])
    requires mode == Intended || ((lb <= la || i + la == |pa|) && (la <= lb || j + lb == |pb|))
    ensures multiset(ca) + multiset(cb) == multiset(pa) + multiset(pb)
  {
    var sa, sb := pa[i..i + la], pb[j..j + lb];
    ReplaceMultiset(mode, pa, i, la, sb);
    ReplaceMultiset(mode, pb, j, lb, sa);
    ExchangeSum(multiset(pa), multiset(pb), multiset(sa), multiset(sb), multiset(ca), multiset(cb));
  }

  // A move that is not crooked keeps the nodes of the two plans.
  lemma StraightMoveConserves(kind: Kind, mode: Mode, m: Move, pa: Order, pb: Order)
    requires Legal(kind, m, pa, pb) && !Crooked(mode, m, pa, pb)
    ensures multiset(FirstAfter(kind, mode, m, pa, pb)) + multiset(SecondAfter(kind, mode, m, pa, pb))
         == multiset(pa) + multiset(pb)
  {
    var ca, cb := FirstAfter(kind, mode, m, pa, pb), SecondAfter(kind, mode, m, pa, pb);
    match m
    case Swap(i, j) => SwapConserves(pa, pb, i, j);
    case Segments(i, j, la, lb) => SegmentsConserve(mode, pa, pb, i, la, j, lb, ca, cb);
  }

  lemma ExchangeSum(a: multiset<nat>, b: multiset<nat>, x: multiset<nat>, y: multiset<nat>, a': multiset<nat>, b': multiset<nat>)
    requires a' + x == a + y && b' + y == b + x
    ensures a' + b' == a + b
  {
    forall n ensures (a' + b')[n] == (a + b)[n] {
      assert (a' + x)[n] == (a + y)[n] && (b' + y)[n] == (b + x)[n];
    }
  }

  // What a crooked splice does: the first tail node gives way to a second copy of the segment's end.
  lemma CrookedMultiset(o: Order, i: nat, seg: Order)
    requires i + 1 < |o| && |seg| == 2
    ensures multiset(SpliceInPlace(o, i, 1, seg)) + multiset{o[i + 1]} == multiset(Splice(o, i, 1, seg)) + multiset{seg[1]}
  {
    assert Overwritten(o, i, seg)[i + 1..] == [seg[1]] + o[i + 2..];
    assert o[i + 1..] == [o[i + 1]] + o[i + 2..];
  }

  // The plan that receives two nodes for one loses a tail node for a copy of its own.
  lemma CrookedLoses(pa: Order, pb: Order, i: nat, la: nat, j: nat, lb: nat, ca: Order, cb: Order)
    requires la == 1 && lb == 2 && i + la < |pa| && j + lb <= |pb| && Distinct(pa + pb)
    requires ca == SpliceInPlace(pa, i, la, pb[j..j + lb]) && cb == SpliceInPlace(pb, j, lb, pa[i..i + la])
    ensures (multiset(ca) + multiset(cb))[pa[i + la]] + 1 == (multiset(pa) + multiset(pb))[pa[i + la]]
    ensures (multiset(cb) + multiset(ca))[pa[i + la]] + 1 == (multiset(pb) + multiset(pa))[pa[i + la]]
  {
    var sa, sb := pa[i..i + 1], pb[j..j + 2];
    var ia, ib := Splice(pa, i, 1, sb), Splice(pb, j, 2, sa);
    SegmentsConserve(Intended, pa, pb, i, 1, j, 2, ia, ib);
    StraightReplace(pb, j, 2, sa);
    CrookedMultiset(pa, i, sb);
    DistinctParts(pa, pb, i + 1, j + 1);
    ShiftedSum(multiset(ca), multiset(cb), multiset(ia), multiset(ib), pa[i + 1], sb[1]);
  }

  lemma DistinctSwap(pa: Order, pb: Order)
    requires Distinct(pa + pb)
    ensures Distinct(pb + pa)
  {
    DistinctCounts(pa + pb);
    assert multiset(pa + pb) == multiset(pb + pa);
    CountsDistinct(pb + pa);
  }

  // The tail node that a crooked move overwrites.
  function LostNode(mode: Mode, m: Move, pa: Order, pb: Order): nat
    requires Crooked(mode, m, pa, pb)
  {
    if m.la < m.lb then pa[m.i + m.la] else pb[m.j + m.lb]
  }

  lemma CrookedMoveLoses(kind: Kind, mode: Mode, m: Move, pa: Order, pb: Order)
    requires Legal(kind, m, pa, pb) && Distinct(pa + pb) && Crooked(mode, m, pa, pb)
    ensures (multiset(FirstAfter(kind, mode, m, pa, pb)) + multiset(SecondAfter(kind, mode, m, pa, pb)))[LostNode(mode, m, pa, pb)] + 1
         == (multiset(pa) + multiset(pb))[LostNode(mode, m, pa, pb)]
  {
    CrookedCandidatesLose(kind, mode, m, pa, pb, FirstAfter(kind, mode, m, pa, pb), SecondAfter(kind, mode, m, pa, pb),
                          LostNode(mode, m, pa, pb));
  }

  lemma CrookedCandidatesLose(kind: Kind, mode: Mode, m: Move, pa: Order, pb: Order, ca: Order, cb: Order, lost: nat)
    requires Legal(kind, m, pa, pb) && Distinct(pa + pb) && Crooked(mode, m, pa, pb) && lost == LostNode(mode, m, pa, pb)
    requires ca == SpliceInPlace(pa, m.i, m.la, pb[m.j..m.j + m.lb]) && cb == SpliceInPlace(pb, m.j, m.lb, pa[m.i..m.i + m.la])
    ensures (multiset(ca) + multiset(cb))[lost] + 1 == (multiset(pa) + multiset(pb))[lost]
  {
    if m.la < m.lb {
      CrookedFirstLoses(pa, pb, m.i, m.j, ca, cb, lost);
    } else {
      CrookedSecondLoses(pa, pb, m.i, m.j, ca, cb, lost);
    }
  }

  lemma CrookedFirstLoses(pa: Order, pb: Order, i: nat, j: nat, ca: Order, cb: Order, lost: nat)
    requires i + 1 < |pa| && j + 2 <= |pb| && Distinct(pa + pb) && lost == pa[i + 1]
    requires ca == SpliceInPlace(pa, i, 1, pb[j..j + 2]) && cb == SpliceInPlace(pb, j, 2, pa[i..i + 1])
    ensures (multiset(ca) + multiset(cb))[lost] + 1 == (multiset(pa) + multiset(pb))[lost]
  {
    CrookedLoses(pa, pb, i, 1, j, 2, ca, cb);
  }

  lemma CrookedSecondLoses(pa: Order, pb: Order, i: nat, j: nat, ca: Order, cb: Order, lost: nat)
    requires i + 2 <= |pa| && j + 1 < |pb| && Distinct(pa + pb) && lost == pb[j + 1]
    requires ca == SpliceInPlace(pa, i, 2, pb[j..j + 1]) && cb == SpliceInPlace(pb, j, 1, pa[i..i + 2])
    ensures (multiset(ca) + multiset(cb))[lost] + 1 == (multiset(pa) + multiset(pb))[lost]
  {
    DistinctSwap(pa, pb);
    CrookedLoses(pb, pa, j, 1, i, 2, cb, ca);
  }

  // On distinct nodes a move keeps the nodes of the two plans exactly when it is not crooked.
  lemma MoveConservesExactly(kind: Kind, mode: Mode, m: Move, pa: Order, pb: Order)
    requires Legal(kind, m, pa, pb) && Distinct(pa + pb)
    ensures multiset(FirstAfter(kind, mode, m, pa, pb)) + multiset(SecondAfter(kind, mode, m, pa, pb))
         == multiset(pa) + multiset(pb)
       <==> !Crooked(mode, m, pa, pb)
  {
    if !Crooked(mode, m, pa, pb) {
      StraightMoveConserves(kind, mode, m, pa, pb);
    } else {
      CrookedMoveLoses(kind, mode, m, pa, pb);
    }
  }

  lemma DistinctParts(pa: Order, pb: Order, i: nat, j: nat)
    requires Distinct(pa + pb) && i < |pa| && j < |pb|
    ensures pa[i] != pb[j]
  {
    assert (pa + pb)[i] == pa[i] && (pa + pb)[|pa| + j] == pb[j];
  }

  lemma ShiftedSum(a: multiset<nat>, b: multiset<nat>, a': multiset<nat>, b': multiset<nat>, lost: nat, doubled: nat)
    requires a + multiset{lost} == a' + multiset{doubled} && b == b' && lost != doubled
    ensures (a + b)[lost] + 1 == (a' + b')[lost]
  {
    assert (a + multiset{lost})[lost] == (a' + multiset{doubled})[lost];
  }

  // No move brings in a node that neither plan had.
  lemma MoveAddsNothing(kind: Kind, mode: Mode, m: Move, pa: Order, pb: Order, x: nat)
    requires Legal(kind, m, pa, pb)
    requires x in FirstAfter(kind, mode, m, pa, pb) || x in SecondAfter(kind, mode, m, pa, pb)
    ensures x in pa || x in pb
  {
    if m.Segments? {
      ReplaceMembers(mode, pa, m.i, m.la, pb[m.j..m.j + m.lb]);
      ReplaceMembers(mode, pb, m.j, m.lb, pa[m.i..m.i + m.la]);
    }
  }

  lemma ReplaceMembers(mode: Mode, o: Order, i: nat, l: nat, seg: Order)
    requires i + l <= |o|
    ensures forall x :: x in Replace(mode, o, i, l, seg) ==> x in o || x in seg
  {
  }

  lemma ReplaceShape(p: Problem, mode: Mode, o: Order, i: nat, l: nat, seg: Order)
    requires i + l <= |o| && KnownNodes(p, o) && KnownNodes(p, seg)
    ensures |Replace(mode, o, i, l, seg)| == |o| - l + |seg| && KnownNodes(p, Replace(mode, o, i, l, seg))
  {
  }

  // Every move keeps the number of nodes of the two plans, and their range.
  lemma MoveKeepsShape(p: Problem, kind: Kind, mode: Mode, m: Move, pa: Order, pb: Order)
    requires Legal(kind, m, pa, pb) && KnownNodes(p, pa) && KnownNodes(p, pb)
    ensures |FirstAfter(kind, mode, m, pa, pb)| + |SecondAfter(kind, mode, m, pa, pb)| == |pa| + |pb|
    ensures KnownNodes(p, FirstAfter(kind, mode, m, pa, pb)) && KnownNodes(p, SecondAfter(kind, mode, m, pa, pb))
  {
    if m.Segments? {
      ReplaceShape(p, mode, pa, m.i, m.la, pb[m.j..m.j + m.lb]);
      ReplaceShape(p, mode, pb, m.j, m.lb, pa[m.i..m.i + m.la]);
    }
  }
}
