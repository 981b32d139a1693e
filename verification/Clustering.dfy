// The greedy planner: farthest-first seeds, nearest-seed clusters and nearest-neighbour tours
// (internal/store/postgres.go:886-922, 1092-1122).
module Clustering {
  import opened Sequences
  import opened Paths
  import opened Heuristics

  // The distance from i to the nearest of the seeds.
  ghost function Near(d: Distance, seeds: seq<Place>, i: Place): real
    requires seeds != []
  {
    var last := |seeds| - 1;
    if last == 0 then d(i, seeds[0])
    else if d(i, seeds[last]) < Near(d, seeds[..last], i) then d(i, seeds[last]) else Near(d, seeds[..last], i)
  }

  lemma NearBelow(d: Distance, seeds: seq<Place>, i: Place, a: nat)
    requires a < |seeds|
    ensures Near(d, seeds, i) <= d(i, seeds[a])
  {
  }

  lemma NearAttained(d: Distance, seeds: seq<Place>, i: Place) returns (a: nat)
    requires seeds != []
    ensures a < |seeds| && Near(d, seeds, i) == d(i, seeds[a])
  {
    var last := |seeds| - 1;
    if last == 0 || d(i, seeds[last]) < Near(d, seeds[..last], i) {
      a := last;
    } else {
      a := NearAttained(d, seeds[..last], i);
    }
  }

  lemma NearExtend(d: Distance, seeds: seq<Place>, m: Place, i: Place)
    requires seeds != []
    ensures Near(d, seeds + [m], i) <= Near(d, seeds, i)
  {
  }

  // Any two seeds are at least as far apart as any stop is from its nearest seed.
  ghost predicate Spread(d: Distance, n: nat, seeds: seq<Place>)
    requires seeds != []
  {
    forall i, a, b :: 0 <= i < n && 0 <= a < b < |seeds| ==> Apart(d, seeds, i, a, b)
  }

  ghost predicate Apart(d: Distance, seeds: seq<Place>, i: Place, a: nat, b: nat)
    requires a < b < |seeds|
  {
    d(seeds[b], seeds[a]) >= Near(d, seeds, i)
  }

  // m is the first of the stops that are farthest from the seeds.
  ghost predicate Farthest(d: Distance, n: nat, seeds: seq<Place>, m: Place)
    requires seeds != []
  {
    m < n && m !in seeds &&
    forall i: nat :: i < n && i !in seeds ==>
      Near(d, seeds, i) <= Near(d, seeds, m) && (i < m ==> Near(d, seeds, i) < Near(d, seeds, m))
  }

  lemma SpreadExtend(d: Distance, n: nat, seeds: seq<Place>, m: Place)
    requires Reflexive(d) && NonNegative(d) && seeds != [] && Spread(d, n, seeds) && Farthest(d, n, seeds, m)
    ensures Spread(d, n, seeds + [m])
  {
    var more := seeds + [m];
    forall i, a, b | 0 <= i < n && 0 <= a < b < |more| ensures Apart(d, more, i, a, b) {
      NearExtend(d, seeds, m, i);
      if b < |seeds| {
        assert Apart(d, seeds, i, a, b);
      } else {
        NearBelow(d, seeds, m, a);
        if i in seeds {
          var j :| 0 <= j < |seeds| && seeds[j] == i;
          NearBelow(d, seeds, i, j);
        }
      }
    }
  }

  method DistanceToSeeds(d: Distance, seeds: seq<Place>, i: Place) returns (mind: real)
    requires seeds != []
    ensures mind == Near(d, seeds, i)
  {
    mind := d(i, seeds[0]);
    for s := 1 to |seeds|
      invariant mind == Near(d, seeds[..s], i)
    {
      assert seeds[..s + 1][..s] == seeds[..s];
      var x := d(i, seeds[s]);
      if x < mind { mind := x; }
    }
    assert seeds[..|seeds|] == seeds;
  }

  method FarthestStop(d: Distance, n: nat, seeds: seq<Place>) returns (maxi: Place)
    requires NonNegative(d) && seeds != [] && exists i: nat :: i < n && i !in seeds
    ensures Farthest(d, n, seeds, maxi)
  {
    var best: Option<Place> := None;
    var maxd := -1.0;
    for i: nat := 0 to n
      invariant best.None? ==> maxd == -1.0 && forall j: nat :: j < i ==> j in seeds
      invariant best.Some? ==> best.value < i && best.value !in seeds && maxd == Near(d, seeds, best.value)
      invariant forall j: nat :: j < i && j !in seeds ==>
                  Near(d, seeds, j) <= maxd && (best.Some? && j < best.value ==> Near(d, seeds, j) < maxd)
    {
      if i !in seeds {
        var mind := DistanceToSeeds(d, seeds, i);
        var a := NearAttained(d, seeds, i);
        assert d(i, seeds[a]) >= 0.0;
        if mind > maxd { maxd := mind; best := Some(i); }
      }
    }
    maxi := best.value;
  }

  // Farthest-first traversal from stop 0.
  method SelectSeeds(d: Distance, n: nat, k: nat) returns (seeds: seq<Place>)
    requires NonNegative(d) && Reflexive(d) && n >= 1 && k >= 1
    ensures |seeds| == Min(k, n) && seeds[0] == 0 && Distinct(seeds) && forall a :: 0 <= a < |seeds| ==> seeds[a] < n
    ensures Spread(d, n, seeds)
  {
    seeds := [0];
    while |seeds| < k && |seeds| < n
      invariant 1 <= |seeds| <= Min(k, n) && seeds[0] == 0 && Distinct(seeds) && forall a :: 0 <= a < |seeds| ==> seeds[a] < n
      invariant Spread(d, n, seeds)
      decreases n - |seeds|
    {
      SomeStopLeft(n, seeds);
      var maxi := FarthestStop(d, n, seeds);
      SpreadExtend(d, n, seeds, maxi);
      seeds := seeds + [maxi];
    }
  }

  lemma SomeStopLeft(n: nat, seeds: seq<Place>)
    requires |seeds| < n
    ensures exists i: nat :: i < n && i !in seeds
  {
    if forall i: nat :: i < n ==> i in seeds {
      // send every stop to a position where it occurs among the seeds
      var f := Positions(seeds, n);
      Pigeonhole(f, |seeds|);
    }
  }

  lemma Positions(seeds: seq<Place>, n: nat) returns (f: seq<nat>)
    requires forall i: nat :: i < n ==> i in seeds
    ensures |f| == n && forall i :: 0 <= i < n ==> f[i] < |seeds| && seeds[f[i]] == i
  {
    f := [];
    for i: nat := 0 to n
      invariant |f| == i && forall j :: 0 <= j < i ==> f[j] < |seeds| && seeds[f[j]] == j
    {
      assert i in seeds;
      var a: nat :| a < |seeds| && seeds[a] == i;
      f := f + [a];
    }
  }

  // Seed c is the first of the seeds nearest to i.
  ghost predicate Owns(d: Distance, seeds: seq<Place>, i: Place, c: nat) {
    c < |seeds| && forall a :: 0 <= a < |seeds| ==> d(i, seeds[c]) <= d(i, seeds[a]) && (a < c ==> d(i, seeds[c]) < d(i, seeds[a]))
  }

  method NearestSeed(d: Distance, seeds: seq<Place>, i: Place) returns (best: nat)
    requires seeds != []
    ensures Owns(d, seeds, i, best)
  {
    best := 0;
    var bestd := d(i, seeds[0]);
    for si := 1 to |seeds|
      invariant best < si && bestd == d(i, seeds[best])
      invariant forall a :: 0 <= a < si ==> bestd <= d(i, seeds[a]) && (a < best ==> bestd < d(i, seeds[a]))
    {
      var x := d(i, seeds[si]);
      if x < bestd { bestd := x; best := si; }
    }
  }

  lemma OwnerUnique(d: Distance, seeds: seq<Place>, i: Place, c: nat, c': nat)
    requires Owns(d, seeds, i, c) && Owns(d, seeds, i, c')
    ensures c == c'
  {
    assert d(i, seeds[c]) <= d(i, seeds[c']) && d(i, seeds[c']) <= d(i, seeds[c]);
  }

  function Stops(n: nat): seq<nat> { seq(n, i => i) }

  // The first i stops are in the clusters of their owners, once each, and nowhere else.
  ghost predicate Clustered(d: Distance, seeds: seq<Place>, i: nat, clusters: seq<seq<nat>>) {
    |clusters| == |seeds| && Assigned(clusters) == multiset(Stops(i)) &&
    forall c :: 0 <= c < |clusters| ==> Distinct(clusters[c]) && OwnStops(d, seeds, i, clusters[c], c)
  }

  ghost predicate OwnStops(d: Distance, seeds: seq<Place>, i: nat, cluster: seq<nat>, c: nat) {
    forall j: nat :: j in cluster <==> j < i && Owns(d, seeds, j, c)
  }

  lemma ClusteredStep(d: Distance, seeds: seq<Place>, i: nat, clusters: seq<seq<nat>>, best: nat)
    requires Clustered(d, seeds, i, clusters) && Owns(d, seeds, i, best)
    ensures Clustered(d, seeds, i + 1, clusters[best := clusters[best] + [i]])
  {
    var o := clusters[best];
    var more := clusters[best := o + [i]];
    AssignedInsert(clusters, best, |o|, i);
    assert InsertAt(o, |o|, i) == o + [i] && Stops(i + 1) == Stops(i) + [i];
    forall c | 0 <= c < |more| ensures Distinct(more[c]) && OwnStops(d, seeds, i + 1, more[c], c) {
      assert OwnStops(d, seeds, i, clusters[c], c);
      forall j: nat ensures j in more[c] <==> j < i + 1 && Owns(d, seeds, j, c) {
        if j == i && Owns(d, seeds, i, c) { OwnerUnique(d, seeds, i, c, best); }
      }
    }
  }

  method AssignStops(d: Distance, n: nat, seeds: seq<Place>) returns (clusters: seq<seq<nat>>)
    requires seeds != []
    ensures Clustered(d, seeds, n, clusters)
  {
    clusters := seq(|seeds|, _ => []);
    AssignedEmpty(clusters);
    for i: nat := 0 to n
      invariant Clustered(d, seeds, i, clusters)
    {
      var best := NearestSeed(d, seeds, i);
      ClusteredStep(d, seeds, i, clusters, best);
      clusters := clusters[best := clusters[best] + [i]];
    }
  }

  // ----- the clusters are within twice the best possible radius -----

  ghost predicate CoveredBy(d: Distance, centres: seq<Place>, radius: real, i: Place) {
    exists x :: 0 <= x < |centres| && d(i, centres[x]) <= radius
  }

  ghost predicate Covers(d: Distance, n: nat, centres: seq<Place>, radius: real) {
    forall i: nat :: i < n ==> CoveredBy(d, centres, radius, i)
  }

  lemma OwnDistance(d: Distance, seeds: seq<Place>, i: Place, c: nat)
    requires seeds != [] && Owns(d, seeds, i, c)
    ensures d(i, seeds[c]) == Near(d, seeds, i)
  {
    var a := NearAttained(d, seeds, i);
    NearBelow(d, seeds, i, c);
  }

  // The covering centre of every point.
  lemma Assignment(d: Distance, n: nat, centres: seq<Place>, radius: real, points: seq<Place>) returns (f: seq<nat>)
    requires Covers(d, n, centres, radius) && forall j :: 0 <= j < |points| ==> points[j] < n
    ensures |f| == |points| && forall j :: 0 <= j < |points| ==> f[j] < |centres| && d(points[j], centres[f[j]]) <= radius
  {
    f := [];
    for j: nat := 0 to |points|
      invariant |f| == j && forall m :: 0 <= m < j ==> f[m] < |centres| && d(points[m], centres[f[m]]) <= radius
    {
      assert CoveredBy(d, centres, radius, points[j]);
      var x: nat :| x < |centres| && d(points[j], centres[x]) <= radius;
      f := f + [x];
    }
  }

  // No choice of as many centres, anywhere, has less than half of the planner's largest distance from
  // a stop to its own seed.
  lemma TwoApproximation(d: Distance, n: nat, seeds: seq<Place>, centres: seq<Place>, radius: real, i: Place, c: nat)
    requires Metric(d) && seeds != [] && (forall a :: 0 <= a < |seeds| ==> seeds[a] < n) && Spread(d, n, seeds)
    requires |centres| <= |seeds| && Covers(d, n, centres, radius)
    requires i < n && Owns(d, seeds, i, c)
    ensures d(i, seeds[c]) <= 2.0 * radius
  {
    OwnDistance(d, seeds, i, c);
    var points := seeds + [i];
    var f := Assignment(d, n, centres, radius, points);
    Pigeonhole(f, |seeds|);
    var a, b :| 0 <= a < b < |f| && f[a] == f[b];
    var x, y, z := points[a], points[b], centres[f[a]];
    assert Detour(y, z, x) && d(y, x) <= d(y, z) + d(z, x) && d(z, x) == d(x, z);
    if b < |seeds| {
      assert Apart(d, seeds, i, a, b);
    } else {
      NearBelow(d, seeds, i, a);
    }
  }

  // A cluster with any stop in it contains its own seed, even when stops coincide.
  lemma OwnSeedInCluster(d: Distance, seeds: seq<Place>, i: Place, c: nat)
    requires Metric(d) && Owns(d, seeds, i, c)
    ensures Owns(d, seeds, seeds[c], c)
  {
    var s := seeds[c];
    assert d(s, s) == 0.0;
    forall a | 0 <= a < |seeds| ensures d(s, s) <= d(s, seeds[a]) && (a < c ==> d(s, s) < d(s, seeds[a])) {
      assert Detour(i, s, seeds[a]) && d(s, seeds[a]) >= 0.0;
    }
  }

  // ----- tours -----

  // From `last`, b is the first of the nearest stops that are not in `order`, in the order of idxs.
  ghost predicate FirstNearest(d: Distance, idxs: seq<nat>, order: seq<nat>, last: Place, b: nat) {
    b !in order &&
    exists k: nat :: k < |idxs| && idxs[k] == b && NearestOf(d, idxs, order, last, k, |idxs|)
  }

  // Among the first n stops, k is the first of the nearest that are not in `order`.
  ghost predicate NearestOf(d: Distance, idxs: seq<nat>, order: seq<nat>, last: Place, k: nat, n: nat)
    requires k < |idxs| && n <= |idxs|
  {
    forall j :: 0 <= j < n && idxs[j] !in order ==>
      d(last, idxs[k]) <= d(last, idxs[j]) && (j < k ==> d(last, idxs[k]) < d(last, idxs[j]))
  }

  // The t-th leg of the tour goes to the first of the nearest stops not visited before.
  ghost predicate NearestNext(d: Distance, idxs: seq<nat>, order: seq<nat>, t: nat)
    requires 1 <= t < |order|
  {
    FirstNearest(d, idxs, order[..t], order[t - 1], order[t])
  }

  method NearestUnused(d: Distance, idxs: seq<nat>, order: seq<nat>) returns (best: Option<nat>)
    requires order != []
    ensures match best
            case None => forall j :: 0 <= j < |idxs| ==> idxs[j] in order
            case Some(b) => b in idxs && FirstNearest(d, idxs, order, order[|order| - 1], b)
  {
    best := None;
    var bestd := 0.0;
    var last := order[|order| - 1];
    ghost var k: nat := 0;
    for j: nat := 0 to |idxs|
      invariant match best
                case None => forall m :: 0 <= m < j ==> idxs[m] in order
                case Some(b) => k < j && idxs[k] == b && b !in order && bestd == d(last, b) && NearestOf(d, idxs, order, last, k, j)
    {
      if idxs[j] !in order {
        var x := d(last, idxs[j]);
        if best.None? || x < bestd {
          bestd := x;
          best := Some(idxs[j]);
          k := j;
        }
      }
    }
  }

  lemma SomeUnused(idxs: seq<nat>, order: seq<nat>)
    requires Distinct(idxs) && |order| < |idxs|
    ensures exists j :: 0 <= j < |idxs| && idxs[j] !in order
  {
    if forall j :: 0 <= j < |idxs| ==> idxs[j] in order {
      var f: seq<nat> := [];
      for j: nat := 0 to |idxs|
        invariant |f| == j && forall m :: 0 <= m < j ==> f[m] < |order| && order[f[m]] == idxs[m]
      {
        var a: nat :| a < |order| && order[a] == idxs[j];
        f := f + [a];
      }
      Pigeonhole(f, |order|);
    }
  }

  lemma SameSizeSameStops(idxs: seq<nat>, order: seq<nat>)
    requires Distinct(idxs) && Distinct(order) && |order| == |idxs| && forall x :: x in order ==> x in idxs
    ensures multiset(order) == multiset(idxs)
  {
    forall x ensures multiset(order)[x] == multiset(idxs)[x] {
      DistinctCount(order, x);
      DistinctCount(idxs, x);
      if x in idxs && x !in order {
        SomeUnusedBut(idxs, order, x);
      }
    }
  }

  lemma SomeUnusedBut(idxs: seq<nat>, order: seq<nat>, x: nat)
    requires Distinct(idxs) && Distinct(order) && (forall y :: y in order ==> y in idxs) && x in idxs && x !in order
    ensures |order| < |idxs|
  {
    var more := order + [x];
    if |more| > |idxs| {
      SomeUnused(more, idxs);
    }
  }

  // From the seed on, always to the nearest stop of the cluster that is left.
  method NearestNeighbourTour(d: Distance, idxs: seq<nat>, start: nat) returns (order: seq<nat>)
    requires Distinct(idxs) && start in idxs
    ensures multiset(order) == multiset(idxs) && order[0] == start
    ensures forall t :: 1 <= t < |order| ==> NearestNext(d, idxs, order, t)
  {
    order := [start];
    while |order| < |idxs|
      invariant 1 <= |order| <= |idxs| && order[0] == start && Distinct(order) && forall x :: x in order ==> x in idxs
      invariant forall t :: 1 <= t < |order| ==> NearestNext(d, idxs, order, t)
      decreases |idxs| - |order|
    {
      SomeUnused(idxs, order);
      var best := NearestUnused(d, idxs, order);
      ghost var was := order;
      order := order + [best.value];
      forall t | 1 <= t < |order| ensures NearestNext(d, idxs, order, t) {
        assert order[..t] == was[..t];
        if t < |was| { assert NearestNext(d, idxs, was, t); }
      }
    }
    SameSizeSameStops(idxs, order);
  }

  // The tours of the greedy planner, one for each cluster; a cluster of fewer than two stops has none.
  method PlanTours(d: Distance, n: nat, k: nat) returns (seeds: seq<Place>, clusters: seq<seq<nat>>, tours: seq<seq<nat>>)
    requires Metric(d) && n >= 1 && k >= 1
    ensures |seeds| == |clusters| == |tours| == Min(k, n) && Assigned(clusters) == multiset(Stops(n))
    ensures forall c :: 0 <= c < |tours| ==>
              if |clusters[c]| < 2 then tours[c] == []
              else multiset(tours[c]) == multiset(clusters[c]) && tours[c] != [] && tours[c][0] == seeds[c]
    ensures forall centres: seq<Place>, radius: real, c, i ::
              |centres| <= Min(k, n) && Covers(d, n, centres, radius) && 0 <= c < |clusters| && i in clusters[c] ==>
              d(i, seeds[c]) <= 2.0 * radius
  {
    seeds := SelectSeeds(d, n, k);
    clusters := AssignStops(d, n, seeds);
    tours := [];
    for ci := 0 to |clusters|
      invariant |tours| == ci
      invariant forall c :: 0 <= c < ci ==>
                  if |clusters[c]| < 2 then tours[c] == []
                  else multiset(tours[c]) == multiset(clusters[c]) && tours[c] != [] && tours[c][0] == seeds[c]
    {
      var idxs := clusters[ci];
      if |idxs| < 2 {
        tours := tours + [[]];
      } else {
        assert OwnStops(d, seeds, n, idxs, ci) && idxs[0] in idxs;
        OwnSeedInCluster(d, seeds, idxs[0], ci);
        var order := NearestNeighbourTour(d, idxs, seeds[ci]);
        assert order != [];
        order := ImproveOrder2Opt(d, order, 2);
        assert |multiset(order)| == |multiset(idxs)|;
        tours := tours + [order];
      }
    }
    forall centres: seq<Place>, radius: real, c, i |
      |centres| <= Min(k, n) && Covers(d, n, centres, radius) && 0 <= c < |clusters| && i in clusters[c]
      ensures d(i, seeds[c]) <= 2.0 * radius
    {
      assert OwnStops(d, seeds, n, clusters[c], c);
      TwoApproximation(d, n, seeds, centres, radius, i, c);
    }
  }
}
