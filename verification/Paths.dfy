// Distances between places and the length of a visiting order.
//
// A place is an index that stands for a coordinate pair; the great-circle formula is replaced
// by an arbitrary pseudo-metric on places.
module Paths {
  import opened Sequences

  type Place = nat
  type Distance = (nat, nat) -> real

  ghost predicate NonNegative(d: Distance) {
    forall x, y :: d(x, y) >= 0.0
  }

  ghost predicate Symmetric(d: Distance) {
    forall x, y :: d(x, y) == d(y, x)
  }

  ghost predicate Reflexive(d: Distance) {
    forall x :: d(x, x) == 0.0
  }

  // Always true: naming a detour lets the triangle inequality be used for it, and only for it.
  ghost predicate Detour(x: Place, y: Place, z: Place) { true }

  ghost predicate Triangle(d: Distance) {
    forall x, y, z {:trigger Detour(x, y, z)} :: Detour(x, y, z) ==> d(x, z) <= d(x, y) + d(y, z)
  }

  ghost predicate Metric(d: Distance) {
    NonNegative(d) && Symmetric(d) && Reflexive(d) && Triangle(d)
  }

  // The length of the path that visits the places of s in order.
  ghost function Length(d: Distance, s: seq<Place>): real {
    if |s| < 2 then 0.0 else d(s[0], s[1]) + Length(d, s[1..])
  }

  lemma LengthNonNegative(d: Distance, s: seq<Place>)
    requires NonNegative(d)
    ensures Length(d, s) >= 0.0
  {
  }

  lemma LengthJoin(d: Distance, a: seq<Place>, b: seq<Place>)
    requires a != [] && b != []
    ensures Length(d, a + b) == Length(d, a) + d(a[|a| - 1], b[0]) + Length(d, b)
  {
    if |a| == 1 {
      assert (a + b)[1..] == b;
    } else {
      assert (a + b)[1..] == a[1..] + b;
      LengthJoin(d, a[1..], b);
    }
  }

  lemma LengthAppend(d: Distance, s: seq<Place>, x: Place)
    requires s != []
    ensures Length(d, s + [x]) == Length(d, s) + d(s[|s| - 1], x)
  {
    LengthJoin(d, s, [x]);
  }

  lemma LengthReverse(d: Distance, s: seq<Place>)
    requires Symmetric(d)
    ensures Length(d, Reverse(s)) == Length(d, s)
  {
    if |s| > 1 {
      ReverseIndex(s[1..]);
      LengthReverse(d, s[1..]);
      LengthJoin(d, Reverse(s[1..]), [s[0]]);
    }
  }

  // Length of a path cut into three non-empty pieces.
  lemma LengthThree(d: Distance, a: seq<Place>, b: seq<Place>, c: seq<Place>)
    requires a != [] && b != [] && c != []
    ensures Length(d, a + b + c)
         == Length(d, a) + d(a[|a| - 1], b[0]) + Length(d, b) + d(b[|b| - 1], c[0]) + Length(d, c)
  {
    LengthJoin(d, a + b, c);
    LengthJoin(d, a, b);
  }

  // Under a symmetric distance, reversing an interior segment changes the two boundary edges only.
  lemma ReversalChangesTwoEdges(d: Distance, s: seq<Place>, i: nat, k: nat)
    requires Symmetric(d) && 1 <= i <= k < |s| - 1
    ensures Length(d, ReverseSegment(s, i, k))
         == Length(d, s) - d(s[i - 1], s[i]) - d(s[k], s[k + 1]) + d(s[i - 1], s[k]) + d(s[i], s[k + 1])
  {
    var a, b, c := s[..i], s[i..k + 1], s[k + 1..];
    assert s == a + b + c;
    ReverseSegmentParts(s, i, k);
    ReverseIndex(b);
    LengthReverse(d, b);
    LengthThree(d, a, b, c);
    LengthThree(d, a, Reverse(b), c);
  }
}
