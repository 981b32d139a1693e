// Edits of visiting orders, and the multiset of nodes that a list of orders serves.
module Sequences {

  datatype Option<+T> = None | Some(value: T)

  function Max(x: int, y: int): int { if x > y then x else y }

  function Min(x: int, y: int): int { if x < y then x else y }

  ghost predicate Distinct<T>(s: seq<T>) {
    forall i, j :: 0 <= i < j < |s| ==> s[i] != s[j]
  }

  lemma DistinctCount<T(!new)>(s: seq<T>, x: T)
    requires Distinct(s)
    ensures multiset(s)[x] == if x in s then 1 else 0
  {
    if s != [] {
      assert s == [s[0]] + s[1..];
      DistinctCount(s[1..], x);
    }
  }

  lemma DistinctConcat<T>(a: seq<T>, b: seq<T>)
    requires Distinct(a) && Distinct(b) && forall x :: x in b ==> x !in a
    ensures Distinct(a + b)
  {
    var s := a + b;
    forall i, j | 0 <= i < j < |s| ensures s[i] != s[j] {
      if i < |a| <= j {
        assert s[i] == a[i] && s[j] == b[j - |a|] && b[j - |a|] in b;
      } else if |a| <= i {
        assert s[i] == b[i - |a|] && s[j] == b[j - |a|];
      }
    }
  }

  lemma DistinctCounts<T(!new)>(s: seq<T>)
    requires Distinct(s)
    ensures OnceEach(multiset(s))
  {
    forall x | x in multiset(s) ensures multiset(s)[x] == 1 { DistinctCount(s, x); }
  }

  lemma CountsDistinct<T(!new)>(s: seq<T>)
    requires OnceEach(multiset(s))
    ensures Distinct(s)
  {
    forall i, j | 0 <= i < j < |s| ensures s[i] != s[j] {
      var a, b := s[..j], s[j..];
      assert s == a + b && a[i] == s[i] && b[0] == s[j];
      assert multiset(s)[s[i]] == multiset(a)[s[i]] + multiset(b)[s[i]];
      assert s[i] in multiset(a) && s[j] in multiset(b) && s[i] in multiset(s);
    }
  }

  function RemoveAt<T>(s: seq<T>, i: nat): (r: seq<T>)
    requires i < |s|
  {
    s[..i] + s[i + 1..]
  }

  function InsertAt<T>(s: seq<T>, i: nat, x: T): (r: seq<T>)
    requires i <= |s|
  {
    s[..i] + [x] + s[i..]
  }

  lemma RemoveAtMultiset<T>(s: seq<T>, i: nat)
    requires i < |s|
    ensures multiset(RemoveAt(s, i)) + multiset{s[i]} == multiset(s)
  {
    assert s == s[..i] + [s[i]] + s[i + 1..];
  }

  lemma InsertAtMultiset<T>(s: seq<T>, i: nat, x: T)
    requires i <= |s|
    ensures multiset(InsertAt(s, i, x)) == multiset(s) + multiset{x}
  {
    assert s == s[..i] + s[i..];
  }

  // ----- reversal of the segment i..k (both ends included) -----

  function ReverseSegment<T>(s: seq<T>, i: nat, k: nat): (r: seq<T>)
    requires i <= k < |s|
  {
    seq(|s|, j requires 0 <= j < |s| => if i <= j <= k then s[i + k - j] else s[j])
  }

  ghost function Reverse<T>(s: seq<T>): (r: seq<T>) {
    if s == [] then [] else Reverse(s[1..]) + [s[0]]
  }

  lemma ReverseIndex<T>(s: seq<T>)
    ensures |Reverse(s)| == |s|
    ensures forall j :: 0 <= j < |s| ==> Reverse(s)[j] == s[|s| - 1 - j]
  {
  }

  lemma ReverseMultiset<T>(s: seq<T>)
    ensures multiset(Reverse(s)) == multiset(s)
  {
    if s != [] {
      ReverseMultiset(s[1..]);
      assert s == [s[0]] + s[1..];
    }
  }

  // The reversed segment sits between an untouched prefix and an untouched suffix.
  lemma ReverseSegmentParts<T>(s: seq<T>, i: nat, k: nat)
    requires i <= k < |s|
    ensures ReverseSegment(s, i, k) == s[..i] + Reverse(s[i..k + 1]) + s[k + 1..]
  {
    ReverseIndex(s[i..k + 1]);
  }

  lemma ReverseSegmentMultiset<T>(s: seq<T>, i: nat, k: nat)
    requires i <= k < |s|
    ensures multiset(ReverseSegment(s, i, k)) == multiset(s)
  {
    ReverseSegmentParts(s, i, k);
    ReverseMultiset(s[i..k + 1]);
    assert s == s[..i] + s[i..k + 1] + s[k + 1..];
  }

  // Reversing the same segment twice gives the order back.
  lemma ReverseSegmentInvolution<T>(s: seq<T>, i: nat, k: nat)
    requires i <= k < |s|
    ensures ReverseSegment(ReverseSegment(s, i, k), i, k) == s
  {
  }

  // ----- the nodes that a list of orders serves -----

  ghost function Assigned<T>(ps: seq<seq<T>>): multiset<T> {
    if ps == [] then multiset{} else multiset(ps[0]) + Assigned(ps[1..])
  }

  lemma AssignedUpdate<T>(ps: seq<seq<T>>, i: nat, o: seq<T>)
    requires i < |ps|
    ensures Assigned(ps[i := o]) + multiset(ps[i]) == Assigned(ps) + multiset(o)
  {
    if i > 0 {
      AssignedUpdate(ps[1..], i - 1, o);
      assert ps[i := o][1..] == ps[1..][i - 1 := o];
      var head, was, now := multiset(ps[0]), Assigned(ps[1..]), Assigned(ps[1..][i - 1 := o]);
      assert Assigned(ps[i := o]) == head + now;
      assert (head + now) + multiset(ps[i]) == head + (now + multiset(ps[1..][i - 1]));
      assert head + (was + multiset(o)) == (head + was) + multiset(o);
    } else {
      assert ps[i := o][1..] == ps[1..];
    }
  }

  lemma AddCancel<T>(a: multiset<T>, b: multiset<T>, m: multiset<T>)
    requires a + m == b + m
    ensures a == b
  {
    forall x ensures a[x] == b[x] { assert (a + m)[x] == (b + m)[x]; }
  }

  lemma AssignedInsert<T>(ps: seq<seq<T>>, i: nat, pos: nat, x: T)
    requires i < |ps| && pos <= |ps[i]|
    ensures Assigned(ps[i := InsertAt(ps[i], pos, x)]) == Assigned(ps) + multiset{x}
  {
    var o := InsertAt(ps[i], pos, x);
    InsertAtMultiset(ps[i], pos, x);
    AssignedUpdate(ps, i, o);
    assert Assigned(ps) + multiset(o) == (Assigned(ps) + multiset{x}) + multiset(ps[i]);
    AddCancel(Assigned(ps[i := o]), Assigned(ps) + multiset{x}, multiset(ps[i]));
  }

  // Replacing two orders by two others that hold the same nodes between them.
  lemma AssignedExchange<T>(ps: seq<seq<T>>, a: nat, b: nat, oa: seq<T>, ob: seq<T>)
    requires a < b < |ps|
    ensures Assigned(ps[a := oa][b := ob]) + multiset(ps[a]) + multiset(ps[b])
         == Assigned(ps) + multiset(oa) + multiset(ob)
  {
    AssignedUpdate(ps, a, oa);
    AssignedUpdate(ps[a := oa], b, ob);
    var start, mid, end := Assigned(ps), Assigned(ps[a := oa]), Assigned(ps[a := oa][b := ob]);
    var ma, mb, na, nb := multiset(ps[a]), multiset(ps[b]), multiset(oa), multiset(ob);
    assert end + ma + mb == (mid + nb) + ma == (mid + ma) + nb == (start + na) + nb;
  }

  lemma AssignedMembers<T>(ps: seq<seq<T>>, x: T)
    ensures x in Assigned(ps) <==> exists i :: 0 <= i < |ps| && x in ps[i]
  {
    if ps != [] {
      AssignedMembers(ps[1..], x);
      if x in ps[0] {
        assert x in multiset(ps[0]);
      }
      if exists i :: 0 <= i < |ps| && x in ps[i] {
        var i :| 0 <= i < |ps| && x in ps[i];
        if i > 0 { assert x in ps[1..][i - 1]; }
      }
      if x in Assigned(ps[1..]) {
        var i :| 0 <= i < |ps[1..]| && x in ps[1..][i];
        assert x in ps[i + 1];
      }
      assert x in multiset(ps[0]) <==> x in ps[0];
    }
  }

  // A list of orders serves nothing exactly when every order is empty.
  lemma AssignedEmpty<T>(ps: seq<seq<T>>)
    ensures Assigned(ps) == multiset{} <==> forall i :: 0 <= i < |ps| ==> ps[i] == []
  {
  }

  ghost predicate OnceEach<T>(m: multiset<T>) {
    forall x :: x in m ==> m[x] == 1
  }

  // Every node of `now` was served before.
  ghost predicate NoNewNodes<T(!new)>(was: multiset<T>, now: multiset<T>) {
    forall x :: x in now ==> x in was
  }

  // Some node that was served before is served no more.
  ghost predicate LosesNode<T(!new)>(was: multiset<T>, now: multiset<T>) {
    exists x :: x in was && x !in now
  }

  lemma FirstTwoServe<T>(ps: seq<seq<T>>)
    requires |ps| >= 2 && forall i :: 2 <= i < |ps| ==> ps[i] == []
    ensures Assigned(ps) == multiset(ps[0] + ps[1])
  {
    AssignedEmpty(ps[2..]);
    assert ps[1..][1..] == ps[2..];
    assert Assigned(ps) == multiset(ps[0]) + (multiset(ps[1]) + Assigned(ps[2..]));
  }

  lemma EachOnce(all: seq<nat>)
    requires forall x :: 0 <= x < |all| ==> all[x] == x
    ensures |multiset(all)| == |all| && OnceEach(multiset(all)) && forall x: nat :: x < |all| ==> x in multiset(all)
  {
    DistinctCounts(all);
    forall x: nat | x < |all| ensures x in multiset(all) { assert all[x] == x; }
  }

  // ----- induction along a sequence -----

  lemma Climb(good: nat -> bool, n: nat)
    requires good(0) && forall k: nat :: k < n && good(k) ==> good(k + 1)
    ensures good(n)
  {
    if n > 0 { Climb(good, n - 1); }
  }

  // ----- pigeonhole -----

  lemma Pigeonhole(f: seq<nat>, k: nat)
    requires |f| > k
    requires forall i :: 0 <= i < |f| ==> f[i] < k
    ensures exists i, j :: 0 <= i < j < |f| && f[i] == f[j]
    decreases k
  {
    var last := |f| - 1;
    assert f[0] < k && f[last] < k;
    if i :| 0 <= i < last && f[i] == f[last] {
      assert 0 <= i < last < |f| && f[i] == f[last];
    } else if k > 1 {
      // rename the last hole to the one that f[last] leaves free
      var g := seq(last, i requires 0 <= i < last => if f[i] == k - 1 then f[last] else f[i]);
      assert forall i :: 0 <= i < last ==> g[i] < k - 1;
      Pigeonhole(g, k - 1);
      var i, j :| 0 <= i < j < |g| && g[i] == g[j];
      assert 0 <= i < j < |f| && f[i] == f[j];
    }
  }
}
