// Cursor paging of the in-memory lists: ListOrders and ListRoutes scan and filter, ListSubscriptions
// slices (internal/store/memory.go:72-91, 144-158, 526-542).
module Paging {
  import opened Sequences

  datatype Page<T> = Page(items: seq<T>, next: string)

  function Limit(limit: int): (n: nat)
    ensures n >= 1
  {
    if limit <= 0 then 100 else limit
  }

  // The position after the cursor; the beginning if the cursor is empty or unknown.
  ghost function StartOf(ids: seq<string>, cursor: string): (start: nat)
    ensures start <= |ids|
  {
    if cursor == "" || cursor !in ids then 0 else PositionOf(ids, cursor) + 1
  }

  ghost function PositionOf(ids: seq<string>, id: string): (i: nat)
    requires id in ids
    ensures i < |ids| && ids[i] == id && forall j :: 0 <= j < i ==> ids[j] != id
  {
    if ids[0] == id then 0 else 1 + PositionOf(ids[1..], id)
  }

  method FindStart(ids: seq<string>, cursor: string) returns (start: nat)
    ensures start == StartOf(ids, cursor)
  {
    start := 0;
    if cursor == "" { return; }
    for i: nat := 0 to |ids|
      invariant forall j :: 0 <= j < i ==> ids[j] != cursor
    {
      if ids[i] == cursor {
        assert PositionOf(ids, cursor) == i by {
          var p := PositionOf(ids, cursor);
          assert !(p < i) && !(i < p);
        }
        return i + 1;
      }
    }
  }

  // The members of ids from position lo to hi that pass the filter.
  ghost function Selected(ids: seq<string>, keep: set<string>, lo: nat, hi: nat): seq<string>
    requires lo <= hi <= |ids|
    decreases hi - lo
  {
    if lo == hi then [] else (if ids[lo] in keep then [ids[lo]] else []) + Selected(ids, keep, lo + 1, hi)
  }

  lemma SelectedExtend(ids: seq<string>, keep: set<string>, lo: nat, hi: nat)
    requires lo <= hi < |ids|
    ensures Selected(ids, keep, lo, hi + 1) == Selected(ids, keep, lo, hi) + (if ids[hi] in keep then [ids[hi]] else [])
    decreases hi - lo
  {
    if lo < hi {
      SelectedExtend(ids, keep, lo + 1, hi);
    }
  }

  lemma {:induction false} SelectedJoin(ids: seq<string>, keep: set<string>, lo: nat, mid: nat, hi: nat)
    requires lo <= mid <= hi <= |ids|
    ensures Selected(ids, keep, lo, hi) == Selected(ids, keep, lo, mid) + Selected(ids, keep, mid, hi)
    decreases mid - lo
  {
    if lo < mid {
      SelectedJoin(ids, keep, lo + 1, mid, hi);
    }
  }

  // A page covers the positions start..end; it is full unless end is the end of the list. The next
  // cursor is the last position looked at if the page is full, and empty otherwise.
  ghost predicate IsScanPage(ids: seq<string>, keep: set<string>, start: nat, limit: nat, end: nat, page: Page<string>) {
    start <= end <= |ids| && page.items == Selected(ids, keep, start, end) && |page.items| <= limit &&
    (|page.items| < limit ==> end == |ids| && page.next == "") &&
    (|page.items| == limit ==> end > start && page.next == ids[end - 1])
  }

  ghost predicate ScanPage(ids: seq<string>, keep: set<string>, start: nat, limit: nat, page: Page<string>) {
    exists end :: IsScanPage(ids, keep, start, limit, end, page)
  }

  // ListOrders, with `keep` the orders of the wanted status; ListRoutes keeps all.
  method ListScan(ids: seq<string>, keep: set<string>, cursor: string, limit: int) returns (page: Page<string>)
    ensures ScanPage(ids, keep, StartOf(ids, cursor), Limit(limit), page)
  {
    var start := FindStart(ids, cursor);
    var n: nat := if limit <= 0 then 100 else limit;
    var out: seq<string>, next := [], "";
    var i := start;
    while i < |ids| && |out| < n
      invariant start <= i <= |ids| && |out| <= n && out == Selected(ids, keep, start, i)
      invariant i > start ==> next == ids[i - 1]
    {
      SelectedExtend(ids, keep, start, i);
      if ids[i] in keep { out := out + [ids[i]]; }
      next := ids[i];
      i := i + 1;
    }
    if |out| < n { next := ""; }
    page := Page(out, next);
    assert IsScanPage(ids, keep, start, n, i, page);
  }

  // ListSubscriptions: a slice of the list.
  ghost predicate IsSlicePage(ids: seq<string>, start: nat, limit: nat, page: Page<string>)
    requires limit >= 1
  {
    start <= |ids| && page.items == ids[start..Min(start + limit, |ids|)] &&
    page.next == if start + limit < |ids| then ids[start + limit - 1] else ""
  }

  method ListSlice(ids: seq<string>, cursor: string, limit: int) returns (page: Page<string>)
    ensures IsSlicePage(ids, StartOf(ids, cursor), Limit(limit), page)
  {
    var start := FindStart(ids, cursor);
    var n := if limit <= 0 then 100 else limit;
    var end := start + n;
    if end > |ids| { end := |ids|; }
    var next := "";
    if end < |ids| { next := ids[end - 1]; }
    page := Page(ids[start..end], next);
  }

  // Identifiers are distinct and not empty.
  ghost predicate Identifiers(ids: seq<string>) {
    Distinct(ids) && "" !in ids
  }

  lemma CursorResumes(ids: seq<string>, end: nat)
    requires Identifiers(ids) && 0 < end <= |ids|
    ensures StartOf(ids, ids[end - 1]) == end && ids[end - 1] != ""
  {
  }

  // Following the cursors of the scanning lists from the beginning collects every selected item once,
  // in order, and stops.
  method WalkScan(ids: seq<string>, keep: set<string>, limit: int) returns (all: seq<string>)
    requires Identifiers(ids)
    ensures all == Selected(ids, keep, 0, |ids|)
  {
    ghost var at: nat := 0;
    var cursor := "";
    all := [];
    while true
      invariant at <= |ids| && StartOf(ids, cursor) == at && all == Selected(ids, keep, 0, at)
      decreases |ids| - at
    {
      var page := ListScan(ids, keep, cursor, limit);
      ghost var end: nat :| IsScanPage(ids, keep, at, Limit(limit), end, page);
      SelectedJoin(ids, keep, 0, at, end);
      all := all + page.items;
      if |page.items| == Limit(limit) { CursorResumes(ids, end); }
      if page.next == "" { return; }
      cursor, at := page.next, end;
    }
  }

  // The same for the slicing list.
  method WalkSlice(ids: seq<string>, limit: int) returns (all: seq<string>)
    requires Identifiers(ids)
    ensures all == ids
  {
    ghost var at: nat := 0;
    var cursor := "";
    all := [];
    while true
      invariant at <= |ids| && StartOf(ids, cursor) == at && all == ids[..at]
      decreases |ids| - at
    {
      var page := ListSlice(ids, cursor, limit);
      all := all + page.items;
      if at + Limit(limit) < |ids| { CursorResumes(ids, at + Limit(limit)); }
      if page.next == "" { return; }
      cursor, at := page.next, at + Limit(limit);
    }
  }
}
