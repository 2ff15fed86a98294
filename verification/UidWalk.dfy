/** The UID walk: how the range above the cursor is cut into windows, and how far
    the cursor may move over what was stored. */
module UidWalk {
  import opened Basics
  import opened Mailbox

  function SaturatingAdd(a: u32, b: u32): u32 {
    if a + b < U32_LIMIT then a + b else U32_LIMIT - 1
  }

  function Min(a: u32, b: u32): u32 { if a < b then a else b }

  function ChunkEnd(start: u32, chunk: u32, highest: u32): (end: u32)
    requires 1 <= chunk && start <= highest
    ensures start <= end <= highest
    ensures end - start < chunk
    ensures end < highest ==> end - start == chunk - 1
  {
    Min(SaturatingAdd(start, chunk - 1), highest)
  }

  /** The windows of a walk, by the code's loop. Leaving the loop at
      `end == highest` is what keeps `end + 1` inside a `u32`. */
  function Windows(start: u32, chunk: u32, highest: u32): (w: seq<(u32, u32)>)
    requires 1 <= chunk
    decreases highest - start
  {
    if start > highest then []
    else
      var end := ChunkEnd(start, chunk, highest);
      if end >= highest then [(start, end)] else [(start, end)] + Windows(end + 1, chunk, highest)
  }

  ghost predicate InWindow(w: seq<(u32, u32)>, uid: u32) {
    exists i :: 0 <= i < |w| && w[i].0 <= uid <= w[i].1
  }

  /** Every UID of `start..=highest` lies in exactly one window, and no window
      reaches outside. */
  lemma {:induction false} WindowsPartition(start: u32, chunk: u32, highest: u32, w: seq<(u32, u32)>)
    requires 1 <= chunk && w == Windows(start, chunk, highest)
    ensures forall uid: u32 :: start <= uid <= highest ==> InWindow(w, uid)
    ensures forall i :: 0 <= i < |w| ==> start <= w[i].0 <= w[i].1 <= highest
    ensures forall i, j :: 0 <= i < j < |w| ==> w[i].1 < w[j].0
    decreases highest - start
  {
    if start <= highest {
      var end := ChunkEnd(start, chunk, highest);
      assert w[0] == (start, end);
      if end < highest {
        var rest := Windows(end + 1, chunk, highest);
        WindowsPartition(end + 1, chunk, highest, rest);
        assert w == [(start, end)] + rest;
        forall uid: u32 | start <= uid <= highest ensures InWindow(w, uid) {
          if end < uid {
            assert InWindow(rest, uid);
            var i :| 0 <= i < |rest| && rest[i].0 <= uid <= rest[i].1;
            assert w[i + 1] == rest[i];
          }
        }
      }
    }
  }

  ghost function Offset(i: nat, chunk: u32): nat { if i == 0 then 0 else Offset(i - 1, chunk) + chunk }

  lemma {:induction false} OffsetIs(i: nat)
    ensures Offset(i, 200) == 200 * i && Offset(i, 500) == 500 * i && Offset(i, 1000) == 1000 * i
  {
    if i > 0 { OffsetIs(i - 1); }
  }

  /** All windows but the last are full. */
  lemma {:induction false} WindowIs(start: u32, chunk: u32, highest: u32, i: nat)
    requires 1 <= chunk && i < |Windows(start, chunk, highest)|
    ensures var (lo, hi) := Windows(start, chunk, highest)[i];
            lo == start + Offset(i, chunk) && hi == if lo + chunk - 1 < highest then lo + chunk - 1 else highest
    decreases i
  {
    if i > 0 {
      var end := ChunkEnd(start, chunk, highest);
      assert Windows(start, chunk, highest)[i] == Windows(end + 1, chunk, highest)[i - 1];
      WindowIs(end + 1, chunk, highest, i - 1);
    }
  }

  // ---- the cursor of API providers --------------------------------------

  /** How far from `from` the stored UIDs reach without a gap, looking no further
      than `to`. */
  function GapFree(stored: set<nat>, from: nat, to: nat): (r: nat)
    ensures from <= r
    decreases if from < to then to - from else 0
  {
    if from < to && from + 1 in stored then GapFree(stored, from + 1, to) else from
  }

  /** `GapFree` is the greatest gap-free extension: everything up to it is stored,
      and it stopped at the bound or at a UID that is missing. */
  lemma {:induction false} GapFreeIsGreatest(stored: set<nat>, from: nat, to: nat)
    ensures
      var r := GapFree(stored, from, to);
      && (from <= to ==> r <= to) && (to <= from ==> r == from)
      && (forall u :: from < u <= r ==> u in stored)
      && (r < to ==> r + 1 !in stored)
    decreases if from < to then to - from else 0
  {
    if from < to && from + 1 in stored { GapFreeIsGreatest(stored, from + 1, to); }
  }

  ghost predicate Ascending(s: seq<nat>) {
    forall i, j :: 0 <= i < j < |s| ==> s[i] < s[j]
  }

  ghost predicate ListsWindow(s: seq<nat>, stored: set<nat>, lo: nat, hi: nat) {
    Ascending(s) && forall u :: u in s <==> u in stored && lo <= u <= hi
  }

  /** `contiguous_uid`, on the stored UIDs of one window in ascending order. */
  method ContiguousUid(current: nat, uids: seq<nat>, ghost stored: set<nat>, ghost lo: nat,
                       ghost hi: nat) returns (next: nat)
    requires ListsWindow(uids, stored, lo, hi)
    ensures current + 1 >= lo ==> next == GapFree(stored, current, hi)
    ensures current + 1 < lo ==> next == current
  {
    next := current;
    GapFreeIsGreatest(stored, current, hi);
    ghost var goal := GapFree(stored, current, hi);
    for i := 0 to |uids|
      invariant current <= next
      invariant current + 1 < lo ==> next == current
      invariant current + 1 >= lo ==> next <= goal
      invariant forall k :: 0 <= k < i ==> uids[k] <= next
    {
      var uid := uids[i];
      assert uid in uids;
      if uid <= next { continue; }
      if uid == next + 1 {
        next := uid;
      } else {
        assert next + 1 !in uids;
        break;
      }
    }
    assert next < goal ==> next + 1 in stored;
  }

  /** Window by window, the cursor ends where one call over the whole range would
      have put it. */
  function WindowedCursor(stored: set<nat>, current: nat, w: seq<(u32, u32)>): (r: nat)
    ensures r >= current
    decreases |w|
  {
    if w == [] then current
    else
      var next := if current + 1 >= w[0].0 then GapFree(stored, current, w[0].1) else current;
      WindowedCursor(stored, next, w[1..])
  }

  lemma {:induction false} GapFreeSplits(stored: set<nat>, from: nat, mid: nat, to: nat)
    requires mid <= to
    ensures GapFree(stored, GapFree(stored, from, mid), to) == GapFree(stored, from, to)
    decreases if from < mid then mid - from else 0
  {
    if from < mid && from + 1 in stored { GapFreeSplits(stored, from + 1, mid, to); }
  }

  lemma {:induction false} WindowsAgreeWithOneCall(stored: set<nat>, current: nat, start: u32, chunk: u32, highest: u32)
    requires 1 <= chunk && start <= highest
    requires current < start
    requires current + 1 < start ==> current + 1 !in stored
    ensures WindowedCursor(stored, current, Windows(start, chunk, highest)) == GapFree(stored, current, highest)
    decreases highest - start
  {
    var end := ChunkEnd(start, chunk, highest);
    var w := Windows(start, chunk, highest);
    var next := if current + 1 >= start then GapFree(stored, current, end) else current;
    GapFreeIsGreatest(stored, current, end);
    GapFreeIsGreatest(stored, current, highest);
    if end < highest {
      assert w[1..] == Windows(end + 1, chunk, highest);
      WindowsAgreeWithOneCall(stored, next, end + 1, chunk, highest);
      GapFreeSplits(stored, current, end, highest);
    } else {
      assert w[1..] == [];
    }
  }

  lemma {:induction false} GapFreeAgrees(a: set<nat>, b: set<nat>, from: nat, to: nat)
    requires forall u :: from < u <= to ==> (u in a <==> u in b)
    ensures GapFree(a, from, to) == GapFree(b, from, to)
    decreases if from < to then to - from else 0
  {
    if from < to && from + 1 in a { GapFreeAgrees(a, b, from + 1, to); }
  }

  /** One more window stored: the cursor the window's call computes is the cursor of
      one call over everything since `from`. */
  lemma {:induction false} GapFreeExtends(before: set<nat>, after: set<nat>, from: nat, max: nat, lo: nat, hi: nat)
    requires 1 <= lo <= hi && from < lo
    requires max == GapFree(before, from, lo - 1)
    requires forall u :: u < lo ==> (u in before <==> u in after)
    ensures GapFree(after, from, hi) == if max + 1 >= lo then GapFree(after, max, hi) else max
  {
    GapFreeAgrees(before, after, from, lo - 1);
    GapFreeSplits(after, from, lo - 1, hi);
    GapFreeIsGreatest(before, from, lo - 1);
  }
}
