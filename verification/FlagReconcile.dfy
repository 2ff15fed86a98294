/** Flag reconciliation as a diff: what is compared, what is written, and the one
    naive pass it has to agree with. */
module FlagReconcile {
  import opened Basics
  import opened Mailbox

  /** A server answer: `(uid, flags)` pairs in response order. */
  type Answer = seq<(nat, Flags)>

  function Find(answer: Answer, uid: nat): Option<Flags>
    decreases |answer|
  {
    if answer == [] then None
    else if answer[0].0 == uid then Some(answer[0].1)
    else Find(answer[1..], uid)
  }

  /** No uid is answered twice. */
  predicate Distinct(answer: Answer)
    decreases |answer|
  {
    answer == [] || (Find(answer[1..], answer[0].0).None? && Distinct(answer[1..]))
  }

  /** The answer as a map; the last pair of a uid wins. */
  function AsMap(answer: Answer): map<nat, Flags>
    decreases |answer|
  {
    if answer == [] then map[] else map[answer[0].0 := answer[0].1] + AsMap(answer[1..])
  }

  lemma {:induction false} AsMapAt(answer: Answer, uid: nat)
    ensures uid in AsMap(answer) <==> Find(answer, uid).Some?
    ensures Distinct(answer) && uid in AsMap(answer) ==> AsMap(answer)[uid] == Find(answer, uid).value
    decreases |answer|
  {
    if answer != [] { AsMapAt(answer[1..], uid); }
  }

  lemma {:induction false} AsMapAppend(a: Answer, b: Answer)
    ensures AsMap(a + b) == AsMap(a) + AsMap(b)
    decreases |a|
  {
    if a == [] {
      assert a + b == b;
    } else {
      assert (a + b)[1..] == a[1..] + b;
      AsMapAppend(a[1..], b);
      MergeAssociates(map[a[0].0 := a[0].1], AsMap(a[1..]), AsMap(b));
    }
  }

  lemma {:induction false} MergeAssociates(a: map<nat, Flags>, b: map<nat, Flags>, c: map<nat, Flags>)
    ensures a + (b + c) == (a + b) + c
  {
  }

  lemma {:induction false} DistinctParts(a: Answer, b: Answer)
    requires Distinct(a + b)
    ensures Distinct(a) && Distinct(b)
    ensures forall u :: u in AsMap(a) ==> u !in AsMap(b)
    decreases |a|
  {
    if a == [] {
      assert a + b == b;
    } else {
      assert (a + b)[1..] == a[1..] + b;
      DistinctParts(a[1..], b);
      AsMapAppend(a[1..], b);
      AsMapAt(a[1..] + b, a[0].0);
      AsMapAt(a[1..], a[0].0);
    }
  }

  /** The messages of `mail` with UIDs in `lo..=hi`, except `omit`, by UID. */
  function Listing(mail: map<nat, Flags>, lo: nat, hi: nat, omit: set<nat>): (r: Answer)
    decreases hi + 1 - lo
  {
    if lo > hi then []
    else if lo in mail && lo !in omit then [(lo, mail[lo])] + Listing(mail, lo + 1, hi, omit)
    else Listing(mail, lo + 1, hi, omit)
  }

  lemma {:induction false} ListingAt(mail: map<nat, Flags>, lo: nat, hi: nat, omit: set<nat>, uid: nat)
    ensures Find(Listing(mail, lo, hi, omit), uid)
         == if lo <= uid <= hi && uid in mail && uid !in omit then Some(mail[uid]) else None
    decreases hi + 1 - lo
  {
    if lo <= hi {
      ListingAt(mail, lo + 1, hi, omit, uid);
      if lo in mail && lo !in omit {
        assert Listing(mail, lo, hi, omit)[1..] == Listing(mail, lo + 1, hi, omit);
      }
    }
  }

  lemma {:induction false} ListingDistinct(mail: map<nat, Flags>, lo: nat, hi: nat, omit: set<nat>)
    ensures Distinct(Listing(mail, lo, hi, omit))
    decreases hi + 1 - lo
  {
    if lo <= hi {
      ListingDistinct(mail, lo + 1, hi, omit);
      if lo in mail && lo !in omit {
        assert Listing(mail, lo, hi, omit)[1..] == Listing(mail, lo + 1, hi, omit);
        ListingAt(mail, lo + 1, hi, omit, lo);
      }
    }
  }

  /** The flags a returned message ends up with: a pending local change wins over
      the server's value, and a deleted row stays deleted. */
  function Merge(stored: Flags, server: Flags, pending: set<Key>, uid: nat): Flags {
    Flags(if Key(uid, Seen) in pending then stored.seen else server.seen,
          if Key(uid, Flagged) in pending then stored.flagged else server.flagged,
          server.deleted || stored.deleted)
  }

  // ---- the code's two filters and its write loop -------------------------

  function ChangedFlags(answer: Answer, stored: Rows, pending: set<Key>): (r: Answer)
    decreases |answer|
  {
    if answer == [] then []
    else
      var (uid, f) := answer[0];
      var rest := ChangedFlags(answer[1..], stored, pending);
      if uid in stored then
        var seen := if Key(uid, Seen) in pending then stored[uid].seen else f.seen;
        var flagged := if Key(uid, Flagged) in pending then stored[uid].flagged else f.flagged;
        if stored[uid] != Flags(seen, flagged, f.deleted || stored[uid].deleted)
        then [(uid, Flags(seen, flagged, f.deleted))] + rest else rest
      else rest
  }

  function ExpungedUids(answer: Answer, stored: Rows): (r: set<nat>) {
    set u | u in stored && !stored[u].deleted && Find(answer, u).None?
  }

  /** `UPDATE messages SET is_read, is_flagged, is_deleted = MAX(?, is_deleted)`,
      once per changed message. */
  function WriteFlags(rows: Rows, changed: Answer): (r: Rows)
    ensures r.Keys == rows.Keys
    decreases |changed|
  {
    if changed == [] then rows
    else
      var (uid, f) := changed[0];
      var rows' := if uid in rows then rows[uid := f.(deleted := f.deleted || rows[uid].deleted)] else rows;
      WriteFlags(rows', changed[1..])
  }

  function HideAll(rows: Rows, gone: set<nat>): Rows {
    map u | u in rows :: if u in gone then rows[u].(deleted := true) else rows[u]
  }

  function Within(rows: Rows, lo: nat, hi: nat): Rows {
    map u | u in rows && lo <= u <= hi :: rows[u]
  }

  /** One chunk's transaction, computed from the rows `stored` as they were read
      and applied to the rows as they are. */
  function DiffChunk(rows: Rows, stored: Rows, pending: set<Key>, answer: Answer): Rows {
    HideAll(WriteFlags(rows, ChangedFlags(answer, stored, pending)), ExpungedUids(answer, stored))
  }

  // ---- the reference: one pass, no diffing, no chunks --------------------

  function NaivePass(rows: Rows, pending: set<Key>, answers: map<nat, Flags>, lo: nat, hi: nat): Rows {
    map u | u in rows ::
      if !(lo <= u <= hi) then rows[u]
      else if u in answers then Merge(rows[u], answers[u], pending, u)
      else rows[u].(deleted := true)
  }

  /** What the write loop leaves in one row, whatever else changed since `stored`
      was read: an unanswered or unknown uid is left alone, an answered one gets the
      merged flags, or nothing at all when they are the stored ones. */
  lemma {:induction false} WriteAt(rows: Rows, stored: Rows, pending: set<Key>, answer: Answer, uid: nat)
    requires Distinct(answer) && uid in rows
    ensures var r := WriteFlags(rows, ChangedFlags(answer, stored, pending))[uid];
      if uid !in stored || Find(answer, uid).None? then r == rows[uid]
      else
        var m := Merge(stored[uid], Find(answer, uid).value, pending, uid);
        if m == stored[uid] then r == rows[uid]
        else r == m.(deleted := Find(answer, uid).value.deleted || rows[uid].deleted)
    decreases |answer|
  {
    if answer != [] {
      var (u, f) := answer[0];
      var rest := ChangedFlags(answer[1..], stored, pending);
      var all := ChangedFlags(answer, stored, pending);
      if all == rest {
        WriteAt(rows, stored, pending, answer[1..], uid);
      } else {
        assert all[1..] == rest;
        var rows' := if u in rows then rows[u := all[0].1.(deleted := all[0].1.deleted || rows[u].deleted)] else rows;
        assert WriteFlags(rows, all) == WriteFlags(rows', rest);
        WriteAt(rows', stored, pending, answer[1..], uid);
      }
    }
  }

  /** With distinct answers, diffing a chunk writes exactly what the naive pass over
      that range writes. */
  lemma {:induction false} DistinctDiffIsNaive(rows: Rows, pending: set<Key>, lo: nat, hi: nat, answer: Answer)
    requires Distinct(answer)
    ensures DiffChunk(rows, Within(rows, lo, hi), pending, answer) == NaivePass(rows, pending, AsMap(answer), lo, hi)
  {
    var stored := Within(rows, lo, hi);
    forall u | u in rows
      ensures DiffChunk(rows, stored, pending, answer)[u] == NaivePass(rows, pending, AsMap(answer), lo, hi)[u]
    {
      WriteAt(rows, stored, pending, answer, u);
      AsMapAt(answer, u);
    }
  }

  /** Two adjacent passes are one pass over both ranges, with the answers joined. */
  lemma {:induction false} NaivePassesJoin(rows: Rows, pending: set<Key>, a: map<nat, Flags>, b: map<nat, Flags>,
                                           lo: nat, mid: nat, next: nat, hi: nat)
    requires lo <= next == mid + 1 && mid <= hi
    requires forall u :: u in a ==> u <= mid
    requires forall u :: u in b ==> mid < u
    ensures NaivePass(NaivePass(rows, pending, a, lo, mid), pending, b, next, hi)
         == NaivePass(rows, pending, a + b, lo, hi)
  {
  }

  // ---- repeated uids --------------------------------------------------------

  /** The last pair of `uid` that differs from the row `r` as it was read. */
  function LastChange(answer: Answer, r: Flags, pending: set<Key>, uid: nat): Option<Flags>
    decreases |answer|
  {
    if answer == [] then None
    else
      var rest := LastChange(answer[1..], r, pending, uid);
      if rest.None? && answer[0].0 == uid && Merge(r, answer[0].1, pending, uid) != r then Some(answer[0].1) else rest
  }

  /** Some pair of `uid` that differs from the row says deleted. */
  predicate SaysDeleted(answer: Answer, r: Flags, pending: set<Key>, uid: nat)
    decreases |answer|
  {
    answer != [] &&
    ((answer[0].0 == uid && Merge(r, answer[0].1, pending, uid) != r && answer[0].1.deleted)
     || SaysDeleted(answer[1..], r, pending, uid))
  }

  /** `WriteAt` for any answer: the last differing pair decides about seen and flagged,
      all of them about deleted. */
  lemma {:induction false} WriteAnyAt(rows: Rows, stored: Rows, pending: set<Key>, answer: Answer, uid: nat)
    requires uid in rows && uid in stored
    ensures var last := LastChange(answer, stored[uid], pending, uid);
      WriteFlags(rows, ChangedFlags(answer, stored, pending))[uid] ==
      if last.None? then rows[uid]
      else Merge(stored[uid], last.value, pending, uid).(
             deleted := rows[uid].deleted || SaysDeleted(answer, stored[uid], pending, uid))
    decreases |answer|
  {
    if answer != [] {
      var (u, f) := answer[0];
      var rest := ChangedFlags(answer[1..], stored, pending);
      var all := ChangedFlags(answer, stored, pending);
      if all == rest {
        WriteAnyAt(rows, stored, pending, answer[1..], uid);
        assert u != uid || Merge(stored[uid], f, pending, uid) == stored[uid];
      } else {
        assert all[1..] == rest;
        var rows' := if u in rows then rows[u := all[0].1.(deleted := all[0].1.deleted || rows[u].deleted)] else rows;
        assert WriteFlags(rows, all) == WriteFlags(rows', rest);
        WriteAnyAt(rows', stored, pending, answer[1..], uid);
        ChangeDiffers(answer[1..], stored[uid], pending, uid);
      }
    }
  }

  lemma {:induction false} ChangeDiffers(answer: Answer, r: Flags, pending: set<Key>, uid: nat)
    ensures var last := LastChange(answer, r, pending, uid);
            if last.None? then !SaysDeleted(answer, r, pending, uid)
            else
              && Merge(r, last.value, pending, uid) != r
              && (last.value.deleted ==> SaysDeleted(answer, r, pending, uid))
    decreases |answer|
  {
    if answer != [] { ChangeDiffers(answer[1..], r, pending, uid); }
  }

  /** All pairs of `uid` fit what the last one makes of the row, `m`: if that is the
      row itself, none differs from it; otherwise none hides a row that `m` leaves. */
  predicate OneVoice(answer: Answer, r: Flags, m: Flags, pending: set<Key>, uid: nat)
    decreases |answer|
  {
    answer == [] ||
    ((answer[0].0 == uid ==>
        var f := Merge(r, answer[0].1, pending, uid);
        if m == r then f == r else f.deleted ==> m.deleted)
     && OneVoice(answer[1..], r, m, pending, uid))
  }

  lemma {:induction false} OneVoiceIs(answer: Answer, r: Flags, m: Flags, pending: set<Key>, uid: nat)
    ensures m == r ==> (OneVoice(answer, r, m, pending, uid) <==> LastChange(answer, r, pending, uid).None?)
    ensures m != r && (r.deleted ==> m.deleted) ==>
              (OneVoice(answer, r, m, pending, uid) <==> (SaysDeleted(answer, r, pending, uid) ==> m.deleted))
    decreases |answer|
  {
    if answer != [] { OneVoiceIs(answer[1..], r, m, pending, uid); }
  }

  lemma {:induction false} LastPairChanges(answer: Answer, r: Flags, pending: set<Key>, uid: nat)
    requires uid in AsMap(answer) && Merge(r, AsMap(answer)[uid], pending, uid) != r
    ensures LastChange(answer, r, pending, uid) == Some(AsMap(answer)[uid])
    ensures AsMap(answer)[uid].deleted ==> SaysDeleted(answer, r, pending, uid)
    decreases |answer|
  {
    if uid in AsMap(answer[1..]) {
      LastPairChanges(answer[1..], r, pending, uid);
    } else {
      assert answer[0].0 == uid;
      NoPairs(answer[1..], r, pending, uid);
    }
  }

  lemma {:induction false} NoPairs(answer: Answer, r: Flags, pending: set<Key>, uid: nat)
    requires uid !in AsMap(answer)
    ensures LastChange(answer, r, pending, uid).None?
    decreases |answer|
  {
    if answer != [] { NoPairs(answer[1..], r, pending, uid); }
  }

  /** Diffing a chunk writes what the naive pass writes if and only if the pairs of
      each known uid fit together. */
  lemma {:induction false} DiffIsNaive(rows: Rows, pending: set<Key>, lo: nat, hi: nat, answer: Answer)
    ensures (DiffChunk(rows, Within(rows, lo, hi), pending, answer)
             == NaivePass(rows, pending, AsMap(answer), lo, hi)) <==>
            forall u :: u in Within(rows, lo, hi) && u in AsMap(answer) ==>
              OneVoice(answer, rows[u], Merge(rows[u], AsMap(answer)[u], pending, u), pending, u)
  {
    var diff := DiffChunk(rows, Within(rows, lo, hi), pending, answer);
    var naive := NaivePass(rows, pending, AsMap(answer), lo, hi);
    forall u | u in rows
      ensures diff[u] == naive[u] <==>
        (u in Within(rows, lo, hi) && u in AsMap(answer) ==>
          OneVoice(answer, rows[u], Merge(rows[u], AsMap(answer)[u], pending, u), pending, u))
    {
      DiffIsNaiveAt(rows, pending, lo, hi, answer, u);
    }
  }

  lemma {:induction false} DiffIsNaiveAt(rows: Rows, pending: set<Key>, lo: nat, hi: nat, answer: Answer, u: nat)
    requires u in rows
    ensures (DiffChunk(rows, Within(rows, lo, hi), pending, answer)[u]
             == NaivePass(rows, pending, AsMap(answer), lo, hi)[u]) <==>
            (u in Within(rows, lo, hi) && u in AsMap(answer) ==>
              OneVoice(answer, rows[u], Merge(rows[u], AsMap(answer)[u], pending, u), pending, u))
  {
    var stored := Within(rows, lo, hi);
    AsMapAt(answer, u);
    if u in stored {
      WriteAnyAt(rows, stored, pending, answer, u);
      if u in AsMap(answer) {
        var m := Merge(rows[u], AsMap(answer)[u], pending, u);
        OneVoiceIs(answer, rows[u], m, pending, u);
        ChangeDiffers(answer, rows[u], pending, u);
        if m != rows[u] { LastPairChanges(answer, rows[u], pending, u); }
      } else {
        NoPairs(answer, rows[u], pending, u);
      }
    } else {
      WriteElsewhere(rows, stored, pending, answer, u);
    }
  }

  lemma {:induction false} WriteElsewhere(rows: Rows, stored: Rows, pending: set<Key>, answer: Answer, uid: nat)
    requires uid in rows && uid !in stored
    ensures WriteFlags(rows, ChangedFlags(answer, stored, pending))[uid] == rows[uid]
    decreases |answer|
  {
    if answer != [] {
      var rest := ChangedFlags(answer[1..], stored, pending);
      var all := ChangedFlags(answer, stored, pending);
      if all == rest {
        WriteElsewhere(rows, stored, pending, answer[1..], uid);
      } else {
        var (u, f) := all[0];
        assert all[1..] == rest;
        var rows' := if u in rows then rows[u := f.(deleted := f.deleted || rows[u].deleted)] else rows;
        WriteElsewhere(rows', stored, pending, answer[1..], uid);
      }
    }
  }

  /** With a repeated uid in one answer the diff and the naive pass part ways: the
      second pair equals the stored row, so it is filtered out and the first wins. */
  lemma {:induction false} RepeatedUidBreaksDiff()
    ensures var rows := map[1 := Flags(true, false, false)];
            var answer := [(1, Flags(false, false, false)), (1, Flags(true, false, false))];
            DiffChunk(rows, Within(rows, 1, 1), {}, answer) != NaivePass(rows, {}, AsMap(answer), 1, 1)
  {
    var rows: Rows := map[1 := Flags(true, false, false)];
    var answer: Answer := [(1, Flags(false, false, false)), (1, Flags(true, false, false))];
    var stored := Within(rows, 1, 1);
    assert answer[1..] == [(1, Flags(true, false, false))];
    assert ChangedFlags(answer[1..], stored, {}) == [];
    assert ChangedFlags(answer, stored, {}) == [(1, Flags(false, false, false))];
    var changed: Answer := [(1, Flags(false, false, false))];
    assert changed[1..] == [];
    assert WriteFlags(rows, changed) == rows[1 := Flags(false, false, false)];
    assert DiffChunk(rows, stored, {}, answer)[1].seen == false;
    assert AsMap(answer[1..])[1] == Flags(true, false, false);
    assert NaivePass(rows, {}, AsMap(answer), 1, 1)[1].seen == true;
  }
}
