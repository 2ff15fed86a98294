/** What importing a window and walking over windows achieve, where the cursor may go,
    and what a whole sync comes to. */
module MailWalk {
  import opened Basics
  import opened Mailbox
  import opened FlagReconcile
  import opened UidWalk
  import opened SyncState
  import opened FlagSync

  /** A folder's mail above the old cursor is notified about, but not its first backfill. */
  ghost predicate Notifies(allowed: bool, prev: nat) { allowed && prev > 0 }

  // ---- importing a window -----------------------------------------------

  /** One transaction: the messages of a batch, upserted in order. */
  function ImportRows(rows: Rows, batch: Answer): (r: Rows)
    decreases |batch|
  {
    if batch == [] then rows else ImportRows(Upsert(rows, batch[0].0, batch[0].1), batch[1..])
  }

  function ImportedRow(rows: Rows, uid: nat, f: Flags): Flags {
    f.(deleted := f.deleted || (uid in rows && rows[uid].deleted))
  }

  lemma {:induction false} ImportAt(rows: Rows, batch: Answer, uid: nat)
    requires Distinct(batch)
    ensures
      var r, f := ImportRows(rows, batch), Find(batch, uid);
      && (uid in r <==> uid in rows || f.Some?)
      && (uid in r ==> r[uid] == if f.Some? then ImportedRow(rows, uid, f.value) else rows[uid])
    decreases |batch|
  {
    if batch != [] { ImportAt(Upsert(rows, batch[0].0, batch[0].1), batch[1..], uid); }
  }

  /** The rows of window `lo..=hi` after its import: fetched messages overwrite,
      except that hidden rows stay hidden and pending edits are put back. */
  function Overlay(outbox: Outbox, uid: nat, f: Flags): Flags {
    Flags(if Key(uid, Seen) in outbox then outbox[Key(uid, Seen)].value else f.seen,
          if Key(uid, Flagged) in outbox then outbox[Key(uid, Flagged)].value else f.flagged,
          f.deleted)
  }

  function WindowRows(rows: Rows, fetched: map<nat, Flags>, outbox: Outbox, lo: nat, hi: nat): Rows {
    map u | u in rows.Keys + fetched.Keys ::
      if !(lo <= u <= hi) && u in rows then rows[u]
      else Overlay(outbox, u, if u in fetched then ImportedRow(rows, u, fetched[u]) else rows[u])
  }

  /** Importing in batches and then re-applying the pending flags gives exactly
      the window's rows. */
  lemma {:induction false} ImportIsWindow(rows: Rows, msgs: Answer, outbox: Outbox, lo: nat, hi: nat)
    requires Distinct(msgs) && forall u :: u in AsMap(msgs) ==> lo <= u <= hi
    ensures Reapply(Reapply(ImportRows(rows, msgs), outbox, Seen, lo, hi), outbox, Flagged, lo, hi)
         == WindowRows(rows, AsMap(msgs), outbox, lo, hi)
  {
    var r := Reapply(Reapply(ImportRows(rows, msgs), outbox, Seen, lo, hi), outbox, Flagged, lo, hi);
    var w := WindowRows(rows, AsMap(msgs), outbox, lo, hi);
    forall u ensures (u in r <==> u in w) && (u in r ==> r[u] == w[u]) {
      ImportAt(rows, msgs, u);
      AsMapAt(msgs, u);
    }
  }

  /** Two adjacent windows are one window, with the fetches joined. */
  lemma {:induction false} WindowsJoin(rows: Rows, a: map<nat, Flags>, b: map<nat, Flags>, outbox: Outbox,
                                       lo: nat, mid: nat, hi: nat)
    requires lo <= mid + 1 && mid <= hi
    requires forall u :: u in a ==> lo <= u <= mid
    requires forall u :: u in b ==> mid < u <= hi
    ensures WindowRows(WindowRows(rows, a, outbox, lo, mid), b, outbox, mid + 1, hi)
         == WindowRows(rows, a + b, outbox, lo, hi)
  {
    var two := WindowRows(WindowRows(rows, a, outbox, lo, mid), b, outbox, mid + 1, hi);
    var one := WindowRows(rows, a + b, outbox, lo, hi);
    forall u ensures (u in two <==> u in one) && (u in one ==> two[u] == one[u]) {
      WindowsJoinAt(rows, a, b, outbox, lo, mid, hi, u);
    }
  }

  lemma {:induction false} WindowsJoinAt(rows: Rows, a: map<nat, Flags>, b: map<nat, Flags>, outbox: Outbox,
                                         lo: nat, mid: nat, hi: nat, u: nat)
    requires lo <= mid + 1 && mid <= hi
    requires u in a ==> lo <= u <= mid
    requires u in b ==> mid < u <= hi
    ensures var two := WindowRows(WindowRows(rows, a, outbox, lo, mid), b, outbox, mid + 1, hi);
            var one := WindowRows(rows, a + b, outbox, lo, hi);
            (u in two <==> u in one) && (u in one ==> two[u] == one[u])
  {
  }

  lemma {:induction false} ImportRowsAppend(rows: Rows, a: Answer, b: Answer)
    ensures ImportRows(ImportRows(rows, a), b) == ImportRows(rows, a + b)
    decreases |a|
  {
    if a == [] {
      assert a + b == b;
    } else {
      assert (a + b)[1..] == a[1..] + b;
      ImportRowsAppend(Upsert(rows, a[0].0, a[0].1), a[1..], b);
    }
  }

  /** Is each fetched message new, judged by the uids known before the import? */
  function Newness(msgs: Answer, known: set<nat>): (r: seq<bool>)
    ensures |r| == |msgs|
    ensures forall i :: 0 <= i < |r| ==> r[i] == (msgs[i].0 !in known)
    decreases |msgs|
  {
    if msgs == [] then [] else [msgs[0].0 !in known] + Newness(msgs[1..], known)
  }

  predicate ShouldNotify(uid: nat, known: set<nat>, f: Flags, on: bool) {
    uid !in known && on && !f.seen && !f.deleted
  }

  /** Whom to notify about a fetched window, in order. */
  function ToNotify(msgs: Answer, known: set<nat>, on: bool): (r: seq<nat>)
    ensures forall u :: u in r ==> u in AsMap(msgs) && u !in known
    decreases |msgs|
  {
    if msgs == [] then []
    else
      var init, last := msgs[..|msgs| - 1], msgs[|msgs| - 1];
      assert msgs == init + [last];
      AsMapAppend(init, [last]);
      ToNotify(init, known, on) + if ShouldNotify(last.0, known, last.1, on) then [last.0] else []
  }

  lemma {:induction false} ImportIsAhead(e: World, batch: Answer, lo: nat, hi: nat, base: nat, cursor: nat)
    requires Safe(e) && Distinct(batch) && 1 <= lo && base <= lo && cursor < lo && hi < e.server.next
    requires forall u :: u in AsMap(batch) ==> lo <= u <= hi && Shown(e.server, u, AsMap(batch)[u])
    ensures Ahead(e, e.(rows := ImportRows(e.rows, batch)), base, cursor)
    ensures ImportRows(e.rows, batch).Keys == e.rows.Keys + AsMap(batch).Keys
  {
    var r := ImportRows(e.rows, batch);
    ImportGrows(e.rows, batch, lo, hi);
    if Sound(e, base, cursor) {
      forall key: Key | key.uid in r ensures FlagGrounded(r, e.server, e.chosen, key) {
        ImportIsGrounded(e, batch, key);
      }
      ImportIsExcused(e, batch);
    }
    RowsAhead(e, r, base, cursor);
  }

  lemma {:induction false} ImportGrows(rows: Rows, batch: Answer, lo: nat, hi: nat)
    requires Distinct(batch) && forall u :: u in AsMap(batch) ==> lo <= u <= hi
    ensures ImportRows(rows, batch).Keys == rows.Keys + AsMap(batch).Keys && Grows(rows, ImportRows(rows, batch))
    ensures forall u :: u in rows && u < lo ==> ImportRows(rows, batch)[u] == rows[u]
  {
    var r := ImportRows(rows, batch);
    forall u: nat
      ensures u in r <==> u in rows || u in AsMap(batch)
      ensures u in rows ==> u in r && (rows[u].deleted ==> r[u].deleted) && (u < lo ==> r[u] == rows[u])
    {
      ImportAt(rows, batch, u);
      AsMapAt(batch, u);
    }
  }

  lemma {:induction false} ImportIsGrounded(e: World, batch: Answer, key: Key)
    requires ServerOk(e.server) && Grounded(e.rows, e.server, e.chosen) && Distinct(batch)
    requires key.uid in ImportRows(e.rows, batch)
    requires forall u :: u in AsMap(batch) ==> Shown(e.server, u, AsMap(batch)[u])
    ensures FlagGrounded(ImportRows(e.rows, batch), e.server, e.chosen, key)
  {
    ImportAt(e.rows, batch, key.uid);
    AsMapAt(batch, key.uid);
    if key.uid in AsMap(batch) {
      assert Shown(e.server, key.uid, AsMap(batch)[key.uid]);
    } else {
      ServerStepStays(e.server);
      FlagStaysGrounded(e.rows, ImportRows(e.rows, batch), e.server, e.server, e.chosen, e.chosen, key);
    }
  }

  lemma {:induction false} ImportIsExcused(e: World, batch: Answer)
    requires Excused(e.rows, e.server, e.hid) && Distinct(batch)
    requires forall u :: u in AsMap(batch) ==> Shown(e.server, u, AsMap(batch)[u])
    ensures Excused(ImportRows(e.rows, batch), e.server, e.hid)
  {
    var r := ImportRows(e.rows, batch);
    forall u | u in r && r[u].deleted ensures u in e.hid || u !in e.server.mail || WasDeleted(e.server, u) {
      ImportAt(e.rows, batch, u);
      AsMapAt(batch, u);
      if u in AsMap(batch) { assert Shown(e.server, u, AsMap(batch)[u]); }
    }
  }

  lemma {:induction false} ReapplyIsKept(e: World, flag: Flag, lo: nat, hi: nat, base: nat, cursor: nat)
    requires Safe(e)
    ensures Kept(e, e.(rows := Reapply(e.rows, e.outbox, flag, lo, hi)), base, cursor)
  {
    var r := Reapply(e.rows, e.outbox, flag, lo, hi);
    forall key: Key | key.uid in r
      ensures Get(r[key.uid], key.flag) == Get(e.rows[key.uid], key.flag)
           || (key in e.outbox && Get(r[key.uid], key.flag) == e.outbox[key].value)
      ensures Sound(e, base, cursor) ==> FlagGrounded(r, e.server, e.chosen, key)
    {
      ReapplyAt(e, flag, lo, hi, key);
    }
    RowsAhead(e, r, base, cursor);
  }

  lemma {:induction false} ReapplyAt(e: World, flag: Flag, lo: nat, hi: nat, key: Key)
    requires Safe(e) && key.uid in e.rows
    ensures var r := Reapply(e.rows, e.outbox, flag, lo, hi);
            && (Get(r[key.uid], key.flag) == Get(e.rows[key.uid], key.flag)
                || (key in e.outbox && Get(r[key.uid], key.flag) == e.outbox[key].value))
            && (Grounded(e.rows, e.server, e.chosen) ==> FlagGrounded(r, e.server, e.chosen, key))
  {
    var r := Reapply(e.rows, e.outbox, flag, lo, hi);
    assert Key(key.uid, key.flag) == key;
    if Get(r[key.uid], key.flag) == Get(e.rows[key.uid], key.flag) && Grounded(e.rows, e.server, e.chosen) {
      ServerStepStays(e.server);
      FlagStaysGrounded(e.rows, r, e.server, e.server, e.chosen, e.chosen, key);
    }
  }

  /** Rows in `lo..=hi` hold the pending value of one flag, raced edits included. */
  ghost predicate HeldFlag(e: World, flag: Flag, lo: nat, hi: nat) {
    forall u :: u in e.rows && lo <= u <= hi && Key(u, flag) in e.outbox ==>
      Get(e.rows[u], flag) == e.outbox[Key(u, flag)].value
  }

  lemma {:induction false} EnvKeepsHeldFlag(others: Others, a: World, b: World, flag: Flag, lo: nat, hi: nat)
    requires Waited(others, a, false)(b) && HeldFlag(a, flag, lo, hi)
    ensures HeldFlag(b, flag, lo, hi)
  {
    WaitMoves(others, a, b, false);
    forall u | u in b.rows && lo <= u <= hi && Key(u, flag) in b.outbox
      ensures Get(b.rows[u], flag) == b.outbox[Key(u, flag)].value
    {
      assert Untouched(a, b, Key(u, flag)) || Edited(a, b, Key(u, flag), false);
    }
  }

  lemma {:induction false} ReapplyHolds(e: World, flag: Flag, lo: nat, hi: nat, other: Flag)
    ensures var e' := e.(rows := Reapply(e.rows, e.outbox, flag, lo, hi));
            HeldFlag(e', flag, lo, hi) && (HeldFlag(e, other, lo, hi) ==> HeldFlag(e', other, lo, hi))
  {
  }

  lemma {:induction false} ToNotifyStep(msgs: Answer, i: nat, known: set<nat>, on: bool)
    requires Distinct(msgs) && i < |msgs|
    ensures ToNotify(msgs[..i + 1], known, on)
         == ToNotify(msgs[..i], known, on) + (if ShouldNotify(msgs[i].0, known, msgs[i].1, on) then [msgs[i].0] else [])
    ensures msgs[i].0 !in ToNotify(msgs[..i], known, on) && msgs[i].0 in AsMap(msgs)
  {
    assert msgs[..i + 1][..i] == msgs[..i];
    assert msgs == msgs[..i] + msgs[i..];
    DistinctParts(msgs[..i], msgs[i..]);
    AsMapAppend(msgs[..i], msgs[i..]);
    assert msgs[i].0 in AsMap(msgs[i..]);
  }

  lemma {:induction false} NotifyIsAhead(e: World, uid: nat, base: nat, cursor: nat)
    requires Safe(e) && uid in e.rows && uid !in e.notified
    ensures Ahead(e, e.(notified := e.notified + [uid]), base, cursor)
  {
  }

  /** The messages of a batch are among `all`, in a window. */
  ghost predicate PartOf(batch: Answer, all: map<nat, Flags>, lo: nat, hi: nat) {
    forall u :: u in AsMap(batch) ==> lo <= u <= hi && u in all && AsMap(batch)[u] == all[u]
  }

  lemma {:induction false} BatchSplits(msgs: Answer, i: nat, end: nat, lo: nat, hi: nat)
    requires Distinct(msgs) && i <= end <= |msgs| && forall u :: u in AsMap(msgs) ==> lo <= u <= hi
    ensures msgs[..end] == msgs[..i] + msgs[i..end]
    ensures Distinct(msgs[i..end]) && PartOf(msgs[i..end], AsMap(msgs), lo, hi)
    ensures AsMap(msgs[..i]).Keys !! AsMap(msgs[i..end]).Keys
  {
    assert msgs == msgs[..end] + msgs[end..] && msgs[..end] == msgs[..i] + msgs[i..end];
    DistinctParts(msgs[..end], msgs[end..]);
    DistinctParts(msgs[..i], msgs[i..end]);
    AsMapAppend(msgs[..end], msgs[end..]);
    AsMapAppend(msgs[..i], msgs[i..end]);
  }

  // ---- what an import leaves alone ----------------------------------------

  /** Rows other than `touched` hold the flags they held, and queued changes stay, unless the user
      edits them. */
  ghost predicate LeavesBut(a: World, b: World, touched: set<nat>) {
    && Grows(a.rows, b.rows) && EntriesKept(a, b, {})
    && forall key: Key :: key.uid in a.rows && key.uid !in touched && key !in b.outbox ==>
         key !in a.outbox && Get(b.rows[key.uid], key.flag) == Get(a.rows[key.uid], key.flag)
  }

  ghost predicate Leaves(a: World, b: World, touched: set<nat>, others: Others) {
    Moved(others, a.server)(b.server) && LeavesBut(a, b, touched)
  }

  /** `Leaves` from `a`, as a property of the state reached. */
  ghost function LeavesFrom(a: World, touched: set<nat>, others: Others): World -> bool {
    (b: World) => Leaves(a, b, touched, others)
  }

  /** Rows show the fetched flags wherever nothing is queued, and hide what was deleted. */
  ghost predicate Shows(w: World, fetched: map<nat, Flags>) {
    && (forall u :: u in fetched ==> u in w.rows && (fetched[u].deleted ==> w.rows[u].deleted))
    && (forall key: Key :: key.uid in fetched && key !in w.outbox ==>
          Get(w.rows[key.uid], key.flag) == Get(fetched[key.uid], key.flag))
  }

  ghost function Showing(fetched: map<nat, Flags>): World -> bool { (w: World) => Shows(w, fetched) }

  lemma {:induction false} EnvLeaves(a: World, b: World, others: Others)
    requires Waited(others, a, false)(b)
    ensures LeavesFrom(a, {}, others)(b)
  {
    EnvKeepsEntries(others, a, b);
    forall key: Key | key.uid in a.rows && key !in b.outbox
      ensures key !in a.outbox && Get(b.rows[key.uid], key.flag) == Get(a.rows[key.uid], key.flag)
    {
      assert Untouched(a, b, key) || Edited(a, b, key, false);
    }
  }

  lemma {:induction false} LeavesTrans(a: World, b: World, c: World, s: set<nat>, t: set<nat>, others: Others)
    requires LeavesFrom(a, s, others)(b) && LeavesFrom(b, t, others)(c)
    ensures LeavesFrom(a, s + t, others)(c)
  {
    assert Leaves(a, b, s, others) && Leaves(b, c, t, others);
    MovedTrans(others, a.server, b.server, c.server);
    forall key: Key | key.uid in a.rows && key.uid !in s + t && key !in c.outbox
      ensures key !in a.outbox && Get(c.rows[key.uid], key.flag) == Get(a.rows[key.uid], key.flag)
    {
      assert key !in b.outbox;
    }
  }

  lemma {:induction false} ShowsStay(a: World, b: World, touched: set<nat>, fetched: map<nat, Flags>, others: Others)
    requires LeavesFrom(a, touched, others)(b) && Showing(fetched)(a) && touched !! fetched.Keys
    ensures Showing(fetched)(b)
  {
    assert Leaves(a, b, touched, others) && Shows(a, fetched);
    forall key: Key | key.uid in fetched && key !in b.outbox
      ensures Get(b.rows[key.uid], key.flag) == Get(fetched[key.uid], key.flag)
    {
      assert key.uid in a.rows && key !in a.outbox;
    }
  }

  lemma {:induction false} ShowsBoth(w: World, x: map<nat, Flags>, y: map<nat, Flags>)
    requires Showing(x)(w) && Showing(y)(w)
    ensures Showing(x + y)(w)
  {
    assert Shows(w, x) && Shows(w, y);
  }

  /** How far an import has come: the first part of the fetch has rows. */
  ghost predicate Importing(a: World, b: World, part: Answer, others: Others) {
    && b.notified == a.notified && b.rows.Keys == a.rows.Keys + AsMap(part).Keys
    && LeavesFrom(a, AsMap(part).Keys, others)(b) && Showing(AsMap(part))(b)
    && (!others.Everyone? ==> b == a.(server := b.server, rows := ImportRows(a.rows, part)))
  }

  ghost function ImportingFrom(a: World, part: Answer, others: Others): World -> bool {
    (b: World) => Importing(a, b, part, others)
  }

  lemma {:induction false} ImportingStarts(a: World, others: Others)
    requires ServerOk(a.server)
    ensures ImportingFrom(a, [], others)(a)
  {
    EnvStepStays(a, false);
    WaitedImporting(a, a, others);
  }

  lemma {:induction false} WaitedImporting(a: World, b: World, others: Others)
    requires Waited(others, a, false)(b)
    ensures ImportingFrom(a, [], others)(b)
  {
    EnvLeaves(a, b, others);
    assert AsMap([]).Keys == {};
    assert Shows(b, AsMap([]));
    OnlyTheServer(others, a, b);
    assert Importing(a, b, [], others);
  }

  /** One transaction. */
  lemma {:induction false} BatchLeaves(b: World, batch: Answer, others: Others)
    requires ServerOk(b.server) && Distinct(batch)
    ensures LeavesFrom(b, AsMap(batch).Keys, others)(b.(rows := ImportRows(b.rows, batch)))
    ensures ImportRows(b.rows, batch).Keys == b.rows.Keys + AsMap(batch).Keys
  {
    var c := b.(rows := ImportRows(b.rows, batch));
    ServerStepStays(b.server);
    forall u
      ensures u in c.rows <==> u in b.rows || u in AsMap(batch)
      ensures u in b.rows && b.rows[u].deleted ==> c.rows[u].deleted
      ensures u in b.rows && u !in AsMap(batch) ==> c.rows[u] == b.rows[u]
    {
      ImportAt(b.rows, batch, u);
      AsMapAt(batch, u);
    }
    assert LeavesBut(b, c, AsMap(batch).Keys);
    assert Leaves(b, c, AsMap(batch).Keys, others);
  }

  /** A wait and one transaction. */
  lemma {:induction false} BatchImported(a: World, b: World, batch: Answer, others: Others)
    requires Waited(others, a, false)(b) && Distinct(batch)
    ensures ImportingFrom(a, batch, others)(b.(rows := ImportRows(b.rows, batch)))
  {
    var c := b.(rows := ImportRows(b.rows, batch));
    EnvLeaves(a, b, others);
    BatchLeaves(b, batch, others);
    LeavesTrans(a, b, c, {}, AsMap(batch).Keys, others);
    assert {} + AsMap(batch).Keys == AsMap(batch).Keys;
    ImportShows(b, batch);
  }

  lemma {:induction false} ImportShows(b: World, batch: Answer)
    requires Distinct(batch)
    ensures Showing(AsMap(batch))(b.(rows := ImportRows(b.rows, batch)))
  {
    var c := b.(rows := ImportRows(b.rows, batch));
    forall u | u in AsMap(batch)
      ensures u in c.rows && c.rows[u].seen == AsMap(batch)[u].seen && c.rows[u].flagged == AsMap(batch)[u].flagged
      ensures AsMap(batch)[u].deleted ==> c.rows[u].deleted
    {
      ImportAt(b.rows, batch, u);
      AsMapAt(batch, u);
    }
    assert Shows(c, AsMap(batch));
  }

  lemma {:induction false} ImportingTrans(a: World, b: World, c: World, part: Answer, batch: Answer, others: Others)
    requires ImportingFrom(a, part, others)(b) && ImportingFrom(b, batch, others)(c)
    requires AsMap(part).Keys !! AsMap(batch).Keys
    ensures ImportingFrom(a, part + batch, others)(c)
  {
    assert Importing(a, b, part, others) && Importing(b, c, batch, others);
    AsMapAppend(part, batch);
    ImportRowsAppend(a.rows, part, batch);
    LeavesTrans(a, b, c, AsMap(part).Keys, AsMap(batch).Keys, others);
    ShowsStay(b, c, AsMap(batch).Keys, AsMap(part), others);
    ShowsBoth(c, AsMap(part), AsMap(batch));
    assert AsMap(part + batch).Keys == AsMap(part).Keys + AsMap(batch).Keys;
  }

  /** A wait and the restore of one flag. */
  lemma {:induction false} ReapplyLeaves(a: World, b: World, flag: Flag, lo: nat, hi: nat, others: Others)
    requires Waited(others, a, false)(b)
    ensures LeavesFrom(a, {}, others)(b.(rows := Reapply(b.rows, b.outbox, flag, lo, hi)))
  {
    var c := b.(rows := Reapply(b.rows, b.outbox, flag, lo, hi));
    var none: set<nat> := {};
    EnvLeaves(a, b, others);
    RestoreLeaves(b, flag, lo, hi, others);
    LeavesTrans(a, b, c, none, none, others);
    assert none + none == none;
  }

  lemma {:induction false} RestoreLeaves(b: World, flag: Flag, lo: nat, hi: nat, others: Others)
    requires ServerOk(b.server)
    ensures LeavesFrom(b, {}, others)(b.(rows := Reapply(b.rows, b.outbox, flag, lo, hi)))
  {
    var c := b.(rows := Reapply(b.rows, b.outbox, flag, lo, hi));
    ServerStepStays(b.server);
    forall key: Key | key.uid in b.rows && key !in c.outbox
      ensures Get(c.rows[key.uid], key.flag) == Get(b.rows[key.uid], key.flag)
    {
      assert Key(key.uid, key.flag) == key;
    }
    assert Leaves(b, c, {}, others);
  }

  lemma {:induction false} NewnessAppends(a: Answer, b: Answer, known: set<nat>)
    ensures Newness(a + b, known) == Newness(a, known) + Newness(b, known)
  {
  }

  /** Pending edits of a whole window are in place. */
  ghost predicate HeldBoth(e: World, lo: nat, hi: nat) {
    HeldFlag(e, Seen, lo, hi) && HeldFlag(e, Flagged, lo, hi)
  }

  ghost function Holding(lo: nat, hi: nat): World -> bool { (w: World) => HeldBoth(w, lo, hi) }

  lemma {:induction false} WaitHolds(others: Others, a: World, b: World, lo: nat, hi: nat)
    requires Waited(others, a, false)(b) && Holding(lo, hi)(a)
    ensures Holding(lo, hi)(b)
  {
    assert HeldBoth(a, lo, hi);
    EnvKeepsHeldFlag(others, a, b, Seen, lo, hi);
    EnvKeepsHeldFlag(others, a, b, Flagged, lo, hi);
  }

  /** How far the notifications of a window have come. */
  ghost predicate Notifying(a: World, b: World, sent: seq<nat>, others: Others) {
    && b.rows.Keys == a.rows.Keys && b.notified == a.notified + sent && LeavesFrom(a, {}, others)(b)
    && (!others.Everyone? ==> b == a.(server := b.server, notified := b.notified))
  }

  ghost function NotifyingFrom(a: World, sent: seq<nat>, others: Others): World -> bool {
    (b: World) => Notifying(a, b, sent, others)
  }

  /** The first `n` messages of a window have been notified about, where due. */
  ghost function NotifiedFirst(a: World, msgs: Answer, n: nat, known: set<nat>, on: bool, others: Others): World -> bool
    requires n <= |msgs|
  {
    NotifyingFrom(a, ToNotify(msgs[..n], known, on), others)
  }

  lemma {:induction false} NotifyingStarts(a: World, others: Others)
    requires ServerOk(a.server)
    ensures NotifyingFrom(a, [], others)(a)
  {
    ServerStepStays(a.server);
    assert Leaves(a, a, {}, others);
  }

  /** A wait sends nothing, … */
  lemma {:induction false} WaitedNotifying(a: World, b: World, others: Others)
    requires Waited(others, a, false)(b)
    ensures NotifyingFrom(a, [], others)(b)
  {
    EnvLeaves(a, b, others);
    WaitMoves(others, a, b, false);
    OnlyTheServer(others, a, b);
  }

  /** … and sending a message changes nothing else. */
  lemma {:induction false} NotifiedOnce(a: World, uid: nat, others: Others)
    requires ServerOk(a.server)
    ensures NotifyingFrom(a, [uid], others)(a.(notified := a.notified + [uid]))
  {
    ServerStepStays(a.server);
    assert Leaves(a, a.(notified := a.notified + [uid]), {}, others);
  }

  lemma {:induction false} NotifyingTrans(a: World, b: World, c: World, sent: seq<nat>, more: seq<nat>, others: Others)
    requires NotifyingFrom(a, sent, others)(b) && NotifyingFrom(b, more, others)(c)
    ensures NotifyingFrom(a, sent + more, others)(c)
  {
    assert Notifying(a, b, sent, others) && Notifying(b, c, more, others);
    assert a.notified + (sent + more) == (a.notified + sent) + more;
    var none: set<nat> := {};
    LeavesTrans(a, b, c, none, none, others);
    assert none + none == none;
  }

  /** An answer names no more messages than its window has UIDs. */
  lemma {:induction false} AtMostOneEach(msgs: Answer, lo: nat, hi: nat)
    requires Distinct(msgs) && lo <= hi && forall u :: u in AsMap(msgs) ==> lo <= u <= hi
    ensures |msgs| <= hi + 1 - lo
  {
    AnswerSize(msgs);
    RangeSize(lo, hi);
    InRange(AsMap(msgs).Keys, Range(lo, hi));
  }

  lemma {:induction false} AnswerSize(msgs: Answer)
    requires Distinct(msgs)
    ensures |AsMap(msgs).Keys| == |msgs|
    decreases |msgs|
  {
    if msgs != [] {
      var init, last := msgs[..|msgs| - 1], msgs[|msgs| - 1];
      assert msgs == init + [last];
      DistinctParts(init, [last]);
      AsMapAppend(init, [last]);
      AnswerSize(init);
      assert AsMap(msgs).Keys == AsMap(init).Keys + {last.0};
    }
  }

  lemma {:induction false} RangeSize(lo: nat, hi: nat)
    requires lo <= hi + 1
    ensures |Range(lo, hi)| == hi + 1 - lo
    decreases hi + 1 - lo
  {
    if lo <= hi { RangeSize(lo + 1, hi); }
  }

  lemma {:induction false} InRange(a: set<nat>, b: set<nat>)
    requires a <= b
    ensures |a| <= |b|
    decreases a
  {
    if a != {} {
      var u :| u in a;
      InRange(a - {u}, b - {u});
    }
  }

  // ---- wherever a walk is cut ----------------------------------------------

  ghost function Range(lo: nat, hi: nat): (r: set<nat>)
    ensures forall u :: u in r <==> lo <= u <= hi
    decreases hi + 1 - lo
  {
    if lo > hi then {} else {lo} + Range(lo + 1, hi)
  }

  /** The server showed the message unseen and not deleted. */
  ghost predicate WasUnread(s: Server, u: nat) { exists f :: Shown(s, u, f) && !f.seen && !f.deleted }

  /** Only new, unread messages from `lo` on have been notified about, and none unless `on`. */
  ghost predicate NewsOnly(a: World, b: World, lo: nat, on: bool) {
    && a.notified <= b.notified && (!on ==> b.notified == a.notified)
    && forall k :: |a.notified| <= k < |b.notified| ==>
         lo <= b.notified[k] && b.notified[k] !in a.rows && WasUnread(b.server, b.notified[k])
  }

  /** All that importing `lo..=hi` may have done, wherever it was cut. */
  ghost predicate Inroads(a: World, b: World, lo: nat, hi: nat, on: bool, others: Others) {
    && Leaves(a, b, Range(lo, hi), others) && NewsOnly(a, b, lo, on)
    && a.rows.Keys <= b.rows.Keys <= a.rows.Keys + Range(lo, hi)
  }

  ghost function InroadsFrom(a: World, lo: nat, hi: nat, on: bool, others: Others): World -> bool {
    (b: World) => Inroads(a, b, lo, hi, on, others)
  }

  lemma {:induction false} LeavesMore(a: World, b: World, s: set<nat>, t: set<nat>, others: Others)
    requires LeavesFrom(a, s, others)(b) && s <= t
    ensures LeavesFrom(a, t, others)(b)
  {
    assert Leaves(a, b, s, others);
  }

  lemma {:induction false} InroadsStill(a: World, b: World, lo: nat, hi: nat, on: bool, others: Others)
    requires LeavesFrom(a, {}, others)(b) && b.rows.Keys == a.rows.Keys && b.notified == a.notified
    ensures InroadsFrom(a, lo, hi, on, others)(b)
  {
    LeavesMore(a, b, {}, Range(lo, hi), others);
    assert Leaves(a, b, Range(lo, hi), others);
  }

  lemma {:induction false} InroadsNone(a: World, lo: nat, hi: nat, on: bool, others: Others)
    requires ServerOk(a.server)
    ensures InroadsFrom(a, lo, hi, on, others)(a)
  {
    EnvStepStays(a, false);
    EnvLeaves(a, a, others);
    InroadsStill(a, a, lo, hi, on, others);
  }

  lemma {:induction false} InroadsWait(others: Others, a: World, b: World, lo: nat, hi: nat, on: bool)
    requires Waited(others, a, false)(b)
    ensures InroadsFrom(a, lo, hi, on, others)(b)
  {
    WaitMoves(others, a, b, false);
    EnvLeaves(a, b, others);
    InroadsStill(a, b, lo, hi, on, others);
  }

  lemma {:induction false} InroadsTrans(a: World, b: World, c: World, lo: nat, hi: nat, x: nat, y: nat, on: bool,
                                        others: Others)
    requires InroadsFrom(a, lo, hi, on, others)(b) && InroadsFrom(b, x, y, on, others)(c) && lo <= x && y <= hi
    ensures InroadsFrom(a, lo, hi, on, others)(c)
  {
    assert Inroads(a, b, lo, hi, on, others) && Inroads(b, c, x, y, on, others);
    assert Range(x, y) <= Range(lo, hi) && Range(lo, hi) + Range(x, y) == Range(lo, hi);
    LeavesTrans(a, b, c, Range(lo, hi), Range(x, y), others);
    NewsTrans(a, b, c, lo, x, on);
    assert Leaves(a, c, Range(lo, hi), others);
  }

  lemma {:induction false} NewsTrans(a: World, b: World, c: World, lo: nat, x: nat, on: bool)
    requires NewsOnly(a, b, lo, on) && NewsOnly(b, c, x, on) && lo <= x
    requires a.rows.Keys <= b.rows.Keys && ServerStep(b.server, c.server)
    ensures NewsOnly(a, c, lo, on)
  {
    forall k | |a.notified| <= k < |c.notified|
      ensures lo <= c.notified[k] && c.notified[k] !in a.rows && WasUnread(c.server, c.notified[k])
    {
      if k < |b.notified| {
        assert c.notified[k] == b.notified[k];
        UnreadStays(b.server, c.server, b.notified[k]);
      } else {
        assert c.notified[k] !in b.rows.Keys;
      }
    }
  }

  lemma {:induction false} UnreadStays(a: Server, b: Server, u: nat)
    requires ServerStep(a, b) && WasUnread(a, u)
    ensures WasUnread(b, u)
  {
    var f :| Shown(a, u, f) && !f.seen && !f.deleted;
    ShownStays(a, b, u, f);
  }

  /** One transaction. */
  lemma {:induction false} InroadsBatch(b: World, batch: Answer, lo: nat, hi: nat, others: Others)
    requires ServerOk(b.server) && Distinct(batch) && forall u :: u in AsMap(batch) ==> lo <= u <= hi
    ensures InroadsFrom(b, lo, hi, false, others)(b.(rows := ImportRows(b.rows, batch)))
  {
    var c := b.(rows := ImportRows(b.rows, batch));
    BatchLeaves(b, batch, others);
    LeavesMore(b, c, AsMap(batch).Keys, Range(lo, hi), others);
    assert Leaves(b, c, Range(lo, hi), others);
  }

  /** Where nothing may be notified about, nothing is. */
  lemma {:induction false} InroadsQuiet(a: World, b: World, lo: nat, hi: nat, on: bool, others: Others)
    requires InroadsFrom(a, lo, hi, false, others)(b)
    ensures b.notified == a.notified && InroadsFrom(a, lo, hi, on, others)(b)
  {
    assert Inroads(a, b, lo, hi, false, others);
    assert Inroads(a, b, lo, hi, on, others);
  }

  lemma {:induction false} InroadsNotify(a: World, b: World, c: World, msgs: Answer, n: nat, known: set<nat>, lo: nat,
                                         hi: nat, on: bool, others: Others)
    requires Distinct(msgs) && n <= |msgs| && (forall u :: u in AsMap(msgs) ==> lo <= u <= hi)
    requires Sent(a.server, AsMap(msgs), hi) && known == Within(a.rows, lo, hi).Keys
    requires InroadsFrom(a, lo, hi, false, others)(b) && NotifiedFirst(b, msgs, n, known, on, others)(c)
    ensures InroadsFrom(a, lo, hi, on, others)(c)
  {
    var sent := ToNotify(msgs[..n], known, on);
    InroadsQuiet(a, b, lo, hi, on, others);
    assert Inroads(a, b, lo, hi, on, others) && Notifying(b, c, sent, others);
    var none: set<nat> := {};
    LeavesTrans(a, b, c, Range(lo, hi), none, others);
    assert Range(lo, hi) + none == Range(lo, hi);
    assert Leaves(a, c, Range(lo, hi), others) && Leaves(b, c, none, others);
    if !on { NobodyToNotify(msgs[..n], known); }
    forall k | |a.notified| <= k < |c.notified|
      ensures lo <= c.notified[k] && c.notified[k] !in a.rows && WasUnread(c.server, c.notified[k])
    {
      SentWasUnread(msgs, n, known, on, c.notified[k]);
      ShownStays(a.server, c.server, c.notified[k], AsMap(msgs)[c.notified[k]]);
    }
  }

  lemma {:induction false} NobodyToNotify(msgs: Answer, known: set<nat>)
    ensures ToNotify(msgs, known, false) == []
    decreases |msgs|
  {
    if msgs != [] { NobodyToNotify(msgs[..|msgs| - 1], known); }
  }

  lemma {:induction false} SentWasUnread(msgs: Answer, n: nat, known: set<nat>, on: bool, u: nat)
    requires Distinct(msgs) && n <= |msgs| && u in ToNotify(msgs[..n], known, on)
    ensures u in AsMap(msgs) && ShouldNotify(u, known, AsMap(msgs)[u], on)
  {
    assert msgs == msgs[..n] + msgs[n..];
    DistinctParts(msgs[..n], msgs[n..]);
    AsMapAppend(msgs[..n], msgs[n..]);
    ToNotifyIs(msgs[..n], known, on, u);
  }

  // ---- moving the cursor -------------------------------------------------

  /** Where a window's import leaves the cursor. IMAP answers are authoritative for
      the whole window; API providers may have answered in part. */
  function NextCursor(kind: ProviderKind, stored: set<nat>, max: u32, lo: nat, hi: u32): nat {
    if SyncsOverImap(kind) then Max(max, hi)
    else if max + 1 >= lo then GapFree(stored, max, hi) else max
  }

  /** The cursor of a walk from `start` that has come to `n`. */
  function Reached(kind: ProviderKind, stored: set<nat>, start: nat, n: nat): nat
    requires 1 <= start
  {
    if SyncsOverImap(kind) then n else GapFree(stored, start - 1, n)
  }

  /** Every message of the window that is still on the server was imported. */
  lemma {:induction false} FetchCovers(fetch: World, now: World, msgs: Answer, lo: nat, hi: nat, base: nat, cursor: nat)
    requires Forward(fetch, now) && hi < fetch.server.next
    requires AsMap(msgs).Keys <= now.rows.Keys && AsMap(msgs) == Within(fetch.server.mail, lo, hi)
    ensures Covered(now.server.mail, now.rows, lo, hi)
  {
  }

  lemma {:induction false} CursorAdvances(kind: ProviderKind, e: World, base: nat, cursor: nat, max: u32, lo: nat,
                                          hi: u32)
    requires Safe(e) && Sound(e, base, cursor) && Holding(lo, hi)(e)
    requires 1 <= lo <= hi < e.server.next && base <= lo && max < lo
    requires cursor == max || (cursor == 0 && base == max + 1)
    requires SyncsOverImap(kind) ==> max + 1 == lo && Covered(e.server.mail, e.rows, lo, hi)
    ensures Sound(e, base, NextCursor(kind, e.rows.Keys, max, lo, hi))
    ensures max <= NextCursor(kind, e.rows.Keys, max, lo, hi) <= hi
  {
    var next := NextCursor(kind, e.rows.Keys, max, lo, hi);
    GapFreeIsGreatest(e.rows.Keys, max, hi);
    assert HeldBoth(e, lo, hi);
    forall key: Key | key in e.outbox && key.uid in e.rows && 1 <= key.uid <= next && key !in e.raced
      ensures Get(e.rows[key.uid], key.flag) == e.outbox[key].value
    {
      assert Key(key.uid, key.flag) == key;
    }
  }

  lemma {:induction false} SameWindow(a: Rows, b: Rows, lo: nat, hi: nat)
    requires a.Keys == b.Keys
    ensures Within(a, lo, hi).Keys == Within(b, lo, hi).Keys
  {
  }

  lemma {:induction false} KnownWindow(e: World, lo: nat, hi: nat)
    requires Safe(e)
    ensures forall u :: u in e.notified && lo <= u <= hi ==> u in Within(e.rows, lo, hi).Keys
  {
  }

  /** The fetched messages of a window have been imported and notified. */
  ghost predicate Imported(a: World, b: World, msgs: Answer, lo: nat, hi: nat, on: bool, others: Others) {
    && b.rows.Keys == a.rows.Keys + AsMap(msgs).Keys
    && b.notified == a.notified + ToNotify(msgs, Within(a.rows, lo, hi).Keys, on)
    && LeavesFrom(a, AsMap(msgs).Keys, others)(b) && Showing(AsMap(msgs))(b)
    && (!others.Everyone? ==> b == a.(server := b.server, notified := b.notified,
                                      rows := WindowRows(a.rows, AsMap(msgs), a.outbox, lo, hi)))
  }

  ghost function ImportedFrom(a: World, msgs: Answer, lo: nat, hi: nat, on: bool, others: Others): World -> bool {
    (b: World) => Imported(a, b, msgs, lo, hi, on, others)
  }

  lemma {:induction false} ImportedKeys(a: World, b: World, msgs: Answer, lo: nat, hi: nat, on: bool, others: Others)
    requires ImportedFrom(a, msgs, lo, hi, on, others)(b)
    ensures b.rows.Keys == a.rows.Keys + AsMap(msgs).Keys
  {
    assert Imported(a, b, msgs, lo, hi, on, others);
  }

  /** Fetches leave nothing out. */
  predicate Thorough(kind: ProviderKind, others: Others) { SyncsOverImap(kind) || others.MailOnly? }

  /** `Imported`, from what the server answered on the way. */
  /** `fetched` has every message of `lo..=hi` on the server, and will have. */
  ghost predicate Complete(s: Server, fetched: map<nat, Flags>, lo: nat, hi: nat) {
    (lo <= hi ==> hi < s.next) && forall u :: u in s.mail && lo <= u <= hi ==> u in fetched
  }

  ghost predicate Walked(a: World, b: World, msgs: Answer, lo: nat, hi: nat, on: bool, kind: ProviderKind,
                         others: Others) {
    && Distinct(msgs) && Imported(a, b, msgs, lo, hi, on, others)
    && Told(a.server, b.server, AsMap(msgs), lo, hi)
    && (Thorough(kind, others) ==> Complete(b.server, AsMap(msgs), lo, hi))
  }

  ghost function WalkedFrom(a: World, msgs: Answer, lo: nat, hi: nat, on: bool, kind: ProviderKind,
                            others: Others): World -> bool {
    (b: World) => Walked(a, b, msgs, lo, hi, on, kind, others)
  }

  /** A transaction's rows, the restores and the notifications make an import. */
  lemma {:induction false} WindowImported(a: World, b: World, c: World, msgs: Answer, n: nat, known: set<nat>, lo: nat,
                                          hi: nat, on: bool, others: Others)
    requires n == |msgs| && known == Within(a.rows, lo, hi).Keys
    requires PersistedFrom(a, msgs, lo, hi, others)(b) && NotifiedFirst(b, msgs, n, known, on, others)(c)
    ensures ImportedFrom(a, msgs, lo, hi, on, others)(c)
  {
    assert msgs[..n] == msgs;
    var sent := ToNotify(msgs, known, on);
    assert Persisted(a, b, msgs, lo, hi, others) && Notifying(b, c, sent, others);
    LeavesTrans(a, b, c, AsMap(msgs).Keys, {}, others);
    assert AsMap(msgs).Keys + {} == AsMap(msgs).Keys;
    ShowsStay(b, c, {}, AsMap(msgs), others);
  }

  /** The fetched messages of a window have rows, and pending edits are back. */
  ghost predicate Persisted(a: World, b: World, msgs: Answer, lo: nat, hi: nat, others: Others) {
    && b.notified == a.notified && b.rows.Keys == a.rows.Keys + AsMap(msgs).Keys
    && LeavesFrom(a, AsMap(msgs).Keys, others)(b) && Showing(AsMap(msgs))(b)
    && (!others.Everyone? ==>
          b == a.(server := b.server, rows := WindowRows(a.rows, AsMap(msgs), a.outbox, lo, hi)))
  }

  ghost function PersistedFrom(a: World, msgs: Answer, lo: nat, hi: nat, others: Others): World -> bool {
    (b: World) => Persisted(a, b, msgs, lo, hi, others)
  }

  lemma {:induction false} PersistedKeys(a: World, b: World, msgs: Answer, lo: nat, hi: nat, others: Others)
    requires PersistedFrom(a, msgs, lo, hi, others)(b)
    ensures b.notified == a.notified && b.rows.Keys == a.rows.Keys + AsMap(msgs).Keys
  {
    assert Persisted(a, b, msgs, lo, hi, others);
  }

  /** After a wait. */
  lemma {:induction false} PersistedLater(a: World, m: World, b: World, msgs: Answer, lo: nat, hi: nat, others: Others)
    requires Waited(others, a, false)(m) && PersistedFrom(m, msgs, lo, hi, others)(b)
    ensures PersistedFrom(a, msgs, lo, hi, others)(b)
  {
    assert Persisted(m, b, msgs, lo, hi, others) && Waits(others, a, m, false);
    EnvLeaves(a, m, others);
    LeavesTrans(a, m, b, {}, AsMap(msgs).Keys, others);
    assert {} + AsMap(msgs).Keys == AsMap(msgs).Keys;
    assert Persisted(a, b, msgs, lo, hi, others);
  }

  lemma {:induction false} WindowPersisted(a: World, b: World, c: World, msgs: Answer, lo: nat, hi: nat, others: Others)
    requires Distinct(msgs) && forall u :: u in AsMap(msgs) ==> lo <= u <= hi
    requires ImportingFrom(a, msgs, others)(b) && LeavesFrom(b, {}, others)(c)
    requires c.notified == b.notified && c.rows.Keys == b.rows.Keys
    requires !others.Everyone? ==>
      c == b.(server := c.server, rows := Reapply(Reapply(b.rows, c.outbox, Seen, lo, hi), c.outbox, Flagged, lo, hi))
    ensures PersistedFrom(a, msgs, lo, hi, others)(c)
  {
    assert Importing(a, b, msgs, others);
    LeavesTrans(a, b, c, AsMap(msgs).Keys, {}, others);
    assert AsMap(msgs).Keys + {} == AsMap(msgs).Keys;
    ShowsStay(b, c, {}, AsMap(msgs), others);
    if !others.Everyone? { ImportIsWindow(a.rows, msgs, c.outbox, lo, hi); }
  }

  /** A wait, the fetch `m` of a window, and its import. */
  lemma {:induction false} FetchedAndImported(a: World, m: World, c: World, msgs: Answer, lo: nat, hi: nat, on: bool,
                                              kind: ProviderKind, others: Others, omit: set<nat>)
    requires Waited(others, a, false)(m)
    requires hi < m.server.next && msgs == Listing(m.server.mail, lo, hi, omit) &&
      (Thorough(kind, others) ==> omit == {})
    requires ImportedFrom(m, msgs, lo, hi, on, others)(c)
    ensures WalkedFrom(a, msgs, lo, hi, on, kind, others)(c)
  {
    assert Imported(m, c, msgs, lo, hi, on, others);
    EnvLeaves(a, m, others);
    LeavesTrans(a, m, c, {}, AsMap(msgs).Keys, others);
    assert {} + AsMap(msgs).Keys == AsMap(msgs).Keys;
    assert Leaves(m, c, AsMap(msgs).Keys, others);
    SameWindow(a.rows, m.rows, lo, hi);
    ListingDistinct(m.server.mail, lo, hi, omit);
    FetchIsTold(a.server, m.server, c.server, lo, hi, omit);
    if omit == {} { FetchIsComplete(m.server, c.server, lo, hi); }
  }

  lemma {:induction false} FetchIsTold(a: Server, m: Server, b: Server, lo: nat, hi: nat, omit: set<nat>)
    requires ServerStep(a, m) && ServerStep(m, b)
    ensures Told(a, b, AsMap(Listing(m.mail, lo, hi, omit)), lo, hi)
  {
    var msgs := Listing(m.mail, lo, hi, omit);
    ListingDistinct(m.mail, lo, hi, omit);
    forall u | u in AsMap(msgs) ensures lo <= u <= hi && Showed(a, b, u, AsMap(msgs)[u]) {
      AsMapAt(msgs, u);
      ListingAt(m.mail, lo, hi, omit, u);
      assert Showed(a, m, u, m.mail[u]);
      ShowedLater(a, m, b, u, m.mail[u]);
    }
  }

  lemma {:induction false} FetchIsComplete(m: Server, b: Server, lo: nat, hi: nat)
    requires ServerStep(m, b) && hi < m.next
    ensures Complete(b, AsMap(Listing(m.mail, lo, hi, {})), lo, hi)
  {
    ListingIsWithin(m.mail, lo, hi);
  }

  /** Committing the cursor changes nothing of it. */
  lemma {:induction false} WalkedOn(a: World, b: World, c: World, msgs: Answer, lo: nat, hi: nat, on: bool,
                                    kind: ProviderKind, others: Others)
    requires WalkedFrom(a, msgs, lo, hi, on, kind, others)(b) && NotifyingFrom(b, [], others)(c)
    ensures WalkedFrom(a, msgs, lo, hi, on, kind, others)(c)
  {
    assert Walked(a, b, msgs, lo, hi, on, kind, others) && Notifying(b, c, [], others);
    assert Leaves(a, b, AsMap(msgs).Keys, others) && Leaves(b, c, {}, others);
    LeavesTrans(a, b, c, AsMap(msgs).Keys, {}, others);
    assert AsMap(msgs).Keys + {} == AsMap(msgs).Keys;
    ShowsStay(b, c, {}, AsMap(msgs), others);
    assert ServerStep(b.server, c.server);
    ToldLater(a.server, b.server, c.server, AsMap(msgs), lo, hi);
  }

  /** Whom a sync must notify about: fetched messages without a row before, unseen and not
      deleted. */
  ghost function News(rows: Rows, fetched: map<nat, Flags>, on: bool): set<nat> {
    set u | u in fetched && on && u !in rows && !fetched[u].seen && !fetched[u].deleted
  }

  /** Between `a` and `b` exactly those were notified about. */
  ghost predicate Announced(a: World, b: World, fetched: map<nat, Flags>, on: bool) {
    && a.notified <= b.notified
    && forall u :: u in b.notified[|a.notified|..] <==> u in News(a.rows, fetched, on)
  }

  lemma {:induction false} ToNotifyIs(msgs: Answer, known: set<nat>, on: bool, u: nat)
    requires Distinct(msgs)
    ensures u in ToNotify(msgs, known, on) <==> u in AsMap(msgs) && ShouldNotify(u, known, AsMap(msgs)[u], on)
    decreases |msgs|
  {
    if msgs != [] {
      var init, last := msgs[..|msgs| - 1], msgs[|msgs| - 1];
      assert msgs == init + [last];
      DistinctParts(init, [last]);
      AsMapAppend(init, [last]);
      ToNotifyIs(init, known, on, u);
    }
  }

  lemma {:induction false} AnnouncedMore(a: World, b: World, c: World, x: map<nat, Flags>, msgs: Answer, start: nat,
                                         n: nat, lo: nat, hi: nat, on: bool)
    requires Distinct(msgs) && start <= lo == n + 1 && lo <= hi && b.rows.Keys == a.rows.Keys + x.Keys
    requires (forall u :: u in x ==> start <= u <= n) && forall u :: u in AsMap(msgs) ==> lo <= u <= hi
    requires Announced(a, b, x, on)
    requires c.notified == b.notified + ToNotify(msgs, Within(b.rows, lo, hi).Keys, on)
    ensures Announced(a, c, x + AsMap(msgs), on)
  {
    var sent := ToNotify(msgs, Within(b.rows, lo, hi).Keys, on);
    assert c.notified[|a.notified|..] == b.notified[|a.notified|..] + sent;
    forall u ensures u in c.notified[|a.notified|..] <==> u in News(a.rows, x + AsMap(msgs), on) {
      ToNotifyIs(msgs, Within(b.rows, lo, hi).Keys, on, u);
    }
  }

  /** How far a walk from `start` has come: the windows so far, as one. */
  ghost predicate WalkedTo(a: World, b: World, fetched: map<nat, Flags>, start: nat, n: nat, on: bool,
                           kind: ProviderKind, others: Others) {
    && b.rows.Keys == a.rows.Keys + fetched.Keys
    && LeavesFrom(a, fetched.Keys, others)(b) && Showing(fetched)(b)
    && Told(a.server, b.server, fetched, start, n) && Announced(a, b, fetched, on)
    && (Thorough(kind, others) ==> Complete(b.server, fetched, start, n))
    && (!others.Everyone? ==> b == a.(server := b.server, notified := b.notified,
                                      rows := WindowRows(a.rows, fetched, a.outbox, start, n)))
  }

  ghost function WalkedUpTo(a: World, fetched: map<nat, Flags>, start: nat, n: nat, on: bool,
                            kind: ProviderKind, others: Others): World -> bool {
    (b: World) => WalkedTo(a, b, fetched, start, n, on, kind, others)
  }

  lemma {:induction false} WalkedFurther(a: World, b: World, c: World, fetched: map<nat, Flags>, msgs: Answer,
                                         start: nat, n: nat, lo: nat, hi: nat, on: bool, kind: ProviderKind,
                                         others: Others)
    requires 1 <= start <= lo == n + 1 && lo <= hi
    requires WalkedUpTo(a, fetched, start, n, on, kind, others)(b)
    requires WalkedFrom(b, msgs, lo, hi, on, kind, others)(c)
    ensures WalkedUpTo(a, fetched + AsMap(msgs), start, hi, on, kind, others)(c)
  {
    MoreShown(a, b, c, fetched, msgs, start, n, lo, hi, on, kind, others);
    MoreTold(a, b, c, fetched, msgs, start, n, lo, hi, on, kind, others);
    MoreNews(a, b, c, fetched, msgs, start, n, lo, hi, on, kind, others);
    assert WalkedTo(a, c, fetched + AsMap(msgs), start, hi, on, kind, others);
  }

  lemma {:induction false} MoreShown(a: World, b: World, c: World, fetched: map<nat, Flags>, msgs: Answer, start: nat,
                                     n: nat, lo: nat, hi: nat, on: bool, kind: ProviderKind, others: Others)
    requires 1 <= start <= lo == n + 1 && lo <= hi
    requires WalkedUpTo(a, fetched, start, n, on, kind, others)(b)
    requires WalkedFrom(b, msgs, lo, hi, on, kind, others)(c)
    ensures c.rows.Keys == a.rows.Keys + (fetched + AsMap(msgs)).Keys
    ensures LeavesFrom(a, (fetched + AsMap(msgs)).Keys, others)(c) && Showing(fetched + AsMap(msgs))(c)
  {
    WalkedShows(a, b, fetched, start, n, on, kind, others);
    WindowShows(b, c, msgs, lo, hi, on, kind, others);
    BothShown(a, b, c, fetched, AsMap(msgs), others);
  }

  lemma {:induction false} WalkedShows(a: World, b: World, fetched: map<nat, Flags>, start: nat, n: nat, on: bool,
                                       kind: ProviderKind, others: Others)
    requires WalkedUpTo(a, fetched, start, n, on, kind, others)(b)
    ensures b.rows.Keys == a.rows.Keys + fetched.Keys && forall u :: u in fetched ==> start <= u <= n
    ensures LeavesFrom(a, fetched.Keys, others)(b) && Showing(fetched)(b)
  {
    assert WalkedTo(a, b, fetched, start, n, on, kind, others);
  }

  lemma {:induction false} WindowShows(b: World, c: World, msgs: Answer, lo: nat, hi: nat, on: bool, kind: ProviderKind,
                                       others: Others)
    requires WalkedFrom(b, msgs, lo, hi, on, kind, others)(c)
    ensures c.rows.Keys == b.rows.Keys + AsMap(msgs).Keys && forall u :: u in AsMap(msgs) ==> lo <= u <= hi
    ensures LeavesFrom(b, AsMap(msgs).Keys, others)(c) && Showing(AsMap(msgs))(c)
  {
    assert Walked(b, c, msgs, lo, hi, on, kind, others);
    assert Imported(b, c, msgs, lo, hi, on, others);
  }

  lemma {:induction false} MoreNews(a: World, b: World, c: World, fetched: map<nat, Flags>, msgs: Answer, start: nat,
                                    n: nat, lo: nat, hi: nat, on: bool, kind: ProviderKind, others: Others)
    requires 1 <= start <= lo == n + 1 && lo <= hi
    requires WalkedUpTo(a, fetched, start, n, on, kind, others)(b)
    requires WalkedFrom(b, msgs, lo, hi, on, kind, others)(c)
    ensures Announced(a, c, fetched + AsMap(msgs), on)
  {
    assert WalkedTo(a, b, fetched, start, n, on, kind, others) && Walked(b, c, msgs, lo, hi, on, kind, others);
    AnnouncedMore(a, b, c, fetched, msgs, start, n, lo, hi, on);
  }

  lemma {:induction false} MoreTold(a: World, b: World, c: World, fetched: map<nat, Flags>, msgs: Answer, start: nat,
                                    n: nat, lo: nat, hi: nat, on: bool, kind: ProviderKind, others: Others)
    requires 1 <= start <= lo == n + 1 && lo <= hi
    requires WalkedUpTo(a, fetched, start, n, on, kind, others)(b)
    requires WalkedFrom(b, msgs, lo, hi, on, kind, others)(c)
    ensures Told(a.server, c.server, fetched + AsMap(msgs), start, hi)
    ensures Thorough(kind, others) ==> Complete(c.server, fetched + AsMap(msgs), start, hi)
    ensures !others.Everyone? ==> c == a.(server := c.server, notified := c.notified,
                                          rows := WindowRows(a.rows, fetched + AsMap(msgs), a.outbox, start, hi))
  {
    assert WalkedTo(a, b, fetched, start, n, on, kind, others) && Walked(b, c, msgs, lo, hi, on, kind, others);
    assert Leaves(a, b, fetched.Keys, others) && Leaves(b, c, AsMap(msgs).Keys, others);
    WindowsTold(a.server, b.server, c.server, fetched, AsMap(msgs), start, n, lo, hi);
    if Thorough(kind, others) { CompleteJoin(b.server, c.server, fetched, AsMap(msgs), start, n, lo, hi); }
    if !others.Everyone? { MoreRows(a, b, c, fetched, AsMap(msgs), start, n, lo, hi); }
  }

  lemma {:induction false} MoreRows(a: World, b: World, c: World, x: map<nat, Flags>, y: map<nat, Flags>, start: nat,
                                    n: nat, lo: nat, hi: nat)
    requires start <= lo == n + 1 && lo <= hi
    requires (forall u :: u in x ==> start <= u <= n) && (forall u :: u in y ==> lo <= u <= hi)
    requires b == a.(server := b.server, notified := b.notified, rows := WindowRows(a.rows, x, a.outbox, start, n))
    requires c == b.(server := c.server, notified := c.notified, rows := WindowRows(b.rows, y, b.outbox, lo, hi))
    ensures c == a.(server := c.server, notified := c.notified, rows := WindowRows(a.rows, x + y, a.outbox, start, hi))
  {
    WindowsJoin(a.rows, x, y, a.outbox, start, n, hi);
  }

  lemma {:induction false} BothShown(a: World, b: World, c: World, x: map<nat, Flags>, y: map<nat, Flags>,
                                     others: Others)
    requires LeavesFrom(a, x.Keys, others)(b) && LeavesFrom(b, y.Keys, others)(c) && x.Keys !! y.Keys
    requires Showing(x)(b) && Showing(y)(c) && b.rows.Keys == a.rows.Keys + x.Keys
    requires c.rows.Keys == b.rows.Keys + y.Keys
    ensures LeavesFrom(a, (x + y).Keys, others)(c) && Showing(x + y)(c)
    ensures c.rows.Keys == a.rows.Keys + (x + y).Keys
  {
    LeavesTrans(a, b, c, x.Keys, y.Keys, others);
    assert (x + y).Keys == x.Keys + y.Keys;
    ShowsStay(b, c, y.Keys, x, others);
    ShowsBoth(c, x, y);
  }

  lemma {:induction false} WindowsTold(a: Server, b: Server, c: Server, x: map<nat, Flags>, y: map<nat, Flags>,
                                       start: nat, n: nat, lo: nat, hi: nat)
    requires ServerStep(a, b) && ServerStep(b, c) && start <= lo == n + 1 && lo <= hi
    requires Told(a, b, x, start, n) && Told(b, c, y, lo, hi)
    ensures Told(a, c, x + y, start, hi)
  {
    ToldLater(a, b, c, x, start, n);
    ToldLater(a, b, c, y, lo, hi);
  }

  lemma {:induction false} CompleteJoin(b: Server, c: Server, x: map<nat, Flags>, y: map<nat, Flags>, start: nat,
                                        n: nat, lo: nat, hi: nat)
    requires ServerStep(b, c) && start <= lo == n + 1 && lo <= hi
    requires Complete(b, x, start, n) && Complete(c, y, lo, hi)
    ensures Complete(c, x + y, start, hi)
  {
  }

  /** The cursor after one more window. */
  lemma {:induction false} WalkedGap(kind: ProviderKind, a: World, b: World, msgs: Answer, start: nat, n: nat,
                                     lo: nat, hi: u32, max: u32, on: bool, others: Others)
    requires 1 <= start <= lo == n + 1 && lo <= hi && max < lo
    requires max == Reached(kind, a.rows.Keys, start, n)
    requires WalkedFrom(a, msgs, lo, hi, on, kind, others)(b)
    ensures NextCursor(kind, b.rows.Keys, max, lo, hi) == Reached(kind, b.rows.Keys, start, hi) <= hi
  {
    assert Walked(a, b, msgs, lo, hi, on, kind, others);
    GapMoves(kind, a.rows.Keys, b.rows.Keys, start, n, lo, hi, max);
  }

  lemma {:induction false} GapMoves(kind: ProviderKind, a: set<nat>, b: set<nat>, start: nat, n: nat, lo: nat, hi: u32,
                                    max: u32)
    requires 1 <= start <= lo == n + 1 && lo <= hi && max < lo
    requires max == Reached(kind, a, start, n) && forall u :: u < lo ==> (u in a <==> u in b)
    ensures NextCursor(kind, b, max, lo, hi) == Reached(kind, b, start, hi) <= hi
  {
    if !SyncsOverImap(kind) {
      GapFreeIsGreatest(b, start - 1, hi);
      GapFreeExtends(a, b, start - 1, max, lo, hi);
    }
  }

  /** `keep` stands for any property of state and cursor that survives waits,
      commits and every move of the cursor to a sound place; the walk's upper end
      stays a UID the server has given out. */
  ghost predicate Keeps(keep: (World, nat) -> bool, base: nat, highest: nat) {
    && (forall a, c {:trigger keep(a, c)} :: keep(a, c) ==> highest < a.server.next)
    && (forall a, c {:trigger Sound(a, base, c)} :: keep(a, c) ==> Safe(a) && Sound(a, base, c))
    && (forall a, b, c {:trigger Ahead(a, b, base, c)} :: keep(a, c) && Ahead(a, b, base, c) ==> keep(b, c))
    && (forall a, c, d {:trigger keep(a, c), Sound(a, base, d)} :: keep(a, c) && Sound(a, base, d) ==> keep(a, d))
  }

  lemma {:induction false} KeepIsStable(keep: (World, nat) -> bool, a: World, base: nat, highest: nat, cursor: nat)
    requires Keeps(keep, base, highest) && keep(a, cursor)
    ensures Stable((w: World) => keep(w, cursor), base, cursor)
    ensures SoundBy((w: World) => keep(w, cursor), base, cursor)
    ensures Safe(a) && Sound(a, base, cursor)
  {
    assert Sound(a, base, cursor);
    forall w {:trigger Safe(w)} | keep(w, cursor) ensures Safe(w) { assert Sound(w, base, cursor); }
  }

  /** Being a later, sound state is such a property. */
  lemma {:induction false} ForwardKeeps(a: World, base: nat, highest: nat)
    requires Safe(a) && highest < a.server.next
    ensures Keeps((b: World, c: nat) => Forward(a, b) && Sound(b, base, c), base, highest)
    ensures Forward(a, a)
  {
    ServerStepStays(a.server);
    forall b, c, d | Forward(a, b) && Ahead(b, c, base, d) ensures Forward(a, c) {
      ForwardTrans(a, b, c);
    }
  }

  /** Of the UIDs below `n`, none above `top` is on the server. */
  ghost predicate Topped(s: Server, n: nat, top: nat) { forall u :: u in s.mail && u < n ==> u <= top }

  ghost function ToppedBy(n: nat, top: nat): Server -> bool { (s: Server) => Topped(s, n, top) }

  /** `keep`, restricted to the states after `w`. */
  lemma {:induction false} KeepsUpTo(keep: (World, nat) -> bool, w: World, base: nat, highest: nat, cursor: nat, n: nat)
    returns (from: (World, nat) -> bool)
    requires Keeps(keep, base, 0) && keep(w, cursor) && highest < w.server.next
    requires ToppedBy(n, highest)(w.server) && n <= w.server.next
    ensures Keeps(from, base, highest) && from(w, cursor)
    ensures forall b, c {:trigger from(b, c)} :: from(b, c) ==> keep(b, c) && ToppedBy(n, highest)(b.server)
  {
    from := (b: World, c: nat) => keep(b, c) && Forward(w, b);
    assert Sound(w, base, cursor) && Topped(w.server, n, highest);
    ServerStepStays(w.server);
    forall b, c, d {:trigger Ahead(b, c, base, d)} | keep(b, d) && Forward(w, b) && Ahead(b, c, base, d)
      ensures keep(c, d) && Forward(w, c)
    {
      ForwardTrans(w, b, c);
    }
    forall b, c | from(b, c) ensures keep(b, c) && ToppedBy(n, highest)(b.server) {
      assert Topped(b.server, n, highest);
    }
  }

  lemma {:induction false} EmptyWindow(rows: Rows, outbox: Outbox, lo: nat, hi: nat)
    requires hi < lo
    ensures WindowRows(rows, map[], outbox, lo, hi) == rows
  {
  }

  /** The wait for the highest UID on the server. */
  ghost predicate Found(others: Others, a: World, m: World, highest: Option<nat>) {
    ServerOk(m.server) && highest == Highest(m.server.mail, m.server.next - 1) && Waited(others, a, false)(m)
  }

  ghost function FoundFrom(others: Others, a: World, highest: Option<nat>): World -> bool {
    (m: World) => Found(others, a, m, highest)
  }

  lemma {:induction false} WaitFound(others: Others, a: World, m: World)
    requires Waited(others, a, false)(m) && ServerOk(m.server)
    ensures FoundFrom(others, a, Highest(m.server.mail, m.server.next - 1))(m)
  {
    assert Found(others, a, m, Highest(m.server.mail, m.server.next - 1));
  }

  /** A wait belongs to the walk after it. */
  lemma {:induction false} WaitWalked(kind: ProviderKind, others: Others, a: World, m: World, start: nat, n: nat,
                                      on: bool)
    requires Waited(others, a, false)(m) && start == n + 1
    ensures WalkedUpTo(a, map[], start, n, on, kind, others)(m)
  {
    WaitMoves(others, a, m, false);
    OnlyTheServer(others, a, m);
    EnvLeaves(a, m, others);
    EmptyWindow(a.rows, a.outbox, start, n);
    var nothing: map<nat, Flags> := map[];
    assert nothing.Keys == {} && Shows(m, nothing);
  }

  lemma {:induction false} WalkStarts(kind: ProviderKind, others: Others, a: World, m: World, start: nat, n: nat,
                                      highest: nat, on: bool)
    requires FoundFrom(others, a, Some(highest))(m) && start == n + 1
    ensures WalkedUpTo(a, map[], start, n, on, kind, others)(m)
    ensures ToppedBy(a.server.next, highest)(m.server) && a.server.next <= m.server.next
    ensures InroadsFrom(a, start, highest, on, others)(m)
  {
    assert Found(others, a, m, Some(highest));
    WaitMoves(others, a, m, false);
    WaitWalked(kind, others, a, m, start, n, on);
    InroadsWait(others, a, m, start, highest, on);
  }

  /** The stored cursor stands for `reached`; after a UIDVALIDITY change 0 stands for `prev`. */
  predicate StandsAt(cursor: nat, prev: nat, reached: nat) {
    cursor == reached || (cursor == 0 && reached == prev)
  }

  /** Everything new above `prev` has been walked, up to `top`. */
  ghost predicate WalkedNew(kind: ProviderKind, others: Others, notify: bool, a: World, prev: nat, b: World,
                            cursor: nat, fetched: map<nat, Flags>, top: nat) {
    && WalkedUpTo(a, fetched, prev + 1, top, Notifies(notify, prev), kind, others)(b) && prev <= top &&
      Topped(b.server, a.server.next, top)
    && StandsAt(cursor, prev, Reached(kind, b.rows.Keys, prev + 1, top))
  }

  ghost function WalkedNewFrom(kind: ProviderKind, others: Others, notify: bool, a: World, prev: nat, cursor: nat,
                               fetched: map<nat, Flags>, top: nat): World -> bool {
    (b: World) => WalkedNew(kind, others, notify, a, prev, b, cursor, fetched, top)
  }

  lemma {:induction false} AllWalked(kind: ProviderKind, others: Others, notify: bool, a: World, prev: nat,
                                     start: nat, top: nat, b: World, cursor: nat, fetched: map<nat, Flags>)
    requires WalkedUpTo(a, fetched, start, top, Notifies(notify, prev), kind, others)(b) &&
      ToppedBy(a.server.next, top)(b.server)
    requires start == prev + 1 && prev <= top && StandsAt(cursor, prev, Reached(kind, b.rows.Keys, start, top))
    ensures WalkedNewFrom(kind, others, notify, a, prev, cursor, fetched, top)(b)
  {
    assert Topped(b.server, a.server.next, top);
  }

  /** Nothing new was found. */
  lemma {:induction false} NothingNew(kind: ProviderKind, others: Others, notify: bool, a: World, prev: nat,
                                      highest: Option<nat>, b: World, cursor: nat, start: nat)
    requires FoundFrom(others, a, highest)(b) && (highest.Some? ==> highest.value <= prev)
    requires start == prev + 1 && (cursor == prev || cursor == 0)
    ensures WalkedNewFrom(kind, others, notify, a, prev, cursor, map[], prev)(b)
  {
    FoundNothing(others, a, b, highest, prev, a.server.next);
    WaitWalked(kind, others, a, b, start, prev, Notifies(notify, prev));
    assert Reached(kind, b.rows.Keys, start, prev) == prev;
    AllWalked(kind, others, notify, a, prev, start, prev, b, cursor, map[]);
  }

  lemma {:induction false} FoundNothing(others: Others, a: World, b: World, highest: Option<nat>, prev: nat, n: nat)
    requires FoundFrom(others, a, highest)(b) && (highest.Some? ==> highest.value <= prev)
    ensures Waited(others, a, false)(b) && ToppedBy(n, prev)(b.server)
  {
    assert Found(others, a, b, highest);
    assert Topped(b.server, n, prev);
  }

  /** What one sync learned from the server: the reconciliation's answers, the fetched
      messages, how far the reconciliation came and the highest UID looked for; with the
      states after the epoch was settled and after the reconciliation. */
  datatype Haul = Haul(settled: World, middle: World, answers: map<nat, Flags>, passed: nat, fetched: map<nat, Flags>,
                       highest: nat)

  /** The wait before the reconciliation: flags are as they were or edited. */
  ghost predicate Settled(others: Others, a: World, s: World) {
    && Moved(others, a.server)(s.server) && AmidFrom(a, a.rows)(s) && s.notified == a.notified
    && (!others.Everyone? ==> s == a.(server := s.server))
  }

  ghost function SettledFrom(others: Others, a: World): World -> bool { (s: World) => Settled(others, a, s) }

  lemma {:induction false} WaitSettles(others: Others, a: World, s: World)
    requires Waited(others, a, false)(s)
    ensures SettledFrom(others, a)(s)
  {
    assert Waits(others, a, s, false);
    forall key: Key | key.uid in a.rows ensures PassedAt(a, s, a.rows, key) {
      assert Untouched(a, s, key) || Edited(a, s, key, false);
    }
    assert PassedAmid(a, s, a.rows);
  }

  /** The state a UIDVALIDITY change leaves behind. */
  function Purged(a: World, changed: bool): World {
    if changed then a.(rows := map[], notified := [], hid := {}) else a
  }

  lemma {:induction false} PurgeSettles(others: Others, a: World, m: World, s: World)
    requires Waited(others, a, false)(m) && Waited(others, Purged(m, true), false)(s)
    ensures SettledFrom(others, Purged(a, true))(s)
  {
    assert Waits(others, a, m, false) && Waits(others, Purged(m, true), s, false);
    MovedTrans(others, a.server, m.server, s.server);
    assert PassedAmid(Purged(a, true), s, map[]);
  }

  /** The reconciliation up to `prev` and the walk above it. */
  ghost predicate SyncedThrough(kind: ProviderKind, others: Others, notify: bool, prev: nat, b: World, cursor: nat,
                                h: Haul) {
    && PassedFrom(h.settled, h.settled.outbox.Keys, h.answers, 1, prev, others)(h.middle)
    && WalkedNewFrom(kind, others, notify, h.middle, prev, cursor, h.fetched, h.highest)(b)
  }

  ghost function SyncedThroughTo(kind: ProviderKind, others: Others, notify: bool, prev: nat, cursor: nat,
                                 h: Haul): World -> bool {
    (b: World) => SyncedThrough(kind, others, notify, prev, b, cursor, h)
  }

  /** A whole sync from `a`. */
  ghost predicate Synced(kind: ProviderKind, others: Others, notify: bool, a: World, prev: nat, b: World, cursor: nat,
                         h: Haul) {
    && SettledFrom(others, a)(h.settled) && SyncedThroughTo(kind, others, notify, prev, cursor, h)(b)
    && Announced(a, b, h.fetched, Notifies(notify, prev))
  }

  ghost function SyncedFrom(kind: ProviderKind, others: Others, notify: bool, a: World, prev: nat, cursor: nat,
                            h: Haul): World -> bool {
    (b: World) => Synced(kind, others, notify, a, prev, b, cursor, h)
  }

  /** A sync wherever it was cut, once the epoch is settled: the reconciliation has come to
      `passed`, and the walk, if it was reached, has touched only what is above `prev`. */
  ghost predicate SyncingThrough(others: Others, notify: bool, prev: nat, b: World, h: Haul) {
    && PassedFrom(h.settled, h.settled.outbox.Keys, h.answers, 1, h.passed, others)(h.middle) && h.passed <= prev
    && InroadsFrom(h.middle, prev + 1, h.highest, Notifies(notify, prev), others)(b)
    && (h.passed < prev ==> b == h.middle)
  }

  ghost function SyncingThroughFrom(others: Others, notify: bool, prev: nat, h: Haul): World -> bool {
    (b: World) => SyncingThrough(others, notify, prev, b, h)
  }

  /** … from its start. */
  ghost predicate Syncing(others: Others, notify: bool, a: World, prev: nat, b: World, h: Haul) {
    && SettledFrom(others, a)(h.settled) && SyncingThroughFrom(others, notify, prev, h)(b)
    && NewsOnly(a, b, prev + 1, Notifies(notify, prev))
  }

  ghost function SyncingFrom(others: Others, notify: bool, a: World, prev: nat, h: Haul): World -> bool {
    (b: World) => Syncing(others, notify, a, prev, b, h)
  }

  lemma {:induction false} ThroughIsWhole(kind: ProviderKind, others: Others, notify: bool, prev: nat, b: World,
                                          cursor: nat, h: Haul)
    requires PassedFrom(h.settled, h.settled.outbox.Keys, h.answers, 1, h.passed, others)(h.middle) && h.passed == prev
    requires WalkedNewFrom(kind, others, notify, h.middle, prev, cursor, h.fetched, h.highest)(b)
    ensures SyncedThroughTo(kind, others, notify, prev, cursor, h)(b)
  {
    assert SyncedThrough(kind, others, notify, prev, b, cursor, h);
  }

  lemma {:induction false} ThroughIsCut(others: Others, notify: bool, prev: nat, b: World, h: Haul)
    requires PassedFrom(h.settled, h.settled.outbox.Keys, h.answers, 1, h.passed, others)(h.middle) && h.passed <= prev
    requires InroadsFrom(h.middle, prev + 1, h.highest, Notifies(notify, prev), others)(b)
    requires h.passed < prev ==> b == h.middle
    ensures SyncingThroughFrom(others, notify, prev, h)(b)
  {
    assert SyncingThrough(others, notify, prev, b, h);
  }

  lemma {:induction false} SyncIsWhole(kind: ProviderKind, others: Others, notify: bool, a: World, prev: nat, b: World,
                                       cursor: nat, h: Haul)
    requires SettledFrom(others, a)(h.settled) && SyncedThroughTo(kind, others, notify, prev, cursor, h)(b)
    ensures SyncedFrom(kind, others, notify, a, prev, cursor, h)(b)
  {
    SyncAnnounces(kind, others, notify, a, prev, b, cursor, h);
    assert Synced(kind, others, notify, a, prev, b, cursor, h);
  }

  lemma {:induction false} SyncIsOn(others: Others, notify: bool, a: World, prev: nat, b: World, h: Haul)
    requires SettledFrom(others, a)(h.settled) && SyncingThroughFrom(others, notify, prev, h)(b)
    ensures SyncingFrom(others, notify, a, prev, h)(b)
  {
    SyncingNews(others, notify, a, prev, b, h);
    assert Syncing(others, notify, a, prev, b, h);
  }

  lemma {:induction false} SyncIsCut(others: Others, notify: bool, a: World, prev: nat, b: World)
    requires SettledFrom(others, a)(b) && ServerOk(b.server)
    ensures SyncingFrom(others, notify, a, prev, Haul(b, b, map[], 0, map[], prev))(b)
  {
    PassStarts(b, b.outbox.Keys, others);
    InroadsNone(b, prev + 1, prev, Notifies(notify, prev), others);
    assert SyncingThrough(others, notify, prev, b, Haul(b, b, map[], 0, map[], prev));
    SyncIsOn(others, notify, a, prev, b, Haul(b, b, map[], 0, map[], prev));
  }

  lemma {:induction false} BeforeTheWalk(others: Others, a: World, s: World, m: World, answers: map<nat, Flags>,
                                         passed: nat)
    requires SettledFrom(others, a)(s) && PassedFrom(s, s.outbox.Keys, answers, 1, passed, others)(m)
    ensures m.rows.Keys == a.rows.Keys && m.notified == a.notified
  {
    assert Settled(others, a, s) && PassedAmid(a, s, a.rows);
    assert Passed(s, m, s.outbox.Keys, answers, 1, passed, others);
  }

  /** What a sync notifies about. */
  lemma {:induction false} SyncAnnounces(kind: ProviderKind, others: Others, notify: bool, a: World, prev: nat,
                                         b: World, cursor: nat, h: Haul)
    requires SettledFrom(others, a)(h.settled) && SyncedThroughTo(kind, others, notify, prev, cursor, h)(b)
    ensures Announced(a, b, h.fetched, Notifies(notify, prev))
  {
    assert SyncedThrough(kind, others, notify, prev, b, cursor, h);
    BeforeTheWalk(others, a, h.settled, h.middle, h.answers, prev);
    WalkAnnounces(kind, others, notify, h.middle, prev, b, cursor, h.fetched, h.highest);
    SameNews(a, h.middle, b, h.fetched, Notifies(notify, prev));
  }

  lemma {:induction false} SameNews(a: World, m: World, b: World, fetched: map<nat, Flags>, on: bool)
    requires Announced(m, b, fetched, on) && m.notified == a.notified && m.rows.Keys == a.rows.Keys
    ensures Announced(a, b, fetched, on)
  {
    assert News(a.rows, fetched, on) == News(m.rows, fetched, on);
  }

  lemma {:induction false} WalkAnnounces(kind: ProviderKind, others: Others, notify: bool, a: World, prev: nat,
                                         b: World, cursor: nat, fetched: map<nat, Flags>, top: nat)
    requires WalkedNewFrom(kind, others, notify, a, prev, cursor, fetched, top)(b)
    ensures Announced(a, b, fetched, Notifies(notify, prev))
  {
    assert WalkedNew(kind, others, notify, a, prev, b, cursor, fetched, top);
    assert WalkedTo(a, b, fetched, prev + 1, top, Notifies(notify, prev), kind, others);
  }

  /** … and what it may have notified about when cut. */
  lemma {:induction false} SyncingNews(others: Others, notify: bool, a: World, prev: nat, b: World, h: Haul)
    requires SettledFrom(others, a)(h.settled) && SyncingThroughFrom(others, notify, prev, h)(b)
    ensures NewsOnly(a, b, prev + 1, Notifies(notify, prev))
  {
    assert SyncingThrough(others, notify, prev, b, h);
    BeforeTheWalk(others, a, h.settled, h.middle, h.answers, h.passed);
    assert Inroads(h.middle, b, prev + 1, h.highest, Notifies(notify, prev), others);
  }

  /** The first backfill notifies nobody, wherever it is cut. */
  lemma {:induction false} BackfillIsQuiet(others: Others, notify: bool, a: World, b: World, h: Haul)
    requires SyncingFrom(others, notify, a, 0, h)(b)
    ensures b.notified == a.notified
  {
    assert Syncing(others, notify, a, 0, b, h);
  }

  // ---- how many awaits there are -----------------------------------------

  /** Two for each entry to push. */
  ghost function FlushAwaits(outbox: Outbox): nat { 2 * |outbox.Keys| }

  /** Three for each chunk, and at most `upTo` chunks. */
  ghost function ReconcileAwaits(upTo: nat): nat { 3 * upTo }

  /** To store `n` messages: to see which are known, to write them, to restore two flags. */
  ghost function PersistAwaits(n: nat): nat { 3 + n }

  ghost function StoreAwaits(n: nat): nat { n + 2 }

  /** … and to notify about them. */
  ghost function ImportAwaits(n: nat): nat { 3 + 2 * n }

  /** To fetch a window and import it. */
  ghost function ChunkAwaits(lo: nat, hi: nat): nat { if hi < lo then 0 else 4 + 2 * (hi + 1 - lo) }

  /** … and to move the cursor, in any number of windows. */
  ghost function WalkAwaits(lo: nat, hi: nat): nat { if hi < lo then 0 else 7 * (hi + 1 - lo) }

  /** To find the highest UID and walk there. */
  ghost function NewAwaits(prev: nat, top: nat): nat { 1 + WalkAwaits(prev + 1, top) }

  ghost function SettledAwaits(prev: nat, top: nat): nat { ReconcileAwaits(prev) + NewAwaits(prev, top) }

  /** A whole sync: two to settle the epoch first. */
  ghost function SyncAwaits(prev: nat, top: nat): nat { 2 + SettledAwaits(prev, top) }

  /** A cycle, whatever mail arrives. */
  ghost function CycleAwaits(outbox: Outbox): nat { FlushAwaits(outbox) + 3 + 7 * U32_LIMIT }

  lemma {:induction false} SyncIsBounded(prev: nat, top: nat)
    requires prev <= top < U32_LIMIT
    ensures SyncAwaits(prev, top) <= 3 + 7 * U32_LIMIT
  {
  }

  // ---- when at most mail comes and goes -----------------------------------

  /** What the server told a sync between `a` and `b`: of the messages still there it has
      all up to the highest UID, which none of those that were there at the start exceeds. */
  ghost predicate Heard(a: Server, b: Server, prev: nat, h: Haul) {
    && Moved(MailOnly, a)(b) && prev <= h.highest && Topped(b, a.next, h.highest)
    && Told(a, b, h.answers, 1, prev) && InFull(a, b, h.answers, 1, prev)
    && Told(a, b, h.fetched, prev + 1, h.highest)
    && (forall u :: u in b.mail && prev < u <= h.highest ==> u in h.fetched)
  }

  /** A whole sync in which at most mail came and went, from `a`. */
  ghost predicate SyncedTo(kind: ProviderKind, a: World, prev: nat, b: World, cursor: nat, h: Haul) {
    && Heard(a.server, b.server, prev, h) && b.outbox == a.outbox
    && b.rows == WindowRows(NaivePass(a.rows, a.outbox.Keys, h.answers, 1, prev), h.fetched, a.outbox,
                            prev + 1, h.highest)
    && StandsAt(cursor, prev, Reached(kind, b.rows.Keys, prev + 1, h.highest))
  }

  lemma {:induction false} SyncedAlone(kind: ProviderKind, notify: bool, a: World, prev: nat, b: World, cursor: nat,
                                       h: Haul)
    requires SyncedFrom(kind, MailOnly, notify, a, prev, cursor, h)(b)
    ensures SyncedTo(kind, a, prev, b, cursor, h)
  {
    assert Synced(kind, MailOnly, notify, a, prev, b, cursor, h);
    assert SyncedThrough(kind, MailOnly, notify, prev, b, cursor, h);
    PassedAlone(h.settled, h.middle, h.answers, prev);
    WalkedAlone(kind, notify, h.middle, prev, b, cursor, h.fetched, h.highest);
    assert Settled(MailOnly, a, h.settled);
    HeardAll(a.server, h.settled.server, h.middle.server, b.server, prev, h);
  }

  lemma {:induction false} PassedAlone(a: World, b: World, answers: map<nat, Flags>, prev: nat)
    requires PassedFrom(a, a.outbox.Keys, answers, 1, prev, MailOnly)(b)
    ensures b == a.(server := b.server, rows := NaivePass(a.rows, a.outbox.Keys, answers, 1, prev))
    ensures Moved(MailOnly, a.server)(b.server)
    ensures Told(a.server, b.server, answers, 1, prev) && InFull(a.server, b.server, answers, 1, prev)
  {
    assert Passed(a, b, a.outbox.Keys, answers, 1, prev, MailOnly);
  }

  lemma {:induction false} WalkedAlone(kind: ProviderKind, notify: bool, a: World, prev: nat, b: World, cursor: nat,
                                       fetched: map<nat, Flags>, top: nat)
    requires WalkedNewFrom(kind, MailOnly, notify, a, prev, cursor, fetched, top)(b)
    ensures b.outbox == a.outbox && b.rows == WindowRows(a.rows, fetched, a.outbox, prev + 1, top)
    ensures Moved(MailOnly, a.server)(b.server) && prev <= top && Topped(b.server, a.server.next, top)
    ensures Told(a.server, b.server, fetched, prev + 1, top) && Complete(b.server, fetched, prev + 1, top)
    ensures StandsAt(cursor, prev, Reached(kind, b.rows.Keys, prev + 1, top))
  {
    assert WalkedNew(kind, MailOnly, notify, a, prev, b, cursor, fetched, top);
    assert WalkedTo(a, b, fetched, prev + 1, top, Notifies(notify, prev), kind, MailOnly);
    assert Leaves(a, b, fetched.Keys, MailOnly);
  }

  lemma {:induction false} HeardAll(a: Server, s: Server, m: Server, b: Server, prev: nat, h: Haul)
    requires Moved(MailOnly, a)(s) && Moved(MailOnly, s)(m) && Moved(MailOnly, m)(b)
    requires Told(s, m, h.answers, 1, prev) && InFull(s, m, h.answers, 1, prev)
    requires Told(m, b, h.fetched, prev + 1, h.highest) && Complete(b, h.fetched, prev + 1, h.highest)
    requires prev <= h.highest && Topped(b, m.next, h.highest)
    ensures Heard(a, b, prev, h)
  {
    MovedTrans(MailOnly, a, s, m);
    MovedTrans(MailOnly, a, m, b);
    assert ServerStep(a, s) && ServerStep(s, m) && ServerStep(a, m) && ServerStep(m, b);
    ToldLater(a, s, m, h.answers, 1, prev);
    ToldLater(a, m, b, h.answers, 1, prev);
    ToldLater(a, m, b, h.fetched, prev + 1, h.highest);
  }

  /** A completed flush in which at most mail came and went. */
  ghost predicate FlushedTo(a: World, b: World, willing: bool) {
    && b == a.(server := b.server, outbox := b.outbox)
    && PushesOnly(a.server, b.server, a.outbox)
    && Flushed(a.outbox, b.outbox, {}) && Took(b.server.mail, a.outbox, b.outbox, willing, a.server.next)
    && (willing ==> b.outbox == map[])
  }

  lemma {:induction false} FlushedAlone(willing: bool, a: World, b: World)
    requires FlushingFrom(MailOnly, willing, a, {})(b)
    ensures FlushedTo(a, b, willing)
  {
    assert Flushing(MailOnly, willing, a, b, {});
  }

  lemma {:induction false} StartsForward(a: World)
    requires Safe(a)
    ensures ForwardFrom(a)(a)
  {
    ServerStepStays(a.server);
  }

  /** `ServerOk`, as a test. */
  predicate ValidServer(s: Server)
    ensures ValidServer(s) <==> ServerOk(s)
  {
    && 1 <= s.next <= U32_LIMIT && (forall u | u in s.mail.Keys :: 1 <= u < s.next)
    && forall x | x in s.until.Keys :: x.epoch <= s.epoch && s.until[x] < s.clock
  }
}
