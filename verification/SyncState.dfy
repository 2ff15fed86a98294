/** The statements a folder sync commits, the properties it keeps, and why each
    statement keeps them. */
module SyncState {
  import opened Basics
  import opened Mailbox
  import opened FlagReconcile
  import opened UidWalk

  datatype ProviderKind = Imap | GmailImap | GmailApi | OutlookApi

  predicate SyncsOverImap(kind: ProviderKind) { kind.Imap? || kind.GmailImap? }

  function ChunkSize(kind: ProviderKind): (n: u32) { if kind.GmailApi? then 200 else 500 }

  const FLAG_CHUNK: u32 := 1000
  const WRITE_BATCH_SIZE: nat := 100

  // ---- single statements -------------------------------------------------

  /** `INSERT … ON CONFLICT DO UPDATE` of one fetched message. */
  function Upsert(rows: Rows, uid: nat, f: Flags): Rows {
    rows[uid := f.(deleted := f.deleted || (uid in rows && rows[uid].deleted))]
  }

  /** `RESTORE_SEEN` / `RESTORE_FLAGGED`. */
  function Reapply(rows: Rows, outbox: Outbox, flag: Flag, lo: nat, hi: nat): Rows {
    map u | u in rows ::
      if lo <= u <= hi && Key(u, flag) in outbox then Put(rows[u], flag, outbox[Key(u, flag)].value) else rows[u]
  }

  /** The highest UID up to `n`, if any. */
  function Highest(mail: map<nat, Flags>, n: nat): (r: Option<nat>)
    ensures r.Some? ==> 1 <= r.value <= n && r.value in mail
    ensures forall u :: u in mail && 1 <= u <= n ==> r.Some? && u <= r.value
  {
    if n == 0 then None else if n in mail then Some(n) else Highest(mail, n - 1)
  }

  function StoredUids(rows: Rows, lo: nat, hi: nat): (s: seq<nat>)
    ensures ListsWindow(s, rows.Keys, lo, hi)
    decreases hi + 1 - lo
  {
    if lo > hi then []
    else
      var rest := StoredUids(rows, lo + 1, hi);
      assert forall i :: 0 <= i < |rest| ==> rest[i] in rest;
      if lo in rows then [lo] + rest else rest
  }

  /** What one flush makes of an entry, given the server's answer. */
  function Pushed(op: Op, accepted: bool): (r: Option<Op>) {
    if accepted || op.attempts + 1 >= MAX_FLAG_PUSH_ATTEMPTS then None
    else Some(op.(attempts := op.attempts + 1))
  }

  /** A walk takes 200 UIDs at a time from the Gmail API and 500 from others. */
  lemma {:induction false} WalkWindow(kind: ProviderKind, start: u32, highest: u32, i: nat)
    requires i < |Windows(start, ChunkSize(kind), highest)|
    ensures var (lo, hi) := Windows(start, ChunkSize(kind), highest)[i];
            if kind == GmailApi then lo == start + 200 * i && (hi == lo + 199 < highest || (hi == highest <= lo + 199))
            else lo == start + 500 * i && (hi == lo + 499 < highest || (hi == highest <= lo + 499))
  {
    WindowIs(start, ChunkSize(kind), highest, i);
    OffsetIs(i);
  }

  /** The reconciliation takes a thousand. */
  lemma {:induction false} ReconcileWindow(upTo: u32, i: nat)
    requires i < |Windows(1, FLAG_CHUNK, upTo)|
    ensures var (lo, hi) := Windows(1, FLAG_CHUNK, upTo)[i];
            lo == 1000 * i + 1 && (hi == lo + 999 < upTo || (hi == upTo <= lo + 999))
  {
    WindowIs(1, FLAG_CHUNK, upTo, i);
    OffsetIs(i);
  }

  /** `n` messages take `k` batches. */
  ghost predicate Hundreds(n: int, k: int) { n <= 100 * k < n + 100 }

  // ---- what is kept ------------------------------------------------------

  /** Every server message with a UID in `lo..=hi` has a local row. */
  ghost predicate Covered(mail: map<nat, Flags>, rows: Rows, lo: nat, hi: nat) {
    forall u :: u in mail && lo <= u <= hi ==> u in rows
  }

  /** Rows in `lo..=hi` hold the value of their pending edits, `except` apart. */
  ghost predicate Held(rows: Rows, outbox: Outbox, except: set<Key>, lo: nat, hi: nat) {
    forall key: Key :: key in outbox && key.uid in rows && lo <= key.uid <= hi && key !in except ==>
      Get(rows[key.uid], key.flag) == outbox[key].value
  }

  /** Rows in `lo..=hi` hold the server's flags wherever no edit is pending. */
  ghost predicate Mirrors(rows: Rows, mail: map<nat, Flags>, outbox: Outbox, lo: nat, hi: nat) {
    forall u, flag: Flag :: u in mail && lo <= u <= hi && Key(u, flag) !in outbox ==>
      u in rows && Get(rows[u], flag) == Get(mail[u], flag)
  }

  /** No notification was sent twice or without a committed row. */
  ghost predicate Once(notified: seq<nat>, rows: Rows) {
    && (forall i :: 0 <= i < |notified| ==> notified[i] in rows)
    && (forall i, j :: 0 <= i < j < |notified| ==> notified[i] != notified[j])
  }

  ghost predicate Budget(outbox: Outbox) {
    forall key :: key in outbox ==> outbox[key].attempts < MAX_FLAG_PUSH_ATTEMPTS
  }

  /** Rows are only added, and a hidden row stays hidden. */
  ghost predicate Grows(a: Rows, b: Rows) {
    a.Keys <= b.Keys && forall u :: u in a && a[u].deleted ==> b[u].deleted
  }

  /** A row's flag is one the server showed for its UID, or one the user chose. */
  ghost predicate FlagGrounded(rows: Rows, server: Server, chosen: set<Choice>, key: Key)
    requires key.uid in rows
  {
    || Choice(key, Get(rows[key.uid], key.flag)) in chosen
    || exists f :: Shown(server, key.uid, f) && Get(f, key.flag) == Get(rows[key.uid], key.flag)
  }

  ghost predicate Grounded(rows: Rows, server: Server, chosen: set<Choice>) {
    forall key: Key :: key.uid in rows ==> FlagGrounded(rows, server, chosen, key)
  }

  ghost predicate WasDeleted(s: Server, u: nat) { exists f :: Shown(s, u, f) && f.deleted }

  /** No row is hidden unless the user hid it, the server marked the message deleted, or
      the server no longer has it. */
  ghost predicate Excused(rows: Rows, server: Server, hid: set<nat>) {
    forall u :: u in rows && rows[u].deleted ==> u in hid || u !in server.mail || WasDeleted(server, u)
  }

  /** No row is hidden without excuse and no flag is invented. */
  ghost predicate Justified(w: World) {
    Excused(w.rows, w.server, w.hid) && Grounded(w.rows, w.server, w.chosen)
  }

  /** Queued values are the user's. */
  ghost predicate Queued(outbox: Outbox, chosen: set<Choice>) {
    forall key :: key in outbox ==> Choice(key, outbox[key].value) in chosen
  }

  /** Up to the cursor, every server message from `base` on has a row and pending
      edits are held; no flag is invented and no row is hidden without excuse. `base` is where this epoch's
      walk began: 1, unless UIDVALIDITY changed. */
  ghost predicate Sound(e: World, base: nat, cursor: nat) {
    && 1 <= base && (cursor == 0 || base <= cursor + 1) && cursor < e.server.next
    && (forall u :: u in e.rows ==> base <= u < e.server.next)
    && Covered(e.server.mail, e.rows, base, cursor)
    && Held(e.rows, e.outbox, e.raced, 1, cursor)
    && Grounded(e.rows, e.server, e.chosen) && Excused(e.rows, e.server, e.hid)
  }

  /** The server's side of a push; a push for a missing UID is accepted and ignored. */
  function ServerPush(server: Server, key: Key, value: bool, accepted: bool): Server {
    if accepted && key.uid in server.mail
    then Reshow(server, key.uid, Put(server.mail[key.uid], key.flag, value)) else server
  }

  /** The outbox after the answer to a push: the entry is dropped, or its attempts
      are set, counting from the entry as it was read. */
  function Settle(outbox: Outbox, key: Key, op: Op, accepted: bool): Outbox {
    if Pushed(op, accepted).None? then outbox - {key}
    else if key in outbox then outbox[key := outbox[key].(attempts := op.attempts + 1)]
    else outbox
  }

  lemma {:induction false} ShownStays(a: Server, b: Server, u: nat, f: Flags)
    requires ServerStep(a, b) && Shown(a, u, f)
    ensures Shown(b, u, f)
  {
  }

  lemma {:induction false} FlagStaysGrounded(a: Rows, b: Rows, s: Server, t: Server, c: set<Choice>, d: set<Choice>,
                                             key: Key)
    requires ServerStep(s, t) && c <= d && key.uid in a && key.uid in b && FlagGrounded(a, s, c, key)
    requires Get(a[key.uid], key.flag) == Get(b[key.uid], key.flag)
    ensures FlagGrounded(b, t, d, key)
  {
    if Choice(key, Get(a[key.uid], key.flag)) !in c {
      var f :| Shown(s, key.uid, f) && Get(f, key.flag) == Get(a[key.uid], key.flag);
      ShownStays(s, t, key.uid, f);
    }
  }

  lemma {:induction false} StaysExcused(a: Server, b: Server, u: nat)
    requires ServerStep(a, b) && u < a.next && (u !in a.mail || WasDeleted(a, u))
    ensures u !in b.mail || WasDeleted(b, u)
  {
    if WasDeleted(a, u) {
      var f :| Shown(a, u, f) && f.deleted;
      ShownStays(a, b, u, f);
    }
  }

  /** When only the server moves. */
  lemma {:induction false} ServerIsAhead(e: World, s: Server, base: nat, cursor: nat)
    requires Safe(e) && ServerOk(s) && ServerStep(e.server, s)
    ensures Kept(e, e.(server := s), base, cursor)
  {
    if Sound(e, base, cursor) {
      forall key: Key | key.uid in e.rows ensures FlagGrounded(e.rows, s, e.chosen, key) {
        FlagStaysGrounded(e.rows, e.rows, e.server, s, e.chosen, e.chosen, key);
      }
      forall u | u in e.rows && e.rows[u].deleted ensures u in e.hid || u !in s.mail || WasDeleted(s, u) {
        if u !in e.hid { StaysExcused(e.server, s, u); }
      }
    }
  }

  lemma {:induction false} ServerPushStep(s: Server, key: Key, value: bool, accepted: bool)
    requires ServerOk(s)
    ensures ServerOk(ServerPush(s, key, value, accepted)) && ServerStep(s, ServerPush(s, key, value, accepted))
  {
    if accepted && key.uid in s.mail { ReshowStep(s, key.uid, Put(s.mail[key.uid], key.flag, value)); }
  }

  lemma {:induction false} PushIsKept(e: World, base: nat, cursor: nat, key: Key, op: Op, accepted: bool)
    requires Safe(e)
    ensures Kept(e, e.(server := ServerPush(e.server, key, op.value, accepted)), base, cursor)
  {
    ServerPushStep(e.server, key, op.value, accepted);
    ServerIsAhead(e, ServerPush(e.server, key, op.value, accepted), base, cursor);
  }

  lemma {:induction false} SettleIsKept(e: World, base: nat, cursor: nat, key: Key, op: Op, accepted: bool)
    requires Safe(e)
    ensures Kept(e, e.(outbox := Settle(e.outbox, key, op, accepted)), base, cursor)
  {
  }

  /** `rows` may take the place of the rows of `e`. */
  lemma {:induction false} RowsAhead(e: World, rows: Rows, base: nat, cursor: nat)
    requires Safe(e) && Grows(e.rows, rows)
    requires forall u :: u in rows ==> 1 <= u
    requires Sound(e, base, cursor) ==>
               && (forall u :: u in rows ==> base <= u < e.server.next)
               && Held(rows, e.outbox, e.raced, 1, cursor)
               && Grounded(rows, e.server, e.chosen) && Excused(rows, e.server, e.hid)
    ensures Ahead(e, e.(rows := rows), base, cursor)
  {
  }

  ghost predicate Safe(e: World) {
    && ServerOk(e.server) && Once(e.notified, e.rows) && Budget(e.outbox)
    && (forall u :: u in e.rows ==> 1 <= u)
    && Queued(e.outbox, e.chosen)
  }

  /** Time passes: nothing stored is lost, UIDs already passed are not reused, and
      history only grows. */
  ghost predicate Forward(a: World, b: World) {
    && Safe(b) && Grows(a.rows, b.rows) && ServerStep(a.server, b.server)
    && a.hid <= b.hid && a.chosen <= b.chosen && forall key: Key :: Edits(a, key) <= Edits(b, key)
  }

  /** What holds at every committed state of a folder. */
  ghost function Committed(epoch: Option<nat>, base: nat, cursor: nat): World -> bool {
    (w: World) =>
      && Safe(w)
      && (epoch.None? ==> cursor == 0 && w.rows.Keys == {})
      && (epoch.Some? ==> epoch.value <= w.server.epoch)
      && (epoch == Some(w.server.epoch) ==> Sound(w, base, cursor))
  }

  /** What every wait and every commit keeps. */
  ghost predicate Ahead(a: World, b: World, base: nat, cursor: nat) {
    Forward(a, b) && (Sound(a, base, cursor) ==> Sound(b, base, cursor))
  }

  lemma {:induction false} AheadTrans(a: World, b: World, c: World, base: nat, cursor: nat)
    requires Ahead(a, b, base, cursor) && Ahead(b, c, base, cursor)
    ensures Ahead(a, c, base, cursor)
  {
    ForwardTrans(a, b, c);
  }

  lemma {:induction false} ForwardTrans(a: World, b: World, c: World)
    requires Forward(a, b) && Forward(b, c)
    ensures Forward(a, c)
  {
    ServerStepTrans(a.server, b.server, c.server);
  }

  ghost function ForwardFrom(a: World): World -> bool { (b: World) => Forward(a, b) }

  lemma {:induction false} ForwardJoin(a: World, b: World, c: World)
    requires ForwardFrom(a)(b) && ForwardFrom(b)(c)
    ensures ForwardFrom(a)(c)
  {
    assert Forward(a, b) && Forward(b, c);
    ForwardTrans(a, b, c);
  }

  lemma {:induction false} ServerStepStays(s: Server)
    requires ServerOk(s)
    ensures ServerStep(s, s) && Calm(s, s)
  {
  }

  /** `inv` stands for any property that waits and commits keep. */
  ghost predicate Stable(inv: World -> bool, base: nat, cursor: nat) {
    && (forall a {:trigger Safe(a)} :: inv(a) ==> Safe(a))
    && (forall a, b {:trigger Ahead(a, b, base, cursor)} :: inv(a) && Ahead(a, b, base, cursor) ==> inv(b))
  }

  /** … and that implies soundness, as long as the cursor stays. */
  ghost predicate SoundBy(inv: World -> bool, base: nat, cursor: nat) {
    forall a {:trigger inv(a)} :: inv(a) ==> Sound(a, base, cursor)
  }

  lemma {:induction false} StableIsSafe(inv: World -> bool, a: World, base: nat, cursor: nat)
    requires Stable(inv, base, cursor) && inv(a)
    ensures Safe(a)
  {
  }

  /** Being ahead of a safe state is such a property. */
  ghost function AheadOf(a: World, base: nat, cursor: nat): World -> bool { (b: World) => Ahead(a, b, base, cursor) }

  lemma {:induction false} AheadIsStable(a: World, base: nat, cursor: nat)
    requires Safe(a)
    ensures Stable(AheadOf(a, base, cursor), base, cursor) && AheadOf(a, base, cursor)(a)
  {
    ServerStepStays(a.server);
    forall b, c | Ahead(a, b, base, cursor) && Ahead(b, c, base, cursor) ensures Ahead(a, c, base, cursor) {
      AheadTrans(a, b, c, base, cursor);
    }
  }

  lemma {:induction false} IsAhead(a: World, b: World, base: nat, cursor: nat)
    requires AheadOf(a, base, cursor)(b)
    ensures ForwardFrom(a)(b) && Safe(b) && (Sound(a, base, cursor) ==> Sound(b, base, cursor))
  {
    assert Ahead(a, b, base, cursor);
  }

  lemma {:induction false} InvIsSafe(epoch: Option<nat>, base: nat, cursor: nat, w: World)
    requires Committed(epoch, base, cursor)(w)
    ensures Safe(w) && (epoch == Some(w.server.epoch) ==> Justified(w))
  {
  }

  lemma {:induction false} CommittedStays(epoch: Option<nat>, base: nat, cursor: nat, a: World, b: World)
    requires Committed(epoch, base, cursor)(a) && AheadOf(a, base, cursor)(b) && b.rows.Keys == a.rows.Keys
    ensures Committed(epoch, base, cursor)(b) && b.server.epoch == a.server.epoch
  {
    IsAhead(a, b, base, cursor);
  }

  /** Where nothing is stored, an epoch may begin anywhere; at cursor 0, it may begin at 1. */
  lemma {:induction false} EpochBegins(w: World, base: nat, start: nat)
    requires Safe(w) && 1 <= start
    requires w.rows.Keys == {} || (Sound(w, base, 0) && start == 1)
    ensures Committed(Some(w.server.epoch), start, 0)(w)
  {
    assert Sound(w, start, 0);
  }

  /** A property, from a state on. */
  ghost function Since(inv: World -> bool, a: World, base: nat, cursor: nat): World -> bool {
    (b: World) => inv(b) && Ahead(a, b, base, cursor)
  }

  lemma {:induction false} NowIsStable(inv: World -> bool, a: World, base: nat, cursor: nat)
    requires Stable(inv, base, cursor) && inv(a)
    ensures Stable(Since(inv, a, base, cursor), base, cursor) && Since(inv, a, base, cursor)(a)
  {
    AheadIsStable(a, base, cursor);
    assert Ahead(a, a, base, cursor);
    forall b, c | Ahead(a, b, base, cursor) && Ahead(b, c, base, cursor) ensures Ahead(a, c, base, cursor) {
      AheadTrans(a, b, c, base, cursor);
    }
  }

  lemma {:induction false} ItWas(inv: World -> bool, a: World, b: World, base: nat, cursor: nat)
    requires Since(inv, a, base, cursor)(b)
    ensures inv(b) && Ahead(a, b, base, cursor)
  {
  }

  /** … and what all of them except imports and notifications keep. */
  ghost predicate Kept(a: World, b: World, base: nat, cursor: nat) {
    Ahead(a, b, base, cursor) && a.rows.Keys == b.rows.Keys && a.notified == b.notified
  }

  lemma {:induction false} WaitIsKept(others: Others, a: World, b: World, racing: bool, base: nat, cursor: nat)
    requires Safe(a) && Waited(others, a, racing)(b)
    ensures Kept(a, b, base, cursor)
  {
    WaitMoves(others, a, b, racing);
    EnvKeepsHeld(a, b, racing, 1, cursor);
    EnvKeepsBudget(a, b, racing);
    EnvKeepsQueued(a, b, racing);
    if Sound(a, base, cursor) {
      EnvKeepsGround(a, b, racing);
      EnvKeepsExcuses(a, b, racing);
    }
    forall key: Key ensures Edits(a, key) <= Edits(b, key) {
      if key.uid in a.rows { assert Untouched(a, b, key) || Edited(a, b, key, racing); }
    }
  }

  lemma {:induction false} EnvKeepsGround(a: World, b: World, racing: bool)
    requires EnvStep(a, b, racing) && Grounded(a.rows, a.server, a.chosen)
    ensures Grounded(b.rows, b.server, b.chosen)
  {
    forall key: Key | key.uid in b.rows ensures FlagGrounded(b.rows, b.server, b.chosen, key) {
      assert Untouched(a, b, key) || Edited(a, b, key, racing);
      if Untouched(a, b, key) { FlagStaysGrounded(a.rows, b.rows, a.server, b.server, a.chosen, b.chosen, key); }
    }
  }

  lemma {:induction false} EnvKeepsQueued(a: World, b: World, racing: bool)
    requires EnvStep(a, b, racing) && Queued(a.outbox, a.chosen)
    ensures Queued(b.outbox, b.chosen)
  {
    forall key | key in b.outbox ensures Choice(key, b.outbox[key].value) in b.chosen {
      if key.uid in a.rows { assert Untouched(a, b, key) || Edited(a, b, key, racing); }
    }
  }

  lemma {:induction false} EnvKeepsExcuses(a: World, b: World, racing: bool)
    requires EnvStep(a, b, racing) && Excused(a.rows, a.server, a.hid) && forall u :: u in a.rows ==> u < a.server.next
    ensures Excused(b.rows, b.server, b.hid)
  {
    forall u | u in b.rows && b.rows[u].deleted ensures u in b.hid || u !in b.server.mail || WasDeleted(b.server, u) {
      if u !in b.hid { StaysExcused(a.server, b.server, u); }
    }
  }

  lemma {:induction false} EnvKeepsHeld(a: World, b: World, racing: bool, lo: nat, hi: nat)
    requires EnvStep(a, b, racing)
    ensures Held(a.rows, a.outbox, a.raced, lo, hi) ==> Held(b.rows, b.outbox, b.raced, lo, hi)
    ensures !racing && Held(a.rows, a.outbox, {}, lo, hi) ==> Held(b.rows, b.outbox, {}, lo, hi)
  {
    forall key: Key | key in b.outbox && key.uid in b.rows && key.uid in a.rows
      ensures Untouched(a, b, key) || Edited(a, b, key, racing)
    {
    }
  }

  lemma {:induction false} EnvKeepsBudget(a: World, b: World, racing: bool)
    requires EnvStep(a, b, racing) && Budget(a.outbox)
    ensures Budget(b.outbox)
  {
    forall key | key in b.outbox ensures b.outbox[key].attempts < MAX_FLAG_PUSH_ATTEMPTS {
      if key.uid in a.rows { assert Untouched(a, b, key) || Edited(a, b, key, racing); }
    }
  }
}
