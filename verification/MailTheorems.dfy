/** What the folder sync achieves, read off the states its methods promise: coverage,
    convergence, and where the code as written falls short. */
module MailTheorems {
  import opened Basics
  import opened Mailbox
  import opened FlagReconcile
  import opened UidWalk
  import opened SyncState
  import opened FlagSync
  import opened MailWalk

  /** At every committed state of every run: the cursor vouches for everything below
      it if and only if it is unset or the server has nothing below the first UID
      this epoch's walk looked at. Without a UIDVALIDITY change that UID is 1. */
  lemma {:induction false} CoverageExact(e: World, base: nat, cursor: nat)
    requires Safe(e) && Sound(e, base, cursor)
    ensures Covered(e.server.mail, e.rows, 1, cursor) <==>
              (cursor == 0 || forall u :: u in e.server.mail ==> base <= u)
    ensures base == 1 ==> Covered(e.server.mail, e.rows, 0, cursor)
  {
    if cursor != 0 && Covered(e.server.mail, e.rows, 1, cursor) {
      forall u | u in e.server.mail ensures base <= u {
        if u <= cursor { assert u in e.rows; }
      }
    }
  }

  /** After a UIDVALIDITY change the walk of the same call still starts above the old
      cursor: as soon as it stores anything, every message up to the old cursor is
      skipped, and the stored cursor claims it was seen. */
  lemma {:induction false} EpochChangeSkips(kind: ProviderKind, a: World, prev: nat, b: World, cursor: nat, h: Haul)
    requires (kind == Imap || kind == GmailImap) && ServerOk(b.server) && prev < h.highest
    requires SyncedTo(kind, Purged(a, true), prev, b, cursor, h)
    ensures cursor == h.highest
    ensures forall u :: u in b.server.mail && u <= prev ==> u !in b.rows && u < cursor
    ensures Covered(b.server.mail, b.rows, 1, cursor) <==>
              forall u :: u in b.server.mail && u <= cursor ==> prev < u
  {
    assert NaivePass(map[], a.outbox.Keys, h.answers, 1, prev) == map[];
    assert b.rows.Keys == h.fetched.Keys;
  }

  /** One message that is still on the server after a completed sync. */
  lemma {:induction false} ConvergedRow(kind: ProviderKind, a: World, prev: nat, b: World, cursor: nat, h: Haul, u: nat)
    requires SyncedTo(kind, a, prev, b, cursor, h) && u in b.server.mail && 1 <= u <= h.highest
    requires u <= prev ==> u in a.rows && u < a.server.next
    ensures u in b.rows
    ensures b.rows[u].deleted <==> b.server.mail[u].deleted || (u in a.rows && a.rows[u].deleted)
    ensures forall flag: Flag :: Key(u, flag) !in b.outbox ==> Get(b.rows[u], flag) == Get(b.server.mail[u], flag)
  {
    CalmAnswers(a.server, b.server, h.answers, 1, prev);
    CalmAnswers(a.server, b.server, h.fetched, prev + 1, h.highest);
    if u <= prev {
      KnownRow(a.rows, a.outbox, h, prev, u);
    } else {
      NewRow(a.rows, a.outbox, h, prev, u);
    }
  }

  function Result(rows: Rows, outbox: Outbox, h: Haul, prev: nat): Rows {
    WindowRows(NaivePass(rows, outbox.Keys, h.answers, 1, prev), h.fetched, outbox, prev + 1, h.highest)
  }

  lemma {:induction false} KnownRow(rows: Rows, outbox: Outbox, h: Haul, prev: nat, u: nat)
    requires 1 <= u <= prev && u in rows && u in h.answers && u !in h.fetched
    ensures var r := Result(rows, outbox, h, prev);
            && u in r && (r[u].deleted <==> h.answers[u].deleted || rows[u].deleted)
            && forall flag: Flag :: Key(u, flag) !in outbox ==> Get(r[u], flag) == Get(h.answers[u], flag)
  {
  }

  lemma {:induction false} NewRow(rows: Rows, outbox: Outbox, h: Haul, prev: nat, u: nat)
    requires prev < u <= h.highest && u in h.fetched
    ensures var r := Result(rows, outbox, h, prev);
            && u in r && (r[u].deleted <==> h.fetched[u].deleted || (u in rows && rows[u].deleted))
            && forall flag: Flag :: Key(u, flag) !in outbox ==> Get(r[u], flag) == Get(h.fetched[u], flag)
  {
  }

  lemma {:induction false} PendingRow(rows: Rows, outbox: Outbox, h: Haul, prev: nat, key: Key)
    requires key in outbox && 1 <= key.uid <= h.highest && key.uid in Result(rows, outbox, h, prev)
    requires key.uid <= prev ==>
      key.uid !in h.fetched && (key.uid in rows ==> Get(rows[key.uid], key.flag) == outbox[key].value)
    ensures Get(Result(rows, outbox, h, prev)[key.uid], key.flag) == outbox[key].value
  {
    assert Key(key.uid, key.flag) == key;
  }

  lemma {:induction false} GoneRow(rows: Rows, outbox: Outbox, h: Haul, prev: nat, u: nat)
    requires 1 <= u <= prev && u in rows && u !in h.answers && u !in h.fetched
    ensures u in Result(rows, outbox, h, prev) && Result(rows, outbox, h, prev)[u].deleted
  {
  }

  /** Convergence of a completed sync from a covered cursor, while at most mail comes and
      goes: every message still on the server, up to the highest UID looked for, has a
      row with the server's flags or the queued ones, and what the server had dropped is
      hidden. */
  lemma {:induction false} Converges(kind: ProviderKind, a: World, prev: nat, b: World, cursor: nat, h: Haul)
    requires SyncedTo(kind, a, prev, b, cursor, h) && ServerOk(b.server) && prev < a.server.next
    requires Covered(a.server.mail, a.rows, 1, prev) && Held(a.rows, a.outbox, a.raced, 1, prev)
    ensures forall u :: u in b.server.mail && u < a.server.next ==> u <= h.highest
    ensures forall u :: u in b.server.mail && u <= h.highest ==> u in b.rows
    ensures Mirrors(b.rows, b.server.mail, b.outbox, 1, h.highest)
    ensures Held(b.rows, b.outbox, a.raced, 1, h.highest)
    ensures forall u :: u in b.server.mail && u <= h.highest ==>
              (b.rows[u].deleted <==> b.server.mail[u].deleted || (u in a.rows && a.rows[u].deleted))
    ensures forall u :: u in a.rows && 1 <= u <= prev && (u !in a.server.mail || u !in h.answers) ==>
              u in b.rows && b.rows[u].deleted
    ensures kind == Imap || kind == GmailImap ==> StandsAt(cursor, prev, h.highest)
    ensures kind == GmailApi || kind == OutlookApi ==> StandsAt(cursor, prev, GapFree(b.rows.Keys, prev, h.highest))
  {
    forall u | u in b.server.mail && u <= h.highest
      ensures u in b.rows
      ensures b.rows[u].deleted <==> b.server.mail[u].deleted || (u in a.rows && a.rows[u].deleted)
      ensures forall flag: Flag :: Key(u, flag) !in b.outbox ==> Get(b.rows[u], flag) == Get(b.server.mail[u], flag)
    {
      ConvergedRow(kind, a, prev, b, cursor, h, u);
    }
    PendingConverges(kind, a, prev, b, cursor, h);
  }

  lemma {:induction false} PendingConverges(kind: ProviderKind, a: World, prev: nat, b: World, cursor: nat, h: Haul)
    requires SyncedTo(kind, a, prev, b, cursor, h) && prev < a.server.next
    requires Held(a.rows, a.outbox, a.raced, 1, prev)
    ensures Held(b.rows, b.outbox, a.raced, 1, h.highest)
    ensures forall u :: u in a.rows && 1 <= u <= prev && (u !in a.server.mail || u !in h.answers) ==>
              u in b.rows && b.rows[u].deleted
  {
    forall key: Key | key in b.outbox && key.uid in b.rows && 1 <= key.uid <= h.highest && key !in a.raced
      ensures Get(b.rows[key.uid], key.flag) == b.outbox[key].value
    {
      PendingRow(a.rows, a.outbox, h, prev, key);
    }
    CalmAnswers(a.server, b.server, h.answers, 1, prev);
    forall u | u in a.rows && 1 <= u <= prev && (u !in a.server.mail || u !in h.answers)
      ensures u in b.rows && b.rows[u].deleted
    {
      GoneRow(a.rows, a.outbox, h, prev, u);
    }
  }

  /** The value a flag ends with when every push is accepted: the user's where one was
      queued, the server's otherwise. */
  function Wanted(a: World, u: nat, flag: Flag): bool
    requires u in a.server.mail
  {
    if Key(u, flag) in a.outbox then a.outbox[Key(u, flag)].value else Get(a.server.mail[u], flag)
  }

  /** … and when the server takes every push, the user's queued values are the
      server's, so after the cycle both sides agree on every flag. */
  lemma {:induction false} PushedAndConverged(kind: ProviderKind, a: World, flushed: World, prev: nat, b: World,
                                              cursor: nat, h: Haul)
    requires FlushedTo(a, flushed, true) && SyncedTo(kind, flushed, prev, b, cursor, h)
    requires ServerOk(b.server) && prev < a.server.next && Covered(a.server.mail, a.rows, 1, prev)
    ensures forall u :: u in b.server.mail && u < a.server.next ==> u in a.server.mail && u <= h.highest
    ensures forall u, flag: Flag :: u in b.server.mail && u <= h.highest ==>
              u in b.rows && Get(b.rows[u], flag) == Get(b.server.mail[u], flag)
    ensures forall u, flag: Flag :: u in b.server.mail && u < a.server.next ==>
              Get(b.server.mail[u], flag) == Wanted(a, u, flag)
  {
    Converges(kind, flushed, prev, b, cursor, h);
    forall u, flag: Flag | u in b.server.mail && u < a.server.next
      ensures u in a.server.mail && Get(b.server.mail[u], flag) == Wanted(a, u, flag)
    {
      assert Showed(flushed.server, b.server, u, b.server.mail[u]);
      assert u in flushed.server.mail && flushed.server.mail[u] == b.server.mail[u];
      var key := Key(u, flag);
      if key in a.outbox { assert key !in flushed.outbox; }
    }
    forall u, flag: Flag | u in b.server.mail && u <= h.highest
      ensures u in b.rows && Get(b.rows[u], flag) == Get(b.server.mail[u], flag)
    {
      assert Key(u, flag) !in b.outbox;
    }
  }

  /** Nothing is queued, and every message still on the server, up to the highest UID looked
      for, has a row that agrees with it on every flag, on the user's value where one was
      queued; what the server had dropped is hidden. */
  ghost predicate Agree(a: World, prev: nat, b: World, highest: nat) {
    && b.outbox == map[]
    && (forall u :: u in b.server.mail && u < a.server.next ==> u in a.server.mail && u <= highest)
    && (forall u, flag: Flag :: u in b.server.mail && u <= highest ==>
          u in b.rows && Get(b.rows[u], flag) == Get(b.server.mail[u], flag))
    && (forall u, flag: Flag :: u in b.server.mail && u < a.server.next ==>
          Get(b.server.mail[u], flag) == Wanted(a, u, flag))
    && (forall u :: u in a.rows && u <= prev && u !in a.server.mail ==> u in b.rows && b.rows[u].deleted)
  }

  ghost function AgreeingWith(a: World, prev: nat, highest: nat): World -> bool {
    (b: World) => Agree(a, prev, b, highest)
  }

  /** Both together, for one folder whose epoch's walk began at UID 1. */
  lemma {:induction false} AloneConverges(kind: ProviderKind, notify: bool, a: World, flushed: World, prev: nat,
                                          b: World, cursor: nat, h: Haul)
    requires Safe(a) && Sound(a, 1, prev) && ServerOk(b.server)
    requires FlushingFrom(MailOnly, true, a, {})(flushed) &&
      SyncedFrom(kind, MailOnly, notify, flushed, prev, cursor, h)(b)
    ensures AgreeingWith(a, prev, h.highest)(b)
  {
    FlushedAlone(true, a, flushed);
    SyncedAlone(kind, notify, flushed, prev, b, cursor, h);
    CycleAgrees(kind, a, flushed, prev, b, cursor, h);
  }

  lemma {:induction false} CycleAgrees(kind: ProviderKind, a: World, flushed: World, prev: nat, b: World, cursor: nat,
                                       h: Haul)
    requires Safe(a) && Sound(a, 1, prev) && ServerOk(b.server)
    requires FlushedTo(a, flushed, true) && SyncedTo(kind, flushed, prev, b, cursor, h)
    ensures Agree(a, prev, b, h.highest)
  {
    PushedAndConverged(kind, a, flushed, prev, b, cursor, h);
    PendingConverges(kind, flushed, prev, b, cursor, h);
  }

  /** Why `raced` edits are excepted. A chunk's commit, computed from the rows as they
      were read, meets the rows as they are by then: what one of them holds survives if
      and only if the answer does not name it, changes nothing in it as it was read, or
      agrees. */
  lemma {:induction false} RacedEditFate(rows: Rows, read: Rows, pending: set<Key>, answer: Answer, lo: nat, hi: nat,
                                         key: Key)
    requires Distinct(answer) && key.uid in rows && key.uid in read && lo <= key.uid <= hi
    ensures
      var f := Find(answer, key.uid);
      var written := DiffChunk(rows, Within(read, lo, hi), pending, answer);
      Get(written[key.uid], key.flag) == Get(rows[key.uid], key.flag) <==>
        || f.None?
        || Merge(read[key.uid], f.value, pending, key.uid) == read[key.uid]
        || Get(Merge(read[key.uid], f.value, pending, key.uid), key.flag) == Get(rows[key.uid], key.flag)
  {
    WriteAt(rows, Within(read, lo, hi), pending, answer, key.uid);
  }

  /** An edit of a flag that was not pending when the reconciliation began, made after
      the row was read: it survives as above, where the answer's own value counts. */
  lemma {:induction false} EditAfterRead(a: World, pending: set<Key>, answer: Answer, lo: nat, hi: nat, key: Key,
                                         value: bool)
    requires Distinct(answer) && key !in pending && key.uid in a.rows && lo <= key.uid <= hi
    ensures
      var b, f := React(a, Edit(key.uid, key.flag, value), true), Find(answer, key.uid);
      var written := DiffChunk(b.rows, Within(a.rows, lo, hi), pending, answer);
      Get(written[key.uid], key.flag) == b.outbox[key].value <==>
        || f.None? || Merge(a.rows[key.uid], f.value, pending, key.uid) == a.rows[key.uid]
        || Get(f.value, key.flag) == value
  {
    assert key == Key(key.uid, key.flag);
    RacedEditFate(React(a, Edit(key.uid, key.flag, value), true).rows, a.rows, pending, answer, lo, hi, key);
  }

  /** Made while the flags were being fetched, before the row was read: it survives if
      and only if the answer does not name the message or agrees with the edit. */
  lemma {:induction false} EditDuringFetch(a: World, pending: set<Key>, answer: Answer, lo: nat, hi: nat, key: Key,
                                           value: bool)
    requires Distinct(answer) && key !in pending && key.uid in a.rows && lo <= key.uid <= hi
    ensures
      var b, f := React(a, Edit(key.uid, key.flag, value), true), Find(answer, key.uid);
      var written := DiffChunk(b.rows, Within(b.rows, lo, hi), pending, answer);
      Get(written[key.uid], key.flag) == b.outbox[key].value <==> f.None? || Get(f.value, key.flag) == value
  {
    var b := React(a, Edit(key.uid, key.flag, value), true);
    assert key == Key(key.uid, key.flag);
    RacedEditFate(b.rows, b.rows, pending, answer, lo, hi, key);
  }

  /** The queue and the row at the moment a push is settled that was read as `op`: the
      user's value is forgotten, pushed by nobody and remembered by no entry, if and
      only if the entry is settled away and was edited to another value meanwhile. */
  lemma {:induction false} EditInFlightFate(e: World, key: Key, op: Op, accepted: bool)
    requires key in e.outbox && key.uid in e.rows && Get(e.rows[key.uid], key.flag) == e.outbox[key].value
    ensures
      var settled := e.(outbox := Settle(e.outbox, key, op, accepted));
      && (key !in settled.outbox && Get(settled.rows[key.uid], key.flag) != op.value <==>
            (accepted || op.attempts + 1 >= MAX_FLAG_PUSH_ATTEMPTS) && e.outbox[key].value != op.value)
      && (key in settled.outbox ==> settled.outbox[key] == Op(e.outbox[key].value, op.attempts + 1))
  {
  }

  /** From the read to the settling, whatever server and user do meanwhile: an accepted
      push, or the tenth refused one, drops the user's newest value exactly when it
      differs from the one that was read. */
  lemma {:induction false} FlushForgetsNewerEdit(a: World, key: Key, accepted: bool, before: seq<Event>,
                                                 after: seq<Event>)
    requires ServerOk(a.server) && key in a.outbox && key.uid in a.rows
    requires Get(a.rows[key.uid], key.flag) == a.outbox[key].value
    ensures
      var op, sent := a.outbox[key], ReactAll(a, before, false);
      var pushed := sent.(server := ServerPush(sent.server, key, op.value, accepted));
      var e := ReactAll(pushed, after, false);
      var settled := e.(outbox := Settle(e.outbox, key, op, accepted));
      && key in e.outbox && key.uid in settled.rows
      && (key !in settled.outbox && Get(settled.rows[key.uid], key.flag) != op.value <==>
            (accepted || op.attempts + 1 >= MAX_FLAG_PUSH_ATTEMPTS) && e.outbox[key].value != op.value)
  {
    var op, sent := a.outbox[key], ReactAll(a, before, false);
    var pushed := sent.(server := ServerPush(sent.server, key, op.value, accepted));
    var e := ReactAll(pushed, after, false);
    ReactAllStep(a, before, false);
    HeldThrough(a, sent, key);
    ServerPushStep(sent.server, key, op.value, accepted);
    ReactAllStep(pushed, after, false);
    HeldThrough(pushed, e, key);
    EditInFlightFate(e, key, op, accepted);
  }

  /** A queued value stays queued, and in its row, until something settles it. */
  lemma {:induction false} HeldThrough(a: World, b: World, key: Key)
    requires EnvStep(a, b, false) && key in a.outbox && key.uid in a.rows
    requires Get(a.rows[key.uid], key.flag) == a.outbox[key].value
    ensures key in b.outbox && key.uid in b.rows && Get(b.rows[key.uid], key.flag) == b.outbox[key].value
  {
    assert Untouched(a, b, key) || Edited(a, b, key, false);
  }

  /** A cut between an import's transaction and the re-application of pending flags:
      the window holds its pending edits if and only if each queued value is the
      fetched one, or the row's own where the message was not fetched. */
  lemma {:induction false} CutBeforeReapply(rows: Rows, outbox: Outbox, batch: Answer, lo: nat, hi: nat)
    requires Distinct(batch)
    ensures Held(ImportRows(rows, batch), outbox, {}, lo, hi) <==>
            forall key: Key :: key in outbox && lo <= key.uid <= hi ==> QueuedIsThere(rows, outbox, batch, key)
  {
    var imported := ImportRows(rows, batch);
    forall key: Key | key in outbox
      ensures QueuedIsThere(rows, outbox, batch, key) <==>
              (key.uid in imported ==> Get(imported[key.uid], key.flag) == outbox[key].value)
    {
      ImportAt(rows, batch, key.uid);
    }
  }

  predicate QueuedIsThere(rows: Rows, outbox: Outbox, batch: Answer, key: Key)
    requires key in outbox
  {
    match Find(batch, key.uid)
    case Some(f) => Get(f, key.flag) == outbox[key].value
    case None => key.uid in rows ==> Get(rows[key.uid], key.flag) == outbox[key].value
  }

  /** The outbox outlives a UIDVALIDITY change, and its entries then speak of other
      messages: a newly stored message shows its own flag if and only if no old entry
      has its UID, or the entry happens to agree. */
  lemma {:induction false} OldEntryDecides(kind: ProviderKind, a: World, prev: nat, b: World, cursor: nat, h: Haul,
                                           u: nat, flag: Flag)
    requires SyncedTo(kind, Purged(a, true), prev, b, cursor, h) && u in b.server.mail && prev < u <= h.highest
    ensures u in b.rows
    ensures Get(b.rows[u], flag) ==
            if Key(u, flag) in a.outbox then a.outbox[Key(u, flag)].value else Get(b.server.mail[u], flag)
    ensures Get(b.rows[u], flag) == Get(b.server.mail[u], flag) <==>
            Key(u, flag) !in a.outbox || a.outbox[Key(u, flag)].value == Get(b.server.mail[u], flag)
  {
    assert NaivePass(map[], a.outbox.Keys, h.answers, 1, prev) == map[];
    CalmAnswers(a.server, b.server, h.fetched, prev + 1, h.highest);
    assert u in h.fetched;
  }

  /** … and the flush at the start of that cycle pushes it to the other message. */
  lemma {:induction false} OldEntryIsPushed(kind: ProviderKind, a: World, flushed: World, prev: nat, b: World,
                                            cursor: nat, h: Haul, u: nat, flag: Flag)
    requires FlushedTo(a, flushed, true) && SyncedTo(kind, Purged(flushed, true), prev, b, cursor, h)
    requires u in b.server.mail && prev < u <= h.highest && u < a.server.next
    ensures u in b.rows && u in a.server.mail && Get(b.rows[u], flag) == Get(b.server.mail[u], flag)
    ensures Get(b.rows[u], flag) == Get(a.server.mail[u], flag) <==>
            Key(u, flag) !in a.outbox || a.outbox[Key(u, flag)].value == Get(a.server.mail[u], flag)
  {
    OldEntryDecides(kind, flushed, prev, b, cursor, h, u, flag);
    assert Showed(flushed.server, b.server, u, b.server.mail[u]);
    assert u in flushed.server.mail && flushed.server.mail[u] == b.server.mail[u];
    if Key(u, flag) in a.outbox { assert Key(u, flag) !in flushed.outbox; }
  }

  // ---- runs ---------------------------------------------------------------

  /** A folder between two cycles. */
  datatype Moment = Moment(world: World, cursor: nat, epoch: Option<nat>, at: nat)

  predicate UpToDate(m: Moment) { m.epoch.None? || m.epoch == Some(m.world.server.epoch) }

  /** A cycle from `a` to `b`: the flush as far as it came and, if it came to its end, the sync
      as far as it came; completed unless cut. */
  ghost predicate CycledBy(kind: ProviderKind, others: Others, notify: bool, willing: bool, script: seq<Turn>,
                           a: Moment, b: Moment, done: bool, flushed: World, left: set<Key>, h: Haul) {
    && FlushingFrom(others, willing, a.world, left)(flushed)
    && (if left == {} then UpToDate(a) ==> SyncingFrom(others, notify, flushed, a.cursor, h)(b.world)
        else b.world == flushed && !done)
    && (done ==> SyncedFrom(kind, others, notify, Purged(flushed, !UpToDate(a)), a.cursor, b.cursor, h)(b.world))
    && Stepped(script, a.at, CycleAwaits(a.world.outbox), done)(b.at)
  }

  ghost predicate Cycled(kind: ProviderKind, others: Others, notify: bool, willing: bool, script: seq<Turn>, a: Moment,
                         b: Moment) {
    exists done, flushed, left, h :: CycledBy(kind, others, notify, willing, script, a, b, done, flushed, left, h)
  }

  /** One entry of a plan: a cycle, or the server's new UIDVALIDITY if it is a larger one. */
  ghost predicate Went(kind: ProviderKind, others: Others, notify: bool, willing: bool, script: seq<Turn>,
                       entry: Option<Server>, a: Moment, b: Moment) {
    match entry
    case None => if a.cursor + 1 < U32_LIMIT then Cycled(kind, others, notify, willing, script, a, b) else b == a
    case Some(s) =>
      if ValidServer(s) && s.epoch > a.world.server.epoch then
        b == a.(world := a.world.(server := s.(clock := a.world.server.clock, until := a.world.server.until)))
      else b == a
  }

  lemma {:induction false} CycleWent(kind: ProviderKind, others: Others, notify: bool, willing: bool,
                                     script: seq<Turn>, a: Moment, b: Moment, done: bool, flushed: World,
                                     left: set<Key>, h: Haul)
    requires a.cursor + 1 < U32_LIMIT && FlushingFrom(others, willing, a.world, left)(flushed)
    requires if left == {} then UpToDate(a) ==> SyncingFrom(others, notify, flushed, a.cursor, h)(b.world)
             else b.world == flushed && !done
    requires done ==>
      SyncedFrom(kind, others, notify, Purged(flushed, !UpToDate(a)), a.cursor, b.cursor, h)(b.world)
    requires Stepped(script, a.at, CycleAwaits(a.world.outbox), done)(b.at)
    ensures Went(kind, others, notify, willing, script, None, a, b)
  {
    assert CycledBy(kind, others, notify, willing, script, a, b, done, flushed, left, h);
  }

  /** The entries of a plan one after another. */
  ghost function WayAlong(kind: ProviderKind, others: Others, notify: bool, willing: bool, script: seq<Turn>,
                          plan: seq<Option<Server>>): seq<Moment> -> bool {
    (moments: seq<Moment>) =>
      && |moments| == |plan| + 1
      && forall i :: 0 <= i < |plan| ==>
        Went(kind, others, notify, willing, script, plan[i], moments[i], moments[i + 1])
  }

  lemma {:induction false} WayOn(kind: ProviderKind, others: Others, notify: bool, willing: bool, script: seq<Turn>,
                                 plan: seq<Option<Server>>, moments: seq<Moment>, i: nat, b: Moment)
    requires i < |plan| && WayAlong(kind, others, notify, willing, script, plan[..i])(moments)
    requires Went(kind, others, notify, willing, script, plan[i], moments[i], b)
    ensures WayAlong(kind, others, notify, willing, script, plan[..i + 1])(moments + [b])
  {
    var now := moments + [b];
    forall k | 0 <= k <= i ensures Went(kind, others, notify, willing, script, plan[k], now[k], now[k + 1]) {
      if k < i { assert plan[..i][k] == plan[k]; }
    }
  }
}
