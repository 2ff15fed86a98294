/** What a flush of the outbox and a reconciliation of the flags achieve, while the
    server and the user go on: the relation each leaves behind, and why its steps add up. */
module FlagSync {
  import opened Basics
  import opened Mailbox
  import opened FlagReconcile
  import opened SyncState

  // ---- one flush ------------------------------------------------------------

  /** Of the messages that were there, the server's mailbox differs only in what it
      dropped and in flags that were pushed to it. */
  ghost predicate PushesOnly(a: Server, b: Server, ops: Outbox) {
    && ServerStep(a, b)
    && (forall u :: u in b.mail && u < a.next ==> u in a.mail && a.mail[u].deleted == b.mail[u].deleted)
    && (forall u, flag: Flag :: u in b.mail && u < a.next ==>
          || Get(b.mail[u], flag) == Get(a.mail[u], flag)
          || (Key(u, flag) in ops && Get(b.mail[u], flag) == ops[Key(u, flag)].value))
  }

  lemma {:induction false} DiffKeepsKey(read: Rows, rows: Rows, pending: set<Key>, answer: Answer, lo: nat, hi: nat,
                                        key: Key)
    requires Distinct(answer) && key in pending && key.uid in rows && key.uid in read
    requires Get(read[key.uid], key.flag) == Get(rows[key.uid], key.flag)
    ensures Get(DiffChunk(rows, Within(read, lo, hi), pending, answer)[key.uid], key.flag)
         == Get(rows[key.uid], key.flag)
  {
    WriteAt(rows, Within(read, lo, hi), pending, answer, key.uid);
  }

  /** Entries not in `todo` have been pushed once; a survivor shows one more attempt. */
  ghost predicate Flushed(ops: Outbox, outbox: Outbox, todo: set<Key>) {
    && (forall key :: key in todo ==> key in outbox && key in ops && outbox[key] == ops[key])
    && (forall key :: key in outbox && key !in todo ==> key in ops && Pushed(ops[key], false) == Some(outbox[key]))
  }

  /** Along completed flushes without edits an entry only gains attempts, and never has
      ten: after ten flushes the outbox is empty, whatever the server answers. */
  lemma {:induction false} OutboxDrains(boxes: seq<Outbox>, i: nat)
    requires i < |boxes| && Budget(boxes[0])
    requires forall j :: 0 <= j < |boxes| - 1 ==> Flushed(boxes[j], boxes[j + 1], {})
    ensures forall key :: key in boxes[i] ==>
              && key in boxes[0] && boxes[i][key] == Op(boxes[0][key].value, boxes[0][key].attempts + i)
              && boxes[0][key].attempts + i < MAX_FLAG_PUSH_ATTEMPTS
    ensures i >= MAX_FLAG_PUSH_ATTEMPTS ==> boxes[i] == map[]
  {
    if i > 0 {
      OutboxDrains(boxes, i - 1);
      assert Flushed(boxes[i - 1], boxes[i - 1 + 1], {});
    }
  }

  /** An entry pushed `n` times and refused each time. */
  function Refused(outbox: Outbox, key: Key, n: nat): Outbox {
    if n == 0 then outbox else
      var before := Refused(outbox, key, n - 1);
      if key in before then Settle(before, key, before[key], false) else before
  }

  /** Nine refusals leave a fresh entry queued, the tenth drops it. */
  lemma {:induction false} TenthRefusalDrops(outbox: Outbox, key: Key, n: nat)
    requires key in outbox && outbox[key].attempts == 0
    ensures key in Refused(outbox, key, n) <==> n <= 9
    ensures n <= 9 ==> Refused(outbox, key, n) == outbox[key := Op(outbox[key].value, n)]
    ensures n > 9 ==> Refused(outbox, key, n) == outbox - {key}
  {
    if n > 0 { TenthRefusalDrops(outbox, key, n - 1); }
  }

  // ---- a flush while the user edits ---------------------------------------

  predicate SameEntry(a: Outbox, b: Outbox, key: Key) {
    (key in a <==> key in b) && (key in a ==> a[key] == b[key])
  }

  /** The entry is as it was, or the user edited the flag since. */
  predicate EntryKept(a: World, b: World, key: Key) {
    || (EditedSince(a, b, key) && key in b.outbox)
    || (SameEntry(a.outbox, b.outbox, key) && Edits(a, key) == Edits(b, key))
  }

  ghost predicate EntriesKept(a: World, b: World, except: set<Key>) {
    forall key: Key :: if key in except then Edits(a, key) <= Edits(b, key) else EntryKept(a, b, key)
  }

  lemma {:induction false} EnvKeepsEntries(others: Others, a: World, b: World)
    requires Waited(others, a, false)(b)
    ensures EntriesKept(a, b, {})
  {
    WaitMoves(others, a, b, false);
    forall key: Key ensures EntryKept(a, b, key) {
      if key.uid in a.rows { assert Untouched(a, b, key) || Edited(a, b, key, false); }
    }
  }

  /** Both waits of one push, and its bookkeeping, keep all other entries. */
  lemma {:induction false} PushKeepsEntries(a: World, b: World, c: World, key: Key, op: Op, accepted: bool)
    requires EntriesKept(a, b, {}) && EntriesKept(b.(server := ServerPush(b.server, key, op.value, accepted)), c, {})
    ensures EntriesKept(a, c, {}) && EntriesKept(a, c.(outbox := Settle(c.outbox, key, op, accepted)), {key})
  {
    var pushed := b.(server := ServerPush(b.server, key, op.value, accepted));
    forall k: Key ensures EntryKept(a, c, k) {
      assert EntryKept(a, b, k) && EntryKept(pushed, c, k) && Edits(pushed, k) == Edits(b, k);
    }
    var settled := c.(outbox := Settle(c.outbox, key, op, accepted));
    forall k: Key ensures if k == key then Edits(a, k) <= Edits(settled, k) else EntryKept(a, settled, k) {
      assert EntryKept(a, c, k) && Edits(settled, k) == Edits(c, k);
    }
  }

  /** The entry `key` after its push: gone, or there with one more attempt than it was
      read with. */
  ghost predicate Pressed(ops: Outbox, outbox: Outbox, key: Key) {
    key in outbox ==> key in ops && Pushed(ops[key], false).Some? && outbox[key].attempts == ops[key].attempts + 1
  }

  /** Between `a` and `b` the server showed the value, or it does not have the message. */
  ghost predicate Delivered(a: Server, b: Server, key: Key, value: bool) {
    || key.uid !in b.mail || a.next <= key.uid
    || exists f :: Showed(a, b, key.uid, f) && Get(f, key.flag) == value
  }

  /** The flag was edited since `a`, or its entry was pushed: it has one more attempt, or it
      is gone, with its value delivered or its budget spent. */
  ghost predicate Tried(willing: bool, a: World, w: World, key: Key) {
    || EditedSince(a, w, key)
    || (&& Edits(a, key) == Edits(w, key) && Pressed(a.outbox, w.outbox, key)
        && (key in a.outbox && key !in w.outbox ==>
              || Delivered(a.server, w.server, key, a.outbox[key].value)
              || (!willing && a.outbox[key].attempts + 1 == MAX_FLAG_PUSH_ATTEMPTS)))
  }

  /** Since `a`, entries not in `todo` have been tried once, and those in it are untouched. */
  ghost predicate FlushedAmid(willing: bool, a: World, w: World, todo: set<Key>) {
    && ServerStep(a.server, w.server)
    && forall key: Key :: if key in todo then EntryKept(a, w, key) else Tried(willing, a, w, key)
  }

  lemma {:induction false} TriedStays(willing: bool, a: World, w: World, b: World, key: Key)
    requires ServerStep(a.server, w.server) && ServerStep(w.server, b.server)
    requires Tried(willing, a, w, key) && EntryKept(w, b, key)
    ensures Tried(willing, a, b, key)
  {
    if key in a.outbox && key !in w.outbox && Delivered(a.server, w.server, key, a.outbox[key].value)
       && key.uid in b.server.mail && key.uid < a.server.next {
      var f :| Showed(a.server, w.server, key.uid, f) && Get(f, key.flag) == a.outbox[key].value;
      ShowedLater(a.server, w.server, b.server, key.uid, f);
    }
  }

  /** An accepted push delivers. */
  lemma {:induction false} PushDelivers(s: Server, mid: Server, c: Server, key: Key, value: bool)
    requires ServerStep(s, mid) && ServerOk(mid)
    requires Moved(Everyone, ServerPush(mid, key, value, true))(c)
    ensures Delivered(s, c, key, value)
  {
    if key.uid in mid.mail {
      PushShows(s, mid, c, key, value);
    }
  }

  lemma {:induction false} PushShows(s: Server, mid: Server, c: Server, key: Key, value: bool)
    requires ServerStep(s, mid) && ServerOk(mid) && key.uid in mid.mail
    requires Moved(Everyone, ServerPush(mid, key, value, true))(c)
    ensures exists f :: Showed(s, c, key.uid, f) && Get(f, key.flag) == value
  {
    var p, f := ServerPush(mid, key, value, true), Put(mid.mail[key.uid], key.flag, value);
    ServerPushStep(mid, key, value, true);
    ServerStepTrans(s, mid, p);
    assert p.mail[key.uid] == f && Get(f, key.flag) == value;
    assert ServerStep(p, c);
    ShowedLater(s, p, c, key.uid, f);
  }

  lemma {:induction false} PushTries(others: Others, willing: bool, a: World, w: World, b: World, key: Key,
                                     accepted: bool, mid: Server)
    requires ServerStep(a.server, w.server) && EntryKept(a, w, key) && key in a.outbox && (willing ==> accepted)
    requires PushedOnceBy(others, w, key, a.outbox[key], true, accepted, mid)(b)
    requires a.outbox[key].attempts < MAX_FLAG_PUSH_ATTEMPTS
    ensures ServerStep(a.server, b.server) && ServerStep(w.server, b.server) && Tried(willing, a, b, key)
  {
    var op := a.outbox[key];
    assert PushedOnce(others, w, b, key, op, true, accepted, mid);
    PushSteps(others, w.server, mid, key, op.value, accepted, b.server);
    ServerStepTrans(a.server, w.server, b.server);
    assert Edits(w, key) <= Edits(b, key);
    if accepted {
      ServerStepTrans(a.server, w.server, mid);
      PushDelivers(a.server, mid, b.server, key, op.value);
    }
  }

  lemma {:induction false} PushSteps(others: Others, w: Server, mid: Server, key: Key, value: bool, accepted: bool,
                                     c: Server)
    requires PushMet(others, w, mid, key, value, accepted, c)
    ensures ServerStep(w, mid) && ServerStep(ServerPush(mid, key, value, accepted), c) && ServerStep(w, c)
  {
    ServerPushStep(mid, key, value, accepted);
    ServerStepTrans(w, mid, ServerPush(mid, key, value, accepted));
    ServerStepTrans(w, ServerPush(mid, key, value, accepted), c);
  }

  lemma {:induction false} FlushedAmidAgain(others: Others, willing: bool, a: World, w: World, b: World, todo: set<Key>,
                                            key: Key, accepted: bool, mid: Server)
    requires FlushedAmid(willing, a, w, todo) && key in todo && key in a.outbox && (willing ==> accepted)
    requires PushedOnceBy(others, w, key, a.outbox[key], true, accepted, mid)(b)
    requires a.outbox[key].attempts < MAX_FLAG_PUSH_ATTEMPTS
    ensures FlushedAmid(willing, a, b, todo - {key})
  {
    PushTries(others, willing, a, w, b, key, accepted, mid);
    assert PushedOnce(others, w, b, key, a.outbox[key], true, accepted, mid);
    forall k: Key ensures if k in todo - {key} then EntryKept(a, b, k) else Tried(willing, a, b, k) {
      if k != key {
        assert EntryKept(w, b, k);
        if k !in todo { TriedStays(willing, a, w, b, k); }
      }
    }
  }

  /** One push, from `a` to `w`: unless it was cut, the entry is gone or has one more
      attempt than it was read with; any other is as it was or was edited. */
  ghost predicate PushedOnce(others: Others, a: World, w: World, key: Key, op: Op, done: bool, accepted: bool,
                             mid: Server) {
    && EntriesKept(a, w, if done then {key} else {})
    && (done ==> Pressed(map[key := op], w.outbox, key) && (accepted ==> key !in w.outbox))
    && (done && !accepted && key in a.outbox && key !in w.outbox ==> op.attempts + 1 >= MAX_FLAG_PUSH_ATTEMPTS)
    && (!others.Everyone? ==>
          w == a.(server := w.server, outbox := if done then Settle(a.outbox, key, op, accepted) else a.outbox))
    && (PushMet(others, a.server, mid, key, op.value, accepted, w.server) ||
        (!done && Moved(others, a.server)(w.server)))
  }

  ghost function PushedOnceBy(others: Others, a: World, key: Key, op: Op, done: bool, accepted: bool, mid: Server)
    : World -> bool
  {
    (w: World) => PushedOnce(others, a, w, key, op, done, accepted, mid)
  }

  lemma {:induction false} CutBeforePush(others: Others, a: World, b: World, key: Key, op: Op, accepted: bool,
                                         mid: Server)
    requires Waited(others, a, false)(b)
    ensures PushedOnceBy(others, a, key, op, false, accepted, mid)(b)
  {
    assert Waits(others, a, b, false);
    WaitMoves(others, a, b, false);
    EnvKeepsEntries(others, a, b);
  }

  /** A wait, the push, a wait: the task may be cut there. */
  lemma {:induction false} CutAfterPush(others: Others, a: World, b: World, c: World, key: Key, op: Op, accepted: bool,
                                        mid: Server)
    requires Waited(others, a, false)(b) && mid == b.server && ServerOk(mid)
    requires Waited(others, b.(server := ServerPush(b.server, key, op.value, accepted)), false)(c)
    ensures PushedOnceBy(others, a, key, op, false, accepted, mid)(c) && EntriesKept(a, c, {})
    ensures EntriesKept(a, c.(outbox := Settle(c.outbox, key, op, accepted)), {key})
    ensures !others.Everyone? ==> c == a.(server := c.server)
  {
    var pushed := b.(server := ServerPush(b.server, key, op.value, accepted));
    EnvKeepsEntries(others, a, b);
    EnvKeepsEntries(others, pushed, c);
    PushKeepsEntries(a, b, c, key, op, accepted);
    OnlyTheServer(others, a, b);
    OnlyTheServer(others, pushed, c);
    IsPushMet(others, a, b, c, key, op, accepted);
  }

  /** … or else the entry is settled. */
  lemma {:induction false} PushSettles(others: Others, a: World, b: World, c: World, key: Key, op: Op, accepted: bool)
    requires Waited(others, a, false)(b) && ServerOk(b.server)
    requires Waited(others, b.(server := ServerPush(b.server, key, op.value, accepted)), false)(c)
    ensures PushedOnceBy(others, a, key, op, true, accepted, b.server)(
              c.(outbox := Settle(c.outbox, key, op, accepted)))
  {
    CutAfterPush(others, a, b, c, key, op, accepted, b.server);
    IsPushMet(others, a, b, c, key, op, accepted);
    SettledOnce(others, a, c, key, op, accepted, b.server);
  }

  lemma {:induction false} SettledOnce(others: Others, a: World, c: World, key: Key, op: Op, accepted: bool,
                                       mid: Server)
    requires EntriesKept(a, c, {}) && EntriesKept(a, c.(outbox := Settle(c.outbox, key, op, accepted)), {key})
    requires PushMet(others, a.server, mid, key, op.value, accepted, c.server)
    requires !others.Everyone? ==> c == a.(server := c.server)
    ensures PushedOnceBy(others, a, key, op, true, accepted, mid)(c.(outbox := Settle(c.outbox, key, op, accepted)))
  {
    assert EntryKept(a, c, key);
  }

  lemma {:induction false} IsPushMet(others: Others, a: World, b: World, c: World, key: Key, op: Op, accepted: bool)
    requires Waited(others, a, false)(b) && ServerOk(b.server)
    requires Waited(others, b.(server := ServerPush(b.server, key, op.value, accepted)), false)(c)
    ensures PushMet(others, a.server, b.server, key, op.value, accepted, c.server)
  {
    var pushed := b.(server := ServerPush(b.server, key, op.value, accepted));
    WaitMoves(others, a, b, false);
    WaitMoves(others, pushed, c, false);
  }

  lemma {:induction false} OnlyTheServer(others: Others, a: World, b: World)
    requires Waited(others, a, false)(b)
    ensures !others.Everyone? ==> b == a.(server := b.server)
  {
    assert Waits(others, a, b, false);
  }

  /** How far a flush from `a` has come: the entries in `todo` are still to be pushed. */
  ghost predicate Flushing(others: Others, willing: bool, a: World, w: World, todo: set<Key>) {
    && todo <= a.outbox.Keys && FlushedAmid(willing, a, w, todo)
    && (!others.Everyone? ==>
          && w == a.(server := w.server, outbox := w.outbox) && Flushed(a.outbox, w.outbox, todo)
          && (willing ==> w.outbox.Keys <= todo))
    && (others.MailOnly? ==>
          && PushesOnly(a.server, w.server, a.outbox)
          && Took(w.server.mail, a.outbox, w.outbox, willing, a.server.next))
  }

  ghost function FlushingFrom(others: Others, willing: bool, a: World, todo: set<Key>): World -> bool {
    (w: World) => Flushing(others, willing, a, w, todo)
  }

  /** A push that was cut leaves the flush where it was. */
  lemma {:induction false} FlushCut(others: Others, willing: bool, a: World, w: World, b: World, todo: set<Key>,
                                    key: Key, accepted: bool, mid: Server)
    requires FlushingFrom(others, willing, a, todo)(w) && key in todo && key in a.outbox
    requires PushedOnceBy(others, w, key, a.outbox[key], false, accepted, mid)(b)
    ensures FlushingFrom(others, willing, a, todo)(b)
  {
    var op := a.outbox[key];
    assert Flushing(others, willing, a, w, todo) && PushedOnce(others, w, b, key, op, false, accepted, mid);
    CutSteps(others, w, b, key, op, accepted, mid);
    ServerStepTrans(a.server, w.server, b.server);
    forall k: Key ensures if k in todo then EntryKept(a, b, k) else Tried(willing, a, b, k) {
      assert EntryKept(w, b, k);
      if k !in todo { TriedStays(willing, a, w, b, k); }
    }
    if others.MailOnly? { TookCut(a.server, w.server, b.server, mid, a.outbox, w.outbox, key, accepted, willing); }
  }

  lemma {:induction false} CutSteps(others: Others, w: World, b: World, key: Key, op: Op, accepted: bool, mid: Server)
    requires PushedOnceBy(others, w, key, op, false, accepted, mid)(b)
    ensures ServerStep(w.server, b.server)
    ensures others.MailOnly? ==>
      Moved(MailOnly, w.server)(b.server) || PushMet(MailOnly, w.server, mid, key, op.value, accepted, b.server)
  {
    assert PushedOnce(others, w, b, key, op, false, accepted, mid);
    if PushMet(others, w.server, mid, key, op.value, accepted, b.server) {
      PushSteps(others, w.server, mid, key, op.value, accepted, b.server);
    }
  }

  lemma {:induction false} TookCut(s: Server, a: Server, c: Server, mid: Server, ops: Outbox, outbox: Outbox, key: Key,
                                   accepted: bool, willing: bool)
    requires PushesOnly(s, a, ops) && key in ops && key in outbox && Took(a.mail, ops, outbox, willing, s.next)
    requires Moved(MailOnly, a)(c) || PushMet(MailOnly, a, mid, key, ops[key].value, accepted, c)
    ensures PushesOnly(s, c, ops) && Took(c.mail, ops, outbox, willing, s.next)
  {
    if Moved(MailOnly, a)(c) {
      CalmPushes(s, a, c, ops);
      forall k: Key | k.uid in c.mail && k.uid < s.next ensures k.uid in a.mail && c.mail[k.uid] == a.mail[k.uid] {
        assert Showed(a, c, k.uid, c.mail[k.uid]);
      }
    } else {
      PushesOnMore(s, a, mid, c, ops, key, accepted);
      forall k: Key | k in ops && k !in outbox && k.uid in c.mail && k.uid < s.next
        ensures k.uid in a.mail && Get(c.mail[k.uid], k.flag) == Get(a.mail[k.uid], k.flag)
      {
        CalmPushFlag(a, mid, c, key, ops[key].value, accepted, k);
      }
    }
  }

  lemma {:induction false} FlushStarts(others: Others, willing: bool, a: World)
    requires ServerOk(a.server)
    ensures FlushingFrom(others, willing, a, a.outbox.Keys)(a)
  {
    ServerStepStays(a.server);
    assert Flushing(others, willing, a, a, a.outbox.Keys);
  }

  lemma {:induction false} FlushGoesOn(others: Others, willing: bool, a: World, w: World, b: World, todo: set<Key>,
                                       key: Key, accepted: bool, mid: Server)
    requires FlushingFrom(others, willing, a, todo)(w) && key in todo && key in a.outbox
    requires PushedOnceBy(others, w, key, a.outbox[key], true, accepted, mid)(b)
    requires a.outbox[key].attempts < MAX_FLAG_PUSH_ATTEMPTS && (willing ==> accepted)
    ensures FlushingFrom(others, willing, a, todo - {key})(b)
  {
    var op := a.outbox[key];
    assert Flushing(others, willing, a, w, todo) && PushedOnce(others, w, b, key, op, true, accepted, mid);
    FlushedAmidAgain(others, willing, a, w, b, todo, key, accepted, mid);
    if !others.Everyone? { FlushedAgain(a.outbox, w.outbox, b.outbox, todo, key, accepted); }
    if others.MailOnly? {
      PushesOnMore(a.server, w.server, mid, b.server, a.outbox, key, accepted);
      TookAgain(a.server, w.server, mid, b.server, a.outbox, w.outbox, b.outbox, key, accepted, willing);
    }
  }

  /** After `n` completed flushes since `a`: an entry the user did not touch has gained
      `n` attempts, or is gone. */
  ghost predicate FlushedTimes(a: World, w: World, n: nat) {
    forall key: Key ::
      && Edits(a, key) <= Edits(w, key)
      && (key in w.outbox && !EditedSince(a, w, key) ==>
            key in a.outbox && w.outbox[key].attempts == a.outbox[key].attempts + n < MAX_FLAG_PUSH_ATTEMPTS)
  }

  ghost function FlushedTimesFrom(a: World, n: nat): World -> bool { (w: World) => FlushedTimes(a, w, n) }

  lemma {:induction false} FlushedOnceMore(others: Others, willing: bool, s: World, a: World, b: World, n: nat)
    requires FlushedTimesFrom(s, n)(a) && FlushingFrom(others, willing, a, {})(b)
    ensures FlushedTimesFrom(s, n + 1)(b)
  {
    assert FlushedTimes(s, a, n) && Flushing(others, willing, a, b, {});
    forall key: Key
      ensures Edits(s, key) <= Edits(b, key)
      ensures key in b.outbox && !EditedSince(s, b, key) ==>
                key in s.outbox && b.outbox[key].attempts == s.outbox[key].attempts + n + 1 < MAX_FLAG_PUSH_ATTEMPTS
    {
      assert Tried(willing, a, b, key);
    }
  }

  /** After ten flushes what is left was edited meanwhile. */
  lemma {:induction false} FlushedOften(s: World, b: World)
    requires FlushedTimesFrom(s, MAX_FLAG_PUSH_ATTEMPTS)(b)
    ensures forall key :: key in b.outbox ==> EditedSince(s, b, key)
  {
    assert FlushedTimes(s, b, MAX_FLAG_PUSH_ATTEMPTS);
  }

  /** The server shows every value whose entry was cleared, on the messages below `n`,
      budget-spent refusals apart. */
  ghost predicate Took(mail: map<nat, Flags>, ops: Outbox, outbox: Outbox, willing: bool, n: nat) {
    forall key: Key :: key in ops && key !in outbox && key.uid in mail && key.uid < n ==>
      Get(mail[key.uid], key.flag) == ops[key].value || (!willing && ops[key].attempts + 1 == MAX_FLAG_PUSH_ATTEMPTS)
  }

  lemma {:induction false} CalmPushes(s: Server, a: Server, b: Server, ops: Outbox)
    requires PushesOnly(s, a, ops) && ServerStep(a, b) && Calm(a, b)
    ensures PushesOnly(s, b, ops)
  {
    ServerStepTrans(s, a, b);
    forall u | u in b.mail && u < s.next ensures u in a.mail &&
      a.mail[u] == b.mail[u] { assert Showed(a, b, u, b.mail[u]); }
  }

  lemma {:induction false} PushedFlag(a: Server, key: Key, value: bool, accepted: bool, u: nat, flag: Flag)
    requires u in a.mail
    ensures var b := ServerPush(a, key, value, accepted);
            && u in b.mail && b.mail[u].deleted == a.mail[u].deleted
            && Get(b.mail[u], flag) == if accepted && key == Key(u, flag) then value else Get(a.mail[u], flag)
  {
  }

  lemma {:induction false} PushesAgain(s: Server, a: Server, ops: Outbox, key: Key, accepted: bool)
    requires ServerOk(a) && PushesOnly(s, a, ops) && key in ops
    ensures PushesOnly(s, ServerPush(a, key, ops[key].value, accepted), ops)
  {
    var b := ServerPush(a, key, ops[key].value, accepted);
    ServerPushStep(a, key, ops[key].value, accepted);
    ServerStepTrans(s, a, b);
    assert b.mail.Keys == a.mail.Keys;
    forall u, flag: Flag | u in b.mail && u < s.next
      ensures s.mail[u].deleted == b.mail[u].deleted
      ensures Get(b.mail[u], flag) == Get(s.mail[u], flag)
           || (Key(u, flag) in ops && Get(b.mail[u], flag) == ops[Key(u, flag)].value)
    {
      PushedFlag(a, key, ops[key].value, accepted, u, flag);
    }
  }

  /** A push as the server met it: `mid` before, `c` when it was settled. */
  ghost predicate PushMet(others: Others, a: Server, mid: Server, key: Key, value: bool, accepted: bool, c: Server) {
    var pushed := ServerPush(mid, key, value, accepted);
    ServerOk(mid) && Moved(others, a)(mid) && Moved(others, pushed)(c)
  }

  lemma {:induction false} PushesOnMore(s: Server, a: Server, mid: Server, c: Server, ops: Outbox, key: Key,
                                        accepted: bool)
    requires PushesOnly(s, a, ops) && key in ops && ServerOk(mid) && ServerStep(a, mid) && Calm(a, mid)
    requires var p := ServerPush(mid, key, ops[key].value, accepted); ServerStep(p, c) && Calm(p, c)
    ensures PushesOnly(s, c, ops) && ServerStep(s, a)
  {
    CalmPushes(s, a, mid, ops);
    PushesAgain(s, mid, ops, key, accepted);
    CalmPushes(s, ServerPush(mid, key, ops[key].value, accepted), c, ops);
  }

  lemma {:induction false} FlushedAgain(ops: Outbox, before: Outbox, after: Outbox, todo: set<Key>, key: Key,
                                        accepted: bool)
    requires Flushed(ops, before, todo) && key in todo && after == Settle(before, key, ops[key], accepted)
    ensures Flushed(ops, after, todo - {key}) && after.Keys <= before.Keys
    ensures accepted ==> key !in after
  {
  }

  /** What one push does for `Took`: a calm, the push, a calm. */
  lemma {:induction false} TookAgain(s: Server, a: Server, b: Server, c: Server, ops: Outbox, before: Outbox,
                                     after: Outbox, key: Key, accepted: bool, willing: bool)
    requires ServerStep(s, a) && ServerStep(a, b) && Calm(a, b)
    requires Took(a.mail, ops, before, willing, s.next) && key in ops && key in before
    requires var p := ServerPush(b, key, ops[key].value, accepted); ServerStep(p, c) && Calm(p, c)
    requires ServerOk(b) && after == Settle(before, key, ops[key], accepted)
    requires ops[key].attempts < MAX_FLAG_PUSH_ATTEMPTS && (willing ==> accepted)
    ensures Took(c.mail, ops, after, willing, s.next)
  {
    forall k: Key | k in ops && k !in after && k.uid in c.mail && k.uid < s.next
      ensures Get(c.mail[k.uid], k.flag) == ops[k].value || (!willing && ops[k].attempts + 1 == MAX_FLAG_PUSH_ATTEMPTS)
    {
      CalmPushFlag(a, b, c, key, ops[key].value, accepted, k);
      if k != key { assert k !in before; }
    }
  }

  lemma {:induction false} CalmPushFlag(a: Server, b: Server, c: Server, key: Key, value: bool, accepted: bool, k: Key)
    requires ServerStep(a, b) && Calm(a, b)
    requires var p := ServerPush(b, key, value, accepted); ServerStep(p, c) && Calm(p, c)
    requires k.uid in c.mail && k.uid < a.next
    ensures k.uid in a.mail
    ensures Get(c.mail[k.uid], k.flag) == if accepted && k == key then value else Get(a.mail[k.uid], k.flag)
  {
    var p, u := ServerPush(b, key, value, accepted), k.uid;
    assert p.mail.Keys == b.mail.Keys && p.next == b.next && Key(u, k.flag) == k;
    assert Showed(p, c, u, c.mail[u]);
    assert Showed(a, b, u, b.mail[u]);
    PushedFlag(b, key, value, accepted, u, k.flag);
  }

  /** Every pending edit is in the snapshot, or was made after it. */
  ghost predicate Protected(outbox: Outbox, rows: Rows, pending: set<Key>, raced: set<Key>) {
    forall key: Key :: key in outbox && key.uid in rows ==> key in pending || key in raced
  }

  lemma {:induction false} EnvKeepsProtected(others: Others, a: World, b: World, pending: set<Key>)
    requires Waited(others, a, true)(b) && Protected(a.outbox, a.rows, pending, a.raced)
    ensures Protected(b.outbox, b.rows, pending, b.raced)
  {
    WaitMoves(others, a, b, true);
    forall key: Key | key in b.outbox && key.uid in b.rows ensures key in pending || key in b.raced {
      assert Untouched(a, b, key) || Edited(a, b, key, true);
    }
  }

  /** The message is no longer on the server, and will not be again. */
  predicate Gone(s: Server, u: nat) { u !in s.mail && u < s.next }

  /** `answers` is the server's account of the rows `lo..=hi`: it showed those flags, and
      what it left out is gone. */
  ghost predicate Accounts(w: World, answers: map<nat, Flags>, lo: nat, hi: nat) {
    && (forall u :: u in answers ==> Shown(w.server, u, answers[u]))
    && (forall u :: u in w.rows && lo <= u <= hi && u !in answers ==> Gone(w.server, u))
  }

  lemma {:induction false} EnvKeepsAccount(others: Others, a: World, b: World, answers: map<nat, Flags>, lo: nat,
                                           hi: nat)
    requires Waited(others, a, true)(b) && Accounts(a, answers, lo, hi)
    ensures Accounts(b, answers, lo, hi)
  {
    WaitMoves(others, a, b, true);
    forall u | u in answers ensures Shown(b.server, u, answers[u]) { ShownStays(a.server, b.server, u, answers[u]); }
  }

  /** A reconciliation's transaction keeps the pending edits it knew of, even when
      rows changed since they were read, invents no flag and hides nothing without
      excuse. */
  lemma {:induction false} DiffIsKept(others: Others, a: World, b: World, pending: set<Key>, answer: Answer, lo: nat,
                                      hi: nat, base: nat, cursor: nat)
    requires Waited(others, a, true)(b) && Distinct(answer) && Sound(a, base, cursor) && Safe(b)
    requires Protected(b.outbox, b.rows, pending, b.raced) && Accounts(b, AsMap(answer), lo, hi)
    ensures Kept(b, b.(rows := DiffChunk(b.rows, Within(a.rows, lo, hi), pending, answer)), base, cursor)
  {
    var r := DiffChunk(b.rows, Within(a.rows, lo, hi), pending, answer);
    WaitMoves(others, a, b, true);
    DiffGrows(b.rows, Within(a.rows, lo, hi), pending, answer);
    if Sound(b, base, cursor) {
      forall key: Key | key.uid in r ensures FlagGrounded(r, b.server, b.chosen, key) {
        DiffIsGrounded(a, b, pending, answer, lo, hi, key);
      }
      DiffHolds(a, b, pending, answer, lo, hi, cursor);
      DiffIsExcused(a, b, pending, answer, lo, hi);
    }
    RowsAhead(b, r, base, cursor);
  }

  lemma {:induction false} DiffHolds(a: World, b: World, pending: set<Key>, answer: Answer, lo: nat, hi: nat,
                                     cursor: nat)
    requires EnvStep(a, b, true) && Distinct(answer) && Protected(b.outbox, b.rows, pending, b.raced)
    requires Held(b.rows, b.outbox, b.raced, 1, cursor)
    ensures Held(DiffChunk(b.rows, Within(a.rows, lo, hi), pending, answer), b.outbox, b.raced, 1, cursor)
  {
    var r := DiffChunk(b.rows, Within(a.rows, lo, hi), pending, answer);
    forall key: Key | key in b.outbox && key.uid in r && 1 <= key.uid <= cursor && key !in b.raced
      ensures Get(r[key.uid], key.flag) == b.outbox[key].value
    {
      assert Untouched(a, b, key) || Edited(a, b, key, true);
      DiffKeepsKey(a.rows, b.rows, pending, answer, lo, hi, key);
    }
  }

  lemma {:induction false} DiffIsGrounded(a: World, b: World, pending: set<Key>, answer: Answer, lo: nat, hi: nat,
                                          key: Key)
    requires EnvStep(a, b, true) && Distinct(answer) && Accounts(b, AsMap(answer), lo, hi) && ServerOk(b.server)
    requires Grounded(a.rows, a.server, a.chosen) && Grounded(b.rows, b.server, b.chosen) && key.uid in b.rows
    ensures FlagGrounded(DiffChunk(b.rows, Within(a.rows, lo, hi), pending, answer), b.server, b.chosen, key)
  {
    var r := DiffChunk(b.rows, Within(a.rows, lo, hi), pending, answer);
    WriteAt(b.rows, Within(a.rows, lo, hi), pending, answer, key.uid);
    AsMapAt(answer, key.uid);
    assert FlagGrounded(a.rows, a.server, a.chosen, key) && FlagGrounded(b.rows, b.server, b.chosen, key);
    var v := Get(r[key.uid], key.flag);
    if v == Get(b.rows[key.uid], key.flag) {
      FlagStaysGrounded(b.rows, r, b.server, b.server, b.chosen, b.chosen, key) by { ServerStepStays(b.server); }
    } else if v == Get(a.rows[key.uid], key.flag) {
      FlagStaysGrounded(a.rows, r, a.server, b.server, a.chosen, b.chosen, key);
    } else {
      assert Shown(b.server, key.uid, Find(answer, key.uid).value);
    }
  }

  lemma {:induction false} DiffIsExcused(a: World, b: World, pending: set<Key>, answer: Answer, lo: nat, hi: nat)
    requires EnvStep(a, b, true) && Distinct(answer) && Accounts(b, AsMap(answer), lo, hi)
    requires Excused(b.rows, b.server, b.hid)
    ensures Excused(DiffChunk(b.rows, Within(a.rows, lo, hi), pending, answer), b.server, b.hid)
  {
    var r := DiffChunk(b.rows, Within(a.rows, lo, hi), pending, answer);
    forall u | u in r && r[u].deleted ensures u in b.hid || u !in b.server.mail || WasDeleted(b.server, u) {
      WriteAt(b.rows, Within(a.rows, lo, hi), pending, answer, u);
      AsMapAt(answer, u);
      if !b.rows[u].deleted && Find(answer, u).Some? { assert Shown(b.server, u, Find(answer, u).value); }
    }
  }

  lemma {:induction false} DiffGrows(rows: Rows, stored: Rows, pending: set<Key>, answer: Answer)
    requires Distinct(answer)
    ensures var r := DiffChunk(rows, stored, pending, answer); r.Keys == rows.Keys && Grows(rows, r)
  {
    forall u | u in rows && rows[u].deleted ensures DiffChunk(rows, stored, pending, answer)[u].deleted {
      WriteAt(rows, stored, pending, answer, u);
    }
  }

  /** Whatever the user does meanwhile: a flag ends as in the naive pass, or was edited,
      and a row ends hidden as in the pass, or the user hid it. */
  ghost predicate PassedAmid(a: World, b: World, naive: Rows) {
    && naive.Keys == a.rows.Keys == b.rows.Keys
    && (forall u :: u in naive && naive[u].deleted ==> b.rows[u].deleted)
    && (forall u :: u in naive && b.rows[u].deleted ==> naive[u].deleted || u in b.hid)
    && a.hid <= b.hid && (forall key: Key :: key.uid in a.rows ==> PassedAt(a, b, naive, key))
  }

  /** `PassedAmid` from `a`, as a property of the state reached. */
  ghost function AmidFrom(a: World, naive: Rows): World -> bool { (b: World) => PassedAmid(a, b, naive) }

  ghost predicate PassedAt(a: World, b: World, naive: Rows, key: Key)
    requires key.uid in naive && key.uid in b.rows
  {
    || EditedSince(a, b, key)
    || (SameEntry(a.outbox, b.outbox, key) && Edits(a, key) == Edits(b, key)
        && Get(b.rows[key.uid], key.flag) == Get(naive[key.uid], key.flag))
  }

  lemma {:induction false} NothingPassed(a: World, pending: set<Key>)
    ensures AmidFrom(a, NaivePass(a.rows, pending, map[], 1, 0))(a)
  {
  }

  lemma {:induction false} EnvStepStays(a: World, racing: bool)
    requires ServerOk(a.server)
    ensures EnvStep(a, a, racing) && Calm(a.server, a.server)
    ensures forall others :: Waited(others, a, racing)(a)
  {
    ServerStepStays(a.server);
    forall others ensures Waited(others, a, racing)(a) { assert Waits(others, a, a, racing); }
  }

  lemma {:induction false} NoDifferences(rows: Rows)
    ensures HideAll(WriteFlags(rows, []), {}) == rows
  {
  }

  /** A chunk: the flags are fetched, `read` is read, and the differences are written
      over what the rows are by then, with edits allowed all along. */
  lemma {:induction false} ChunkAmid(others: Others, a: World, read: World, c: World, pending: set<Key>, answer: Answer,
                                     lo: nat, hi: nat)
    requires Distinct(answer) && Waited(others, a, true)(read) && Waited(others, read, true)(c)
    ensures AmidFrom(a, NaivePass(a.rows, pending, AsMap(answer), lo, hi))(
              c.(rows := DiffChunk(c.rows, Within(read.rows, lo, hi), pending, answer)))
  {
    var d := c.(rows := DiffChunk(c.rows, Within(read.rows, lo, hi), pending, answer));
    var naive := NaivePass(a.rows, pending, AsMap(answer), lo, hi);
    ChunkKeys(others, a, read, c, d, naive, pending, answer, lo, hi);
    ChunkFlags(others, a, read, c, d, naive, pending, answer, lo, hi);
    ChunkRows(others, a, read, c, d, naive, pending, answer, lo, hi);
    IsAmid(a, d, naive);
  }

  lemma {:induction false} ChunkKeys(others: Others, a: World, read: World, c: World, d: World, naive: Rows,
                                     pending: set<Key>, answer: Answer, lo: nat, hi: nat)
    requires Distinct(answer) && Waited(others, a, true)(read) && Waited(others, read, true)(c)
    requires d == c.(rows := DiffChunk(c.rows, Within(read.rows, lo, hi), pending, answer))
    requires naive == NaivePass(a.rows, pending, AsMap(answer), lo, hi)
    ensures naive.Keys == a.rows.Keys == d.rows.Keys && a.hid <= d.hid
  {
    WaitMoves(others, a, read, true);
    WaitMoves(others, read, c, true);
  }

  lemma {:induction false} ChunkFlags(others: Others, a: World, read: World, c: World, d: World, naive: Rows,
                                      pending: set<Key>, answer: Answer, lo: nat, hi: nat)
    requires Distinct(answer) && Waited(others, a, true)(read) && Waited(others, read, true)(c)
    requires d == c.(rows := DiffChunk(c.rows, Within(read.rows, lo, hi), pending, answer))
    requires naive == NaivePass(a.rows, pending, AsMap(answer), lo, hi)
    requires naive.Keys == a.rows.Keys == d.rows.Keys
    ensures forall key: Key :: key.uid in a.rows ==> PassedAt(a, d, naive, key)
  {
    forall key: Key | key.uid in a.rows ensures PassedAt(a, d, naive, key) {
      ChunkAmidAt(others, a, read, c, pending, answer, lo, hi, key);
    }
  }

  lemma {:induction false} ChunkRows(others: Others, a: World, read: World, c: World, d: World, naive: Rows,
                                     pending: set<Key>, answer: Answer, lo: nat, hi: nat)
    requires Distinct(answer) && Waited(others, a, true)(read) && Waited(others, read, true)(c)
    requires d == c.(rows := DiffChunk(c.rows, Within(read.rows, lo, hi), pending, answer))
    requires naive == NaivePass(a.rows, pending, AsMap(answer), lo, hi) && naive.Keys == d.rows.Keys
    ensures forall u :: u in naive ==>
      (naive[u].deleted ==> d.rows[u].deleted) && (d.rows[u].deleted ==> naive[u].deleted || u in d.hid)
  {
    forall u | u in naive
      ensures (naive[u].deleted ==> d.rows[u].deleted) && (d.rows[u].deleted ==> naive[u].deleted || u in d.hid)
    {
      ChunkHidesAmid(others, a, read, c, pending, answer, lo, hi, u);
    }
  }

  lemma {:induction false} IsAmid(a: World, d: World, naive: Rows)
    requires naive.Keys == a.rows.Keys == d.rows.Keys && a.hid <= d.hid
    requires forall key: Key :: key.uid in a.rows ==> PassedAt(a, d, naive, key)
    requires forall u :: u in naive ==>
      (naive[u].deleted ==> d.rows[u].deleted) && (d.rows[u].deleted ==> naive[u].deleted || u in d.hid)
    ensures AmidFrom(a, naive)(d)
  {
    assert PassedAmid(a, d, naive);
  }

  lemma {:induction false} ChunkHidesAmid(others: Others, a: World, read: World, c: World, pending: set<Key>,
                                          answer: Answer, lo: nat, hi: nat, u: nat)
    requires Distinct(answer) && Waited(others, a, true)(read) && Waited(others, read, true)(c) && u in a.rows
    ensures u in c.rows
    ensures var d := DiffChunk(c.rows, Within(read.rows, lo, hi), pending, answer)[u].deleted;
            var naive := NaivePass(a.rows, pending, AsMap(answer), lo, hi)[u].deleted;
            (naive ==> d) && (d ==> naive || u in c.hid)
  {
    WaitMoves(others, a, read, true);
    WaitMoves(others, read, c, true);
    ChunkHides(a.rows, read.rows, c.rows, c.hid, pending, answer, lo, hi, u);
  }

  lemma {:induction false} ChunkAmidAt(others: Others, a: World, read: World, c: World, pending: set<Key>,
                                       answer: Answer, lo: nat, hi: nat, key: Key)
    requires Distinct(answer) && Waited(others, a, true)(read) && Waited(others, read, true)(c) && key.uid in a.rows
    ensures key.uid in c.rows
    ensures PassedAt(a, c.(rows := DiffChunk(c.rows, Within(read.rows, lo, hi), pending, answer)),
                     NaivePass(a.rows, pending, AsMap(answer), lo, hi), key)
  {
    WaitMoves(others, a, read, true);
    WaitMoves(others, read, c, true);
    assert Untouched(a, read, key) || Edited(a, read, key, true);
    assert Untouched(read, c, key) || Edited(read, c, key, true);
    if Untouched(a, read, key) && Untouched(read, c, key) {
      ChunkFlag(a.rows, read.rows, c.rows, pending, answer, lo, hi, key);
    }
  }

  lemma {:induction false} ChunkHides(a: Rows, read: Rows, c: Rows, hid: set<nat>, pending: set<Key>, answer: Answer,
                                      lo: nat, hi: nat, u: nat)
    requires Distinct(answer) && u in a && u in read && u in c
    requires (a[u].deleted ==> read[u].deleted) && (read[u].deleted ==> c[u].deleted)
    requires c[u].deleted ==> a[u].deleted || u in hid
    ensures var naive := NaivePass(a, pending, AsMap(answer), lo, hi)[u].deleted;
            var written := DiffChunk(c, Within(read, lo, hi), pending, answer)[u].deleted;
            (naive ==> written) && (written ==> naive || u in hid)
  {
    WriteAt(c, Within(read, lo, hi), pending, answer, u);
    AsMapAt(answer, u);
  }

  lemma {:induction false} ChunkFlag(a: Rows, read: Rows, c: Rows, pending: set<Key>, answer: Answer, lo: nat,
                                     hi: nat, key: Key)
    requires Distinct(answer) && key.uid in a && key.uid in read && key.uid in c
    requires Get(a[key.uid], key.flag) == Get(read[key.uid], key.flag) == Get(c[key.uid], key.flag)
    ensures Get(DiffChunk(c, Within(read, lo, hi), pending, answer)[key.uid], key.flag)
         == Get(NaivePass(a, pending, AsMap(answer), lo, hi)[key.uid], key.flag)
  {
    assert key == Key(key.uid, key.flag);
    WriteAt(c, Within(read, lo, hi), pending, answer, key.uid);
    AsMapAt(answer, key.uid);
  }

  lemma {:induction false} PassesAmidJoin(a: World, b: World, c: World, pending: set<Key>, answers: map<nat, Flags>,
                                          more: map<nat, Flags>, mid: nat, lo: nat, hi: nat)
    requires lo == mid + 1 && lo <= hi && (forall u :: u in answers ==> u <= mid) && (forall u :: u in more ==> mid < u)
    requires AmidFrom(a, NaivePass(a.rows, pending, answers, 1, mid))(b)
    requires AmidFrom(b, NaivePass(b.rows, pending, more, lo, hi))(c)
    ensures AmidFrom(a, NaivePass(a.rows, pending, answers + more, 1, hi))(c)
  {
    var first, second := NaivePass(a.rows, pending, answers, 1, mid), NaivePass(b.rows, pending, more, lo, hi);
    var naive := NaivePass(a.rows, pending, answers + more, 1, hi);
    forall key: Key | key.uid in a.rows ensures PassedAt(a, c, naive, key) {
      assert PassedAt(a, b, first, key) && PassedAt(b, c, second, key);
      if !EditedSince(a, c, key) { PassesJoinAt(a.rows, b.rows, pending, answers, more, mid, lo, hi, key); }
    }
    forall u | u in naive
      ensures naive[u].deleted ==> c.rows[u].deleted
      ensures c.rows[u].deleted ==> naive[u].deleted || u in c.hid
    {
      PassesJoinHides(a.rows, b.rows, pending, answers, more, mid, lo, hi, u);
    }
  }

  lemma {:induction false} PassesJoinAt(a: Rows, b: Rows, pending: set<Key>, answers: map<nat, Flags>,
                                        more: map<nat, Flags>,
                                        mid: nat, lo: nat, hi: nat, key: Key)
    requires lo == mid + 1 && lo <= hi && (forall u :: u in answers ==> u <= mid) && (forall u :: u in more ==> mid < u)
    requires key.uid in a && key.uid in b
    requires Get(b[key.uid], key.flag) == Get(NaivePass(a, pending, answers, 1, mid)[key.uid], key.flag)
    ensures Get(NaivePass(b, pending, more, lo, hi)[key.uid], key.flag)
         == Get(NaivePass(a, pending, answers + more, 1, hi)[key.uid], key.flag)
  {
    assert key == Key(key.uid, key.flag);
  }

  lemma {:induction false} PassesJoinHides(a: Rows, b: Rows, pending: set<Key>, answers: map<nat, Flags>,
                                           more: map<nat, Flags>,
                                           mid: nat, lo: nat, hi: nat, u: nat)
    requires lo == mid + 1 && lo <= hi && (forall u :: u in answers ==> u <= mid) && (forall u :: u in more ==> mid < u)
    requires u in a && u in b
    ensures var one := NaivePass(a, pending, answers + more, 1, hi)[u].deleted;
            var first := NaivePass(a, pending, answers, 1, mid)[u].deleted;
            var second := NaivePass(b, pending, more, lo, hi)[u].deleted;
            && (one && (first ==> b[u].deleted) ==> second)
            && (second && (b[u].deleted ==> first) ==> one)
            && (second && !b[u].deleted ==> one)
  {
  }

  /** `answers` for `lo..=hi` are flags the server showed on the way from `a` to `b`. */
  ghost predicate Told(a: Server, b: Server, answers: map<nat, Flags>, lo: nat, hi: nat) {
    forall u :: u in answers ==> lo <= u <= hi && Showed(a, b, u, answers[u])
  }

  /** … and leave out no message that was there at `a` and still is at `b`. */
  ghost predicate InFull(a: Server, b: Server, answers: map<nat, Flags>, lo: nat, hi: nat) {
    forall u :: u in b.mail && lo <= u <= hi && u < a.next ==> u in answers
  }

  lemma {:induction false} ToldLater(a: Server, b: Server, c: Server, answers: map<nat, Flags>, lo: nat, hi: nat)
    requires ServerStep(a, b) && ServerStep(b, c) && (Told(a, b, answers, lo, hi) || Told(b, c, answers, lo, hi))
    ensures Told(a, c, answers, lo, hi)
    ensures InFull(a, b, answers, lo, hi) || InFull(b, c, answers, lo, hi) ==> InFull(a, c, answers, lo, hi)
  {
    forall u | u in answers ensures lo <= u <= hi && Showed(a, c, u, answers[u]) {
      ShowedLater(a, b, c, u, answers[u]);
    }
  }

  lemma {:induction false} ListingIsTold(a: Server, m: Server, b: Server, lo: nat, hi: nat)
    requires ServerStep(a, m) && ServerStep(m, b)
    ensures Told(a, b, Within(m.mail, lo, hi), lo, hi) && InFull(a, b, Within(m.mail, lo, hi), lo, hi)
  {
    ToldLater(a, m, b, Within(m.mail, lo, hi), lo, hi);
  }

  /** When only mail comes and goes, answers are the server's flags before and after. */
  lemma {:induction false} CalmAnswers(a: Server, b: Server, answers: map<nat, Flags>, lo: nat, hi: nat)
    requires Calm(a, b) && Told(a, b, answers, lo, hi)
    ensures forall u :: u in answers && u < a.next ==> u in a.mail && a.mail[u] == answers[u]
    ensures forall u :: u in answers && u in b.mail ==> b.mail[u] == answers[u]
  {
    forall u | u in answers
      ensures u < a.next ==> u in a.mail && a.mail[u] == answers[u]
      ensures u in b.mail ==> b.mail[u] == answers[u]
    {
      assert Showed(a, b, u, answers[u]);
    }
  }

  /** Rows `lo..=hi` have been passed over with `answers`, which are the server's: as in
      the naive pass, edits made meanwhile apart. */
  ghost predicate Passed(a: World, b: World, pending: set<Key>, answers: map<nat, Flags>, lo: nat, hi: nat,
                         others: Others) {
    && b.rows.Keys == a.rows.Keys && b.notified == a.notified
    && Moved(others, a.server)(b.server)
    && Told(a.server, b.server, answers, lo, hi) && InFull(a.server, b.server, answers, lo, hi)
    && AmidFrom(a, NaivePass(a.rows, pending, answers, lo, hi))(b)
    && (!others.Everyone? ==> b == a.(server := b.server, rows := NaivePass(a.rows, pending, answers, lo, hi)))
  }

  /** `Passed` from `a`, as a property of the state reached. */
  ghost function PassedFrom(a: World, pending: set<Key>, answers: map<nat, Flags>, lo: nat, hi: nat,
                            others: Others): World -> bool {
    (b: World) => Passed(a, b, pending, answers, lo, hi, others)
  }

  lemma {:induction false} PassedTrans(a: World, b: World, c: World, pending: set<Key>, answers: map<nat, Flags>,
                                       more: map<nat, Flags>, mid: nat, lo: nat, hi: nat, others: Others)
    requires lo == mid + 1 && lo <= hi && PassedFrom(a, pending, answers, 1, mid, others)(b)
    requires PassedFrom(b, pending, more, lo, hi, others)(c)
    ensures PassedFrom(a, pending, answers + more, 1, hi, others)(c)
  {
    assert Passed(a, b, pending, answers, 1, mid, others) && Passed(b, c, pending, more, lo, hi, others);
    PassedJoin(a, b, c, pending, answers, more, mid, lo, hi, others);
  }

  lemma {:induction false} PassedJoin(a: World, b: World, c: World, pending: set<Key>, answers: map<nat, Flags>,
                                      more: map<nat, Flags>, mid: nat, lo: nat, hi: nat, others: Others)
    requires lo == mid + 1 && lo <= hi && Passed(a, b, pending, answers, 1, mid, others)
    requires Passed(b, c, pending, more, lo, hi, others)
    ensures Passed(a, c, pending, answers + more, 1, hi, others)
  {
    if !others.Everyone? { NaivePassesJoin(a.rows, pending, answers, more, 1, mid, lo, hi); }
    MovedTrans(others, a.server, b.server, c.server);
    ToldJoin(a.server, b.server, c.server, answers, more, mid, lo, hi);
    PassesAmidJoin(a, b, c, pending, answers, more, mid, lo, hi);
  }

  lemma {:induction false} ToldJoin(a: Server, b: Server, c: Server, answers: map<nat, Flags>, more: map<nat, Flags>,
                                    mid: nat, lo: nat, hi: nat)
    requires ServerStep(a, b) && ServerStep(b, c) && lo == mid + 1 && lo <= hi
    requires Told(a, b, answers, 1, mid) && InFull(a, b, answers, 1, mid)
    requires Told(b, c, more, lo, hi) && InFull(b, c, more, lo, hi)
    ensures Told(a, c, answers + more, 1, hi) && InFull(a, c, answers + more, 1, hi)
  {
    ToldLater(a, b, c, answers, 1, mid);
    ToldLater(a, b, c, more, lo, hi);
  }

  /** A wait after a pass changes nothing of it. */
  lemma {:induction false} PassedWait(a: World, b: World, c: World, pending: set<Key>, answers: map<nat, Flags>,
                                      lo: nat, hi: nat, others: Others)
    requires PassedFrom(a, pending, answers, lo, hi, others)(b) && Waited(others, b, true)(c)
    ensures PassedFrom(a, pending, answers, lo, hi, others)(c)
  {
    assert Passed(a, b, pending, answers, lo, hi, others);
    WaitMoves(others, b, c, true);
    OnlyTheServerRacing(others, b, c);
    MovedTrans(others, a.server, b.server, c.server);
    ToldLater(a.server, b.server, c.server, answers, lo, hi);
    AmidWait(others, a, b, c, NaivePass(a.rows, pending, answers, lo, hi));
  }

  lemma {:induction false} OnlyTheServerRacing(others: Others, a: World, b: World)
    requires Waited(others, a, true)(b)
    ensures !others.Everyone? ==> b == a.(server := b.server)
  {
    assert Waits(others, a, b, true);
  }

  lemma {:induction false} AmidWait(others: Others, a: World, b: World, c: World, naive: Rows)
    requires AmidFrom(a, naive)(b) && Waited(others, b, true)(c)
    ensures AmidFrom(a, naive)(c)
  {
    assert PassedAmid(a, b, naive);
    WaitMoves(others, b, c, true);
    forall key: Key | key.uid in a.rows ensures PassedAt(a, c, naive, key) {
      assert PassedAt(a, b, naive, key) && (Untouched(b, c, key) || Edited(b, c, key, true));
    }
    assert PassedAmid(a, c, naive);
  }

  lemma {:induction false} PassStarts(a: World, pending: set<Key>, others: Others)
    requires ServerOk(a.server)
    ensures PassedFrom(a, pending, map[], 1, 0, others)(a)
  {
    NothingPassed(a, pending);
    ServerStepStays(a.server);
    assert NaivePass(a.rows, pending, map[], 1, 0) == a.rows;
  }

  /** One chunk's steps, put together. */
  lemma {:induction false} ChunkIsPassed(a: World, m: World, read: World, c: World, d: World, pending: set<Key>,
                                         answer: Answer, lo: nat, hi: nat, others: Others)
    requires Distinct(answer) && AsMap(answer) == Within(m.server.mail, lo, hi)
    requires Waited(others, a, true)(m) && Waited(others, m, true)(read) && Waited(others, read, true)(c)
    requires d == c.(rows := DiffChunk(c.rows, Within(read.rows, lo, hi), pending, answer))
    requires !others.Everyone? ==>
      d == a.(server := d.server, rows := NaivePass(a.rows, pending, AsMap(answer), lo, hi))
    ensures PassedFrom(a, pending, AsMap(answer), lo, hi, others)(d)
  {
    WaitedTwice(others, a, m, read, true);
    WaitedTwice(others, m, read, c, true);
    WaitMoves(others, a, m, true);
    WaitMoves(others, m, c, true);
    WaitMoves(others, a, read, true);
    WaitMoves(others, read, c, true);
    MovedTrans(others, a.server, m.server, c.server);
    ListingIsTold(a.server, m.server, c.server, lo, hi);
    ChunkAmid(others, a, read, c, pending, answer, lo, hi);
  }

  /** The rows up to `hi` have UIDs that the server has given out. */
  ghost predicate Given(w: World, hi: nat) { forall u :: u in w.rows && u <= hi ==> u < w.server.next }

  /** `answers` are flags the server has shown, on UIDs it has given out. */
  ghost predicate Sent(s: Server, answers: map<nat, Flags>, hi: nat) {
    hi < s.next && forall u :: u in answers ==> Shown(s, u, answers[u])
  }

  lemma {:induction false} SentStays(a: Server, b: Server, answers: map<nat, Flags>, hi: nat)
    requires ServerStep(a, b) && Sent(a, answers, hi)
    ensures Sent(b, answers, hi)
  {
    forall u | u in answers ensures Shown(b, u, answers[u]) { ShownStays(a, b, u, answers[u]); }
  }

  lemma {:induction false} ListingIsSent(s: Server, lo: nat, hi: nat, omit: set<nat>)
    requires hi < s.next
    ensures Sent(s, AsMap(Listing(s.mail, lo, hi, omit)), hi)
  {
    var msgs := Listing(s.mail, lo, hi, omit);
    ListingDistinct(s.mail, lo, hi, omit);
    forall u | u in AsMap(msgs) ensures Shown(s, u, AsMap(msgs)[u]) {
      AsMapAt(msgs, u);
      ListingAt(s.mail, lo, hi, omit, u);
    }
  }

  /** An answer accounts for the rows whose UIDs have been given out. */
  lemma {:induction false} ListingAccounts(w: World, answer: Answer, lo: nat, hi: nat)
    requires AsMap(answer) == Within(w.server.mail, lo, hi) && Given(w, hi)
    ensures Accounts(w, AsMap(answer), lo, hi)
  {
  }

  lemma {:induction false} ListingBounds(mail: map<nat, Flags>, lo: nat, hi: nat, omit: set<nat>)
    ensures forall u :: u in AsMap(Listing(mail, lo, hi, omit)) ==> lo <= u <= hi
  {
    forall u | u in AsMap(Listing(mail, lo, hi, omit)) ensures lo <= u <= hi {
      AsMapAt(Listing(mail, lo, hi, omit), u);
      ListingAt(mail, lo, hi, omit, u);
    }
  }

  lemma {:induction false} ListingIsWithin(mail: map<nat, Flags>, lo: nat, hi: nat)
    ensures AsMap(Listing(mail, lo, hi, {})) == Within(mail, lo, hi)
  {
    ListingDistinct(mail, lo, hi, {});
    var m := AsMap(Listing(mail, lo, hi, {}));
    forall u ensures (u in m <==> u in Within(mail, lo, hi)) && (u in m ==> m[u] == mail[u]) {
      AsMapAt(Listing(mail, lo, hi, {}), u);
      ListingAt(mail, lo, hi, {}, u);
    }
  }
}
