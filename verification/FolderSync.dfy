/** Synchronising one mail folder: outbox flush, flag reconciliation, chunked walk
    over new UIDs. Every await consumes one turn of `script`, which may cut the task
    there, so what a method promises on return holds at every state the sync ever
    commits, whatever the server and the user do meanwhile. What is not done was cut,
    or the script ran out (`Stepped`). */
module FolderSync {
  import opened Basics
  import opened Mailbox
  import opened FlagReconcile
  import opened UidWalk
  import opened SyncState
  import opened FlagSync
  import opened MailWalk
  import opened MailTheorems

  class Folder {
    const kind: ProviderKind
    const notifyAllowed: bool
    const others: Others         // who acts while the sync waits
    const willing: bool          // the server accepts every push

    const script: seq<Turn>      // what happens at each await

    var world: World             // message rows, outbox, server, histories
    var cursor: nat              // last_uid; NULL is 0
    var epoch: Option<nat>       // uidvalidity
    var at: nat                  // how many awaits there have been
    ghost var base: nat          // the first UID this epoch's walk looked at

    constructor (kind: ProviderKind, notifyAllowed: bool, server: Server, script: seq<Turn>, others: Others,
                 willing: bool)
      requires ServerOk(server)
      ensures world == World(server, map[], map[], [], {}, map[], {}, {}) && this.script == script && at == 0
      ensures cursor == 0 && base == 1 && epoch.None?
      ensures this.kind == kind && this.notifyAllowed == notifyAllowed
      ensures this.others == others && this.willing == willing
      ensures Inv()
    {
      this.kind, this.notifyAllowed, this.script := kind, notifyAllowed, script;
      this.others, this.willing := others, willing;
      world, cursor, epoch, base, at := World(server, map[], map[], [], {}, map[], {}, {}), 0, None, 1, 0;
    }

    /** What holds at every committed state. */
    ghost predicate Inv()
      reads this
    {
      Committed(epoch, base, cursor)(world)
    }

    /** Let the world move, or be cut off. */
    method Await(racing: bool) returns (turn: Turn)
      requires ServerOk(world.server)
      modifies this`world, this`at
      ensures Waited(others, old(world), racing)(world)
      ensures turn.Go? && others.MailOnly? ==> turn.omit == {}
      ensures turn.Go? && willing ==> turn.accept
      ensures Stepped(script, old(at), 1, turn.Go?)(at)
      ensures turn.Go? ==> old(at) < |script| && script[old(at)].Go? && at == old(at) + 1
      ensures turn.Go? ==> world == ReactAll(old(world), Allowed(script[old(at)].events, others), racing)
    {
      EnvStepStays(world, racing);
      if |script| <= at { return Cut; }
      turn := script[at];
      at := at + 1;
      if turn.Go? {
        var events := Allowed(turn.events, others);
        ReactAllStep(world, events, racing);
        if !others.Everyone? { AllowedSteps(world, events, racing, others); }
        world := ReactAll(world, events, racing);
        turn := turn.(accept := turn.accept || willing, omit := if others.MailOnly? then {} else turn.omit);
      }
    }

    /** `Await`, for any property that waiting keeps. */
    method Pause(ghost inv: World -> bool) returns (turn: Turn)
      requires Stable(inv, base, cursor) && inv(world)
      modifies this`world, this`at
      ensures inv(world) && Waited(others, old(world), false)(world)
      ensures turn.Go? && others.MailOnly? ==> turn.omit == {}
      ensures turn.Go? && willing ==> turn.accept
      ensures Stepped(script, old(at), 1, turn.Go?)(at) && (turn.Go? ==> at == old(at) + 1)
    {
      StableIsSafe(inv, world, base, cursor);
      turn := Await(false);
      WaitIsKept(others, old(world), world, false, base, cursor);
    }

    // ---- flush -----------------------------------------------------------

    /** One push and its bookkeeping: the entry is gone or has one more attempt than it
        was read with, any other is as it was or was edited. `mid` is the server that
        the push met. */
    method PushOne(key: Key, op: Op, ghost inv: World -> bool) returns (done: bool, accepted: bool, ghost mid: Server)
      requires Stable(inv, base, cursor) && inv(world)
      modifies this`world, this`at
      ensures inv(world) && world.rows.Keys == old(world).rows.Keys && world.notified == old(world).notified
      ensures PushedOnceBy(others, old(world), key, op, done, accepted, mid)(world)
      ensures willing && done ==> accepted
      ensures Stepped(script, old(at), 2, done)(at) && (done ==> at == old(at) + 2)
    {
      accepted, mid := false, world.server;
      var turn := Pause(inv);
      StepsFew(script, old(at), at, 1, 2, turn.Go?);
      CutBeforePush(others, old(world), world, key, op, accepted, mid);
      if turn.Cut? { return false, accepted, mid; }
      accepted, mid := turn.accept, world.server;
      StableIsSafe(inv, world, base, cursor);
      PushIsKept(world, base, cursor, key, op, accepted);
      ghost var b := world;
      world := world.(server := ServerPush(world.server, key, op.value, accepted));
      ghost var i := at;
      turn := Pause(inv);
      StepsOn(script, old(at), i, at, 1, 1, 2, turn.Go?);
      if turn.Cut? {
        CutAfterPush(others, old(world), b, world, key, op, accepted, mid);
        return false, accepted, mid;
      }
      PushSettles(others, old(world), b, world, key, op, accepted);
      StableIsSafe(inv, world, base, cursor);
      SettleIsKept(world, base, cursor, key, op, accepted);
      world := world.(outbox := Settle(world.outbox, key, op, accepted));
      return true, accepted, mid;
    }

    /** Push the queued flag changes; each entry read is afterwards gone, has one more
        attempt on record, or was edited meanwhile. When cut, `left` is still to be pushed. */
    method FlushPendingFlags(ghost inv: World -> bool) returns (done: bool, ghost left: set<Key>)
      requires Stable(inv, base, cursor) && inv(world)
      modifies this`world, this`at
      ensures inv(world) && world.rows.Keys == old(world).rows.Keys && world.notified == old(world).notified
      ensures FlushingFrom(others, willing, old(world), left)(world) && (done <==> left == {})
      ensures Stepped(script, old(at), FlushAwaits(old(world).outbox), done)(at)
    {
      var ops := world.outbox;
      StableIsSafe(inv, world, base, cursor);
      FlushStarts(others, willing, world);
      var todo := ops.Keys;
      ghost var n, all: nat := 0, FlushAwaits(world.outbox);
      StepsNone(script, at, n);
      while todo != {}
        invariant todo <= ops.Keys && n + 2 * |todo| == all
        invariant inv(world) && world.rows.Keys == old(world).rows.Keys && world.notified == old(world).notified
        invariant FlushingFrom(others, willing, old(world), todo)(world)
        invariant Stepped(script, old(at), n, true)(at)
      {
        var key :| key in todo;
        var ok := PushNext(key, ops[key], inv, old(world), todo, old(at), n, n + 2, all);
        if !ok { return false, todo; }
        todo, n := todo - {key}, n + 2;
      }
      StepsFew(script, old(at), at, n, all, true);
      return true, {};
    }

    /** One of the entries still `todo` of a flush that began at `start`. */
    method PushNext(key: Key, op: Op, ghost inv: World -> bool, ghost start: World, ghost todo: set<Key>,
                    ghost from: nat, ghost n: nat, ghost next: nat, ghost all: nat)
      returns (done: bool)
      requires Stable(inv, base, cursor) && inv(world) && Budget(start.outbox)
      requires Stepped(script, from, n, true)(at) && n + 2 == next <= all
      requires FlushingFrom(others, willing, start, todo)(world) && key in todo
      requires key in start.outbox && op == start.outbox[key]
      modifies this`world, this`at
      ensures inv(world) && world.rows.Keys == old(world).rows.Keys && world.notified == old(world).notified
      ensures FlushingFrom(others, willing, start, if done then todo - {key} else todo)(world)
      ensures Stepped(script, from, if done then next else all, done)(at)
    {
      ghost var accepted, mid;
      ghost var i := at;
      done, accepted, mid := PushOne(key, op, inv);
      StepsOn(script, from, i, at, n, 2, next, done);
      StepsFew(script, from, at, next, all, done);
      if done {
        FlushGoesOn(others, willing, start, old(world), world, todo, key, accepted, mid);
      } else {
        FlushCut(others, willing, start, old(world), world, todo, key, accepted, mid);
      }
    }

    /** Ten completed flushes: what is left in the outbox, the user edited meanwhile. */
    method FlushTenTimes(ghost inv: World -> bool) returns (done: bool)
      requires Stable(inv, base, cursor) && inv(world)
      modifies this`world, this`at
      ensures inv(world) && world.rows.Keys == old(world).rows.Keys
      ensures done ==> forall key :: key in world.outbox ==> EditedSince(old(world), world, key)
      ensures exists n: nat :: Stepped(script, old(at), n, done)(at)
    {
      StableIsSafe(inv, world, base, cursor);
      assert FlushedTimes(world, world, 0);
      ghost var n: nat := 0;
      StepsNone(script, at, n);
      for i := 0 to MAX_FLAG_PUSH_ATTEMPTS
        invariant inv(world) && world.rows.Keys == old(world).rows.Keys
        invariant FlushedTimesFrom(old(world), i)(world)
        invariant Stepped(script, old(at), n, true)(at)
      {
        ghost var w, j, left := world, at, {};
        done, left := FlushPendingFlags(inv);
        StepsOn(script, old(at), j, at, n, FlushAwaits(w.outbox), n + FlushAwaits(w.outbox), done);
        n := n + FlushAwaits(w.outbox);
        if !done { return; }
        FlushedOnceMore(others, willing, old(world), w, world, i);
      }
      FlushedOften(old(world), world);
      done := true;
    }

    // ---- flag reconciliation ---------------------------------------------

    /** Reconcile the rows `1..=upTo` with the server's flags, chunk by chunk: one naive
        pass with all answers, which are the server's, edits made meanwhile apart. When cut,
        it has come to `passed`. */
    method ReconcileFlags(upTo: u32, ghost inv: World -> bool)
      returns (done: bool, ghost answers: map<nat, Flags>, ghost passed: nat)
      requires Stable(inv, base, cursor) && SoundBy(inv, base, cursor) && inv(world) && Given(world, upTo)
      modifies this`world, this`at
      ensures inv(world) && passed <= upTo && (done ==> passed == upTo)
      ensures PassedFrom(old(world), old(world).outbox.Keys, answers, 1, passed, others)(world)
      ensures Stepped(script, old(at), ReconcileAwaits(upTo), done)(at)
    {
      var pending := world.outbox.Keys;
      answers, passed := map[], 0;
      StableIsSafe(inv, world, base, cursor);
      PassStarts(world, pending, others);
      StepsNone(script, at, 0);
      var start: u32 := 1;
      while start <= upTo
        invariant start == passed + 1 && passed <= upTo
        invariant inv(world) && Protected(world.outbox, world.rows, pending, world.raced) && Given(world, upTo)
        invariant PassedFrom(old(world), pending, answers, 1, passed, others)(world)
        invariant Stepped(script, old(at), ReconcileAwaits(passed), true)(at)
      {
        var end := ChunkEnd(start, FLAG_CHUNK, upTo);
        ghost var i := at;
        done, answers := ReconcileNext(start, end, pending, answers, inv, old(world), passed, upTo);
        StepsOn(script, old(at), i, at, ReconcileAwaits(passed), 3, ReconcileAwaits(end), done);
        if !done {
          StepsFew(script, old(at), at, ReconcileAwaits(end), ReconcileAwaits(upTo), done);
          return;
        }
        passed := end;
        if end >= upTo {
          assert passed == upTo;
          return;
        }
        start := end + 1;
      }
      assert passed == upTo;
      done := true;
    }

    method ReconcileNext(lo: u32, hi: u32, pending: set<Key>, ghost answers: map<nat, Flags>, ghost inv: World -> bool,
                         ghost start: World, ghost passed: nat, ghost upTo: nat)
      returns (done: bool, ghost joined: map<nat, Flags>)
      requires lo == passed + 1 && lo <= hi <= upTo && Given(world, upTo)
      requires Stable(inv, base, cursor) && SoundBy(inv, base, cursor)
      requires inv(world) && Protected(world.outbox, world.rows, pending, world.raced)
      requires PassedFrom(start, pending, answers, 1, passed, others)(world)
      modifies this`world, this`at
      ensures inv(world) && Protected(world.outbox, world.rows, pending, world.raced) && Given(world, upTo)
      ensures PassedFrom(start, pending, joined, 1, if done then hi else passed, others)(world)
      ensures Stepped(script, old(at), 3, done)(at)
    {
      joined := answers;
      ghost var answer, fetched;
      done, answer, fetched := ReconcileChunk(lo, hi, pending, inv, upTo);
      if done {
        PassedTrans(start, old(world), world, pending, answers, AsMap(answer), passed, lo, hi, others);
        joined := answers + AsMap(answer);
      } else {
        PassedWait(start, old(world), world, pending, answers, 1, passed, others);
      }
    }

    /** One chunk: fetch the server's flags, in the state `fetched`, read the stored ones,
        write the differences and hide what the server no longer lists. */
    method ReconcileChunk(lo: u32, hi: u32, pending: set<Key>, ghost inv: World -> bool, ghost upTo: nat)
      returns (done: bool, answer: Answer, ghost fetched: World)
      requires 1 <= lo <= hi <= upTo && Given(world, upTo)
      requires Stable(inv, base, cursor) && SoundBy(inv, base, cursor)
      requires inv(world) && Protected(world.outbox, world.rows, pending, world.raced)
      modifies this`world, this`at
      ensures inv(world) && Protected(world.outbox, world.rows, pending, world.raced) && Given(world, upTo)
      ensures done ==> Waited(others, old(world), true)(fetched) && AsMap(answer) == Within(fetched.server.mail, lo, hi)
      ensures done ==> PassedFrom(old(world), pending, AsMap(answer), lo, hi, others)(world)
      ensures !done ==> Waited(others, old(world), true)(world)
      ensures Stepped(script, old(at), 3, done)(at) && (done ==> old(at) + 2 <= at)
    {
      answer, fetched := [], world;
      var turn := PauseRacing(pending, inv);
      StepsFew(script, old(at), at, 1, 3, turn.Go?);
      if turn.Cut? { return false, answer, fetched; }
      answer, fetched := Listing(world.server.mail, lo, hi, {}), world;
      ListingDistinct(world.server.mail, lo, hi, {});
      ListingIsWithin(world.server.mail, lo, hi);
      ListingAccounts(world, answer, lo, hi);
      ghost var i := at;
      turn := PauseRacing(pending, inv);
      StepsOn(script, old(at), i, at, 1, 1, 2, turn.Go?);
      WaitedTwice(others, old(world), fetched, world, true);
      if turn.Cut? {
        StepsFew(script, old(at), at, 2, 3, false);
        return false, answer, fetched;
      }
      EnvKeepsAccount(others, fetched, world, AsMap(answer), lo, hi);
      ghost var read, before := world, world;
      i := at;
      done, before := WriteChunk(lo, hi, pending, answer, inv);
      StepsOn(script, old(at), i, at, 2, 1, 3, done);
      if done {
        ChunkIsPassed(old(world), fetched, read, before, world, pending, answer, lo, hi, others);
      } else {
        WaitedTwice(others, old(world), read, world, true);
      }
    }

    method PauseRacing(pending: set<Key>, ghost inv: World -> bool) returns (turn: Turn)
      requires Stable(inv, base, cursor) && inv(world) && Protected(world.outbox, world.rows, pending, world.raced)
      modifies this`world, this`at
      ensures inv(world) && Waited(others, old(world), true)(world)
      ensures Protected(world.outbox, world.rows, pending, world.raced)
      ensures Stepped(script, old(at), 1, turn.Go?)(at) && (turn.Go? ==> at == old(at) + 1)
    {
      StableIsSafe(inv, world, base, cursor);
      turn := Await(true);
      WaitIsKept(others, old(world), world, true, base, cursor);
      EnvKeepsProtected(others, old(world), world, pending);
    }

    /** Read the stored flags of a chunk and commit the differences, all or none of
        them, to the rows as they are by then, `before`. */
    method WriteChunk(lo: u32, hi: u32, pending: set<Key>, answer: Answer, ghost inv: World -> bool)
      returns (done: bool, ghost before: World)
      requires Distinct(answer) && Accounts(world, AsMap(answer), lo, hi)
      requires Stable(inv, base, cursor) && SoundBy(inv, base, cursor)
      requires inv(world) && Protected(world.outbox, world.rows, pending, world.raced)
      modifies this`world, this`at
      ensures inv(world) && Protected(world.outbox, world.rows, pending, world.raced)
      ensures Waited(others, old(world), true)(before)
      ensures world == if done
        then before.(rows := DiffChunk(before.rows, Within(old(world).rows, lo, hi), pending, answer)) else before
      ensures !others.Everyone? ==> world == old(world).(server := world.server,
        rows := if done then NaivePass(old(world).rows, pending, AsMap(answer), lo, hi) else old(world).rows)
      ensures Stepped(script, old(at), 1, done)(at) && old(at) <= at
    {
      DistinctDiffIsNaive(world.rows, pending, lo, hi, answer);
      var stored := Within(world.rows, lo, hi);
      var changed := ChangedFlags(answer, stored, pending);
      var expunged := ExpungedUids(answer, stored);
      before := world;
      if changed == [] && expunged == {} {
        StableIsSafe(inv, world, base, cursor);
        EnvStepStays(world, true);
        NoDifferences(world.rows);
        StepsNone(script, at, 1);
        return true, before;
      }
      var turn := PauseRacing(pending, inv);
      before := world;
      if turn.Cut? { return false, before; }
      StableIsSafe(inv, world, base, cursor);
      EnvKeepsAccount(others, old(world), world, AsMap(answer), lo, hi);
      DiffIsKept(others, old(world), world, pending, answer, lo, hi, base, cursor);
      world := world.(rows := HideAll(WriteFlags(world.rows, changed), expunged));
      return true, before;
    }

    // ---- importing a window ----------------------------------------------

    /** Upsert the fetched messages of window `lo..=hi` in short transactions, then
        put pending edits back. Returns which messages are new. */
    method PersistChunk(lo: u32, hi: u32, msgs: Answer, ghost inv: World -> bool)
      returns (done: bool, imported: seq<bool>)
      requires Distinct(msgs) && (forall u :: u in AsMap(msgs) ==> lo <= u <= hi) && Sent(world.server, AsMap(msgs), hi)
      requires 1 <= lo && base <= lo && cursor < lo
      requires Stable(inv, base, cursor) && inv(world)
      modifies this`world, this`at
      ensures inv(world)
      ensures done ==> imported == Newness(msgs, Within(old(world).rows, lo, hi).Keys)
      ensures done ==> Holding(lo, hi)(world) && PersistedFrom(old(world), msgs, lo, hi, others)(world)
      ensures InroadsFrom(old(world), lo, hi, false, others)(world)
      ensures Stepped(script, old(at), PersistAwaits(|msgs|), done)(at)
    {
      imported := [];
      var turn := Pause(inv);
      InroadsWait(others, old(world), world, lo, hi, false);
      StepsFew(script, old(at), at, 1, PersistAwaits(|msgs|), turn.Go?);
      if turn.Cut? { return false, imported; }
      ghost var a, i := world, at;
      var known := Within(world.rows, lo, hi).Keys;
      SameWindow(old(world).rows, world.rows, lo, hi);
      SentStays(old(world).server, world.server, AsMap(msgs), hi);
      done, imported := StoreWindow(lo, hi, msgs, known, inv);
      InroadsTrans(old(world), a, world, lo, hi, lo, hi, false, others);
      StepsOn(script, old(at), i, at, 1, StoreAwaits(|msgs|), PersistAwaits(|msgs|), done);
      if done { PersistedLater(old(world), a, world, msgs, lo, hi, others); }
    }

    method StoreWindow(lo: u32, hi: u32, msgs: Answer, known: set<nat>, ghost inv: World -> bool)
      returns (done: bool, imported: seq<bool>)
      requires Distinct(msgs) && (forall u :: u in AsMap(msgs) ==> lo <= u <= hi) && Sent(world.server, AsMap(msgs), hi)
      requires 1 <= lo && base <= lo && cursor < lo
      requires Stable(inv, base, cursor) && inv(world)
      modifies this`world, this`at
      ensures inv(world)
      ensures done ==> imported == Newness(msgs, known)
      ensures done ==> Holding(lo, hi)(world) && PersistedFrom(old(world), msgs, lo, hi, others)(world)
      ensures InroadsFrom(old(world), lo, hi, false, others)(world)
      ensures Stepped(script, old(at), StoreAwaits(|msgs|), done)(at)
    {
      done, imported := WriteBatches(lo, hi, msgs, known, inv);
      StepsFew(script, old(at), at, |msgs|, StoreAwaits(|msgs|), done);
      if !done { return; }
      ghost var b, i := world, at;
      done := ReapplyPendingFlags(lo, hi, inv);
      InroadsStill(b, world, lo, hi, false, others);
      InroadsTrans(old(world), b, world, lo, hi, lo, hi, false, others);
      StepsOn(script, old(at), i, at, |msgs|, 2, StoreAwaits(|msgs|), done);
      if done { WindowPersisted(old(world), b, world, msgs, lo, hi, others); }
    }

    method WriteBatches(lo: u32, hi: u32, msgs: Answer, known: set<nat>, ghost inv: World -> bool)
      returns (done: bool, imported: seq<bool>)
      requires Distinct(msgs) && (forall u :: u in AsMap(msgs) ==> lo <= u <= hi) && Sent(world.server, AsMap(msgs), hi)
      requires 1 <= lo && base <= lo && cursor < lo
      requires Stable(inv, base, cursor) && inv(world)
      modifies this`world, this`at
      ensures inv(world)
      ensures done ==> imported == Newness(msgs, known) && ImportingFrom(old(world), msgs, others)(world)
      ensures InroadsFrom(old(world), lo, hi, false, others)(world)
      ensures Stepped(script, old(at), |msgs|, done)(at) && (done ==> Hundreds(|msgs|, at - old(at)))
    {
      StableIsSafe(inv, world, base, cursor);
      ImportingStarts(world, others);
      InroadsNone(world, lo, hi, false, others);
      StepsNone(script, at, 0);
      imported := [];
      var i := 0;
      assert msgs[..0] == [];
      while i < |msgs|
        invariant 0 <= i <= |msgs| && Hundreds(i, at - old(at)) && (i < |msgs| ==> i == 100 * (at - old(at)))
        invariant inv(world) && Sent(world.server, AsMap(msgs), hi)
        invariant ImportingFrom(old(world), msgs[..i], others)(world)
        invariant imported == Newness(msgs[..i], known)
        invariant InroadsFrom(old(world), lo, hi, false, others)(world)
        invariant Stepped(script, old(at), i, true)(at)
      {
        var end := if i + WRITE_BATCH_SIZE <= |msgs| then i + WRITE_BATCH_SIZE else |msgs|;
        BatchSplits(msgs, i, end, lo, hi);
        ghost var w, j := world, at;
        var ok := WriteBatch(msgs[i..end], lo, hi, AsMap(msgs), inv);
        InroadsTrans(old(world), w, world, lo, hi, lo, hi, false, others);
        StepsOn(script, old(at), j, at, i, 1, end, ok);
        StepsFew(script, old(at), at, end, |msgs|, ok);
        if !ok { return false, imported; }
        ImportingTrans(old(world), w, world, msgs[..i], msgs[i..end], others);
        NewnessAppends(msgs[..i], msgs[i..end], known);
        imported := imported + Newness(msgs[i..end], known);
        i := end;
      }
      assert msgs[..i] == msgs;
      done := true;
    }

    /** One metadata transaction. */
    method WriteBatch(batch: Answer, lo: u32, hi: u32, ghost all: map<nat, Flags>, ghost inv: World -> bool)
      returns (done: bool)
      requires Distinct(batch) && 1 <= lo && base <= lo && cursor < lo && Sent(world.server, all, hi)
      requires PartOf(batch, all, lo, hi)
      requires Stable(inv, base, cursor) && inv(world)
      modifies this`world, this`at
      ensures inv(world) && Sent(world.server, all, hi)
      ensures done ==> ImportingFrom(old(world), batch, others)(world)
      ensures InroadsFrom(old(world), lo, hi, false, others)(world)
      ensures Stepped(script, old(at), 1, done)(at) && (done ==> at == old(at) + 1)
    {
      var turn := Pause(inv);
      SentStays(old(world).server, world.server, all, hi);
      InroadsWait(others, old(world), world, lo, hi, false);
      if turn.Cut? { return false; }
      StableIsSafe(inv, world, base, cursor);
      ImportIsAhead(world, batch, lo, hi, base, cursor);
      BatchImported(old(world), world, batch, others);
      InroadsBatch(world, batch, lo, hi, others);
      InroadsTrans(old(world), world, world.(rows := ImportRows(world.rows, batch)), lo, hi, lo, hi, false, others);
      world := world.(rows := ImportRows(world.rows, batch));
      return true;
    }

    /** Re-assert pending local flag values on the rows of a window. */
    method ReapplyPendingFlags(lo: u32, hi: u32, ghost inv: World -> bool) returns (done: bool)
      requires Stable(inv, base, cursor) && inv(world)
      modifies this`world, this`at
      ensures inv(world) && world.rows.Keys == old(world).rows.Keys && world.notified == old(world).notified
      ensures LeavesFrom(old(world), {}, others)(world) && (done ==> Holding(lo, hi)(world))
      ensures Stepped(script, old(at), 2, done)(at)
      ensures done && !others.Everyone? ==> world == old(world).(server := world.server,
        rows := Reapply(Reapply(old(world).rows, world.outbox, Seen, lo, hi), world.outbox, Flagged, lo, hi))
    {
      done := ReapplyFlag(Seen, lo, hi, Seen, inv);
      StepsFew(script, old(at), at, 1, 2, done);
      ghost var b, none, i := world, {}, at;
      if done {
        done := ReapplyFlag(Flagged, lo, hi, Seen, inv);
        LeavesTrans(old(world), b, world, none, none, others);
        assert none + none == none;
        StepsOn(script, old(at), i, at, 1, 1, 2, done);
      }
    }

    method ReapplyFlag(flag: Flag, lo: u32, hi: u32, other: Flag, ghost inv: World -> bool) returns (done: bool)
      requires Stable(inv, base, cursor) && inv(world)
      modifies this`world, this`at
      ensures inv(world) && world.rows.Keys == old(world).rows.Keys && world.notified == old(world).notified
      ensures LeavesFrom(old(world), {}, others)(world) && (done ==> HeldFlag(world, flag, lo, hi))
      ensures Stepped(script, old(at), 1, done)(at)
      ensures HeldFlag(old(world), other, lo, hi) ==> HeldFlag(world, other, lo, hi)
      ensures !others.Everyone? ==> world == old(world).(server := world.server,
        rows := if done then Reapply(old(world).rows, old(world).outbox, flag, lo, hi) else old(world).rows)
    {
      var turn := Pause(inv);
      if HeldFlag(old(world), other, lo, hi) { EnvKeepsHeldFlag(others, old(world), world, other, lo, hi); }
      EnvLeaves(old(world), world, others);
      if turn.Cut? { return false; }
      StableIsSafe(inv, world, base, cursor);
      ReapplyIsKept(world, flag, lo, hi, base, cursor);
      ReapplyHolds(world, flag, lo, hi, other);
      ReapplyLeaves(old(world), world, flag, lo, hi, others);
      world := world.(rows := Reapply(world.rows, world.outbox, flag, lo, hi));
      return true;
    }

    /** Notify about the new, unseen messages of a window, one await each. A message
        counts as sent before its await, which may be cut. */
    method NotifyChunk(msgs: Answer, imported: seq<bool>, on: bool, ghost known: set<nat>, lo: u32, hi: u32,
                       ghost inv: World -> bool)
      returns (done: bool, ghost sent: nat)
      requires Distinct(msgs) && imported == Newness(msgs, known)
      requires forall u :: u in AsMap(msgs) ==> lo <= u <= hi && u in world.rows
      requires forall u :: u in world.notified && lo <= u <= hi ==> u in known
      requires Stable(inv, base, cursor) && inv(world) && Holding(lo, hi)(world)
      modifies this`world, this`at
      ensures inv(world) && Holding(lo, hi)(world)
      ensures sent <= |msgs| && (done ==> sent == |msgs|)
      ensures NotifiedFirst(old(world), msgs, sent, known, on, others)(world)
      ensures Stepped(script, old(at), |msgs|, done)(at)
    {
      done := true;
      StepsNone(script, at, 0);
      var i := 0;
      assert msgs[..0] == [];
      StableIsSafe(inv, world, base, cursor);
      NotifyingStarts(world, others);
      while i < |msgs|
        invariant 0 <= i <= |msgs|
        invariant inv(world) && Holding(lo, hi)(world)
        invariant NotifiedFirst(old(world), msgs, i, known, on, others)(world)
        invariant done && Stepped(script, old(at), i, true)(at)
      {
        ghost var j := at;
        done := NotifyOne(msgs, i, imported[i], on, known, lo, hi, inv, old(world));
        StepsOn(script, old(at), j, at, i, 1, i + 1, done);
        StepsFew(script, old(at), at, i + 1, |msgs|, done);
        i := i + 1;
        if !done { return false, i; }
      }
      sent := i;
    }

    method NotifyOne(msgs: Answer, i: nat, isNew: bool, on: bool, ghost known: set<nat>, lo: u32, hi: u32,
                     ghost inv: World -> bool, ghost start: World)
      returns (done: bool)
      requires Distinct(msgs) && i < |msgs| && isNew == (msgs[i].0 !in known)
      requires forall u :: u in AsMap(msgs) ==> lo <= u <= hi && u in start.rows
      requires forall u :: u in start.notified && lo <= u <= hi ==> u in known
      requires Stable(inv, base, cursor) && inv(world) && Holding(lo, hi)(world)
      requires NotifiedFirst(start, msgs, i, known, on, others)(world)
      modifies this`world, this`at
      ensures inv(world) && Holding(lo, hi)(world)
      ensures NotifiedFirst(start, msgs, i + 1, known, on, others)(world)
      ensures Stepped(script, old(at), 1, done)(at)
    {
      var (uid, f) := msgs[i];
      var shouldNotify := isNew && on && !f.seen && !f.deleted;
      ToNotifyStep(msgs, i, known, on);
      assert Notifying(start, world, ToNotify(msgs[..i], known, on), others);
      done := Notify(uid, shouldNotify, lo, hi, inv);
      NotifyingTrans(start, old(world), world, ToNotify(msgs[..i], known, on), if shouldNotify then [uid] else [],
          others);
    }

    method Notify(uid: nat, send: bool, lo: u32, hi: u32, ghost inv: World -> bool) returns (done: bool)
      requires uid in world.rows && (send ==> uid !in world.notified)
      requires Stable(inv, base, cursor) && inv(world) && Holding(lo, hi)(world)
      modifies this`world, this`at
      ensures inv(world) && Holding(lo, hi)(world)
      ensures NotifyingFrom(old(world), if send then [uid] else [], others)(world)
      ensures Stepped(script, old(at), 1, done)(at)
    {
      if send {
        StableIsSafe(inv, world, base, cursor);
        NotifyIsAhead(world, uid, base, cursor);
        NotifiedOnce(world, uid, others);
        world := world.(notified := world.notified + [uid]);
      }
      ghost var b := world;
      done := PauseHolding(lo, hi, inv);
      if send {
        NotifyingTrans(old(world), b, world, [uid], [], others);
        assert [uid] + [] == [uid];
      }
    }

    method PauseHolding(lo: u32, hi: u32, ghost inv: World -> bool) returns (go: bool)
      requires Stable(inv, base, cursor) && inv(world) && Holding(lo, hi)(world)
      modifies this`world, this`at
      ensures inv(world) && Holding(lo, hi)(world)
      ensures NotifyingFrom(old(world), [], others)(world)
      ensures Stepped(script, old(at), 1, go)(at)
    {
      var turn := Pause(inv);
      WaitHolds(others, old(world), world, lo, hi);
      WaitedNotifying(old(world), world, others);
      go := turn.Go?;
    }

    // ---- the walk --------------------------------------------------------

    /** One window: fetch, import, notify, move the cursor. */
    method WalkChunk(lo: u32, hi: u32, max: u32, on: bool, ghost highest: nat, ghost keep: (World, nat) -> bool)
      returns (done: bool, next: u32, ghost msgs: Answer)
      requires 1 <= lo <= hi <= highest && base <= lo && max < lo
      requires cursor == max || (cursor == 0 && base == max + 1)
      requires SyncsOverImap(kind) ==> max + 1 == lo
      requires Keeps(keep, base, highest) && keep(world, cursor)
      modifies this`world, this`at, this`cursor
      ensures keep(world, cursor)
      ensures if done then cursor == next else cursor == old(cursor)
      ensures done ==> next == NextCursor(kind, world.rows.Keys, max, lo, hi)
      ensures done ==> WalkedFrom(old(world), msgs, lo, hi, on, kind, others)(world)
      ensures InroadsFrom(old(world), lo, hi, on, others)(world)
      ensures Stepped(script, old(at), WalkAwaits(lo, hi), done)(at)
    {
      next := max;
      ghost var c := cursor;
      KeepIsStable(keep, world, base, highest, c);
      done, msgs := ImportChunk(lo, hi, on, w => keep(w, c));
      StepsFew(script, old(at), at, ChunkAwaits(lo, hi), WalkAwaits(lo, hi), done);
      if !done { return false, next, msgs; }
      ghost var b, i := world, at;
      done, next := MoveCursor(lo, hi, max, highest, keep);
      InroadsStill(b, world, lo, hi, on, others);
      InroadsTrans(old(world), b, world, lo, hi, lo, hi, on, others);
      StepsOn(script, old(at), i, at, ChunkAwaits(lo, hi), 1, WalkAwaits(lo, hi), done);
      WalkedOn(old(world), b, world, msgs, lo, hi, on, kind, others);
    }

    /** Fetch one window, import it and notify. */
    method ImportChunk(lo: u32, hi: u32, on: bool, ghost inv: World -> bool)
      returns (done: bool, ghost answer: Answer)
      requires 1 <= lo <= hi < world.server.next && base <= lo && cursor < lo
      requires Stable(inv, base, cursor) && inv(world)
      modifies this`world, this`at
      ensures inv(world)
      ensures done ==> Holding(lo, hi)(world)
      ensures done && SyncsOverImap(kind) ==> Covered(world.server.mail, world.rows, lo, hi)
      ensures done ==> WalkedFrom(old(world), answer, lo, hi, on, kind, others)(world)
      ensures InroadsFrom(old(world), lo, hi, on, others)(world)
      ensures Stepped(script, old(at), ChunkAwaits(lo, hi), done)(at)
    {
      var msgs;
      ghost var omit;
      done, msgs, omit := Fetch(lo, hi, inv);
      answer := msgs;
      InroadsWait(others, old(world), world, lo, hi, on);
      StepsFew(script, old(at), at, 1, ChunkAwaits(lo, hi), done);
      AtMostOneEach(msgs, lo, hi);
      if !done { return; }
      ListingIsSent(world.server, lo, hi, omit);
      ghost var b, c, fetch, i := base, cursor, world, at;
      NowIsStable(inv, fetch, b, c);
      done := ImportFetched(lo, hi, msgs, on, Since(inv, fetch, b, c));
      InroadsTrans(old(world), fetch, world, lo, hi, lo, hi, on, others);
      StepsOn(script, old(at), i, at, 1, ImportAwaits(|msgs|), ChunkAwaits(lo, hi), done);
      ItWas(inv, fetch, world, b, c);
      if done {
        FetchedAndImported(old(world), fetch, world, msgs, lo, hi, on, kind, others, omit);
        if SyncsOverImap(kind) {
          ListingIsWithin(fetch.server.mail, lo, hi);
          ImportedKeys(fetch, world, msgs, lo, hi, on, others);
          FetchCovers(fetch, world, msgs, lo, hi, base, cursor);
        }
      }
    }

    /** What the server lists of a window; API providers may leave messages out. */
    method Fetch(lo: u32, hi: u32, ghost inv: World -> bool) returns (done: bool, msgs: Answer, ghost omit: set<nat>)
      requires Stable(inv, base, cursor) && inv(world)
      modifies this`world, this`at
      ensures inv(world) && Waited(others, old(world), false)(world)
      ensures Distinct(msgs) && forall u :: u in AsMap(msgs) ==> lo <= u <= hi
      ensures done ==> msgs == Listing(world.server.mail, lo, hi, omit) && (Thorough(kind, others) ==> omit == {})
      ensures Stepped(script, old(at), 1, done)(at)
    {
      msgs, omit := [], {};
      var turn := Pause(inv);
      if turn.Cut? { return false, msgs, omit; }
      var left := if SyncsOverImap(kind) then {} else turn.omit;
      msgs, omit := Listing(world.server.mail, lo, hi, left), left;
      ListingDistinct(world.server.mail, lo, hi, left);
      ListingBounds(world.server.mail, lo, hi, left);
      done := true;
    }

    method ImportFetched(lo: u32, hi: u32, msgs: Answer, on: bool, ghost inv: World -> bool) returns (done: bool)
      requires Distinct(msgs) && (forall u :: u in AsMap(msgs) ==> lo <= u <= hi) && Sent(world.server, AsMap(msgs), hi)
      requires 1 <= lo && base <= lo && cursor < lo
      requires Stable(inv, base, cursor) && inv(world)
      modifies this`world, this`at
      ensures inv(world)
      ensures done ==> Holding(lo, hi)(world)
      ensures done ==> ImportedFrom(old(world), msgs, lo, hi, on, others)(world)
      ensures InroadsFrom(old(world), lo, hi, on, others)(world)
      ensures Stepped(script, old(at), ImportAwaits(|msgs|), done)(at)
    {
      StableIsSafe(inv, world, base, cursor);
      KnownWindow(world, lo, hi);
      ghost var known := Within(world.rows, lo, hi).Keys;
      var imported;
      done, imported := PersistChunk(lo, hi, msgs, inv);
      InroadsQuiet(old(world), world, lo, hi, on, others);
      StepsFew(script, old(at), at, PersistAwaits(|msgs|), ImportAwaits(|msgs|), done);
      if !done { return; }
      ghost var i := at;
      done := NotifyImported(lo, hi, msgs, imported, on, known, old(world), inv);
      StepsOn(script, old(at), i, at, PersistAwaits(|msgs|), |msgs|, ImportAwaits(|msgs|), done);
    }

    method NotifyImported(lo: u32, hi: u32, msgs: Answer, imported: seq<bool>, on: bool, ghost known: set<nat>,
                          ghost start: World, ghost inv: World -> bool)
      returns (done: bool)
      requires Distinct(msgs) && imported == Newness(msgs, known) && known == Within(start.rows, lo, hi).Keys
      requires forall u :: u in AsMap(msgs) ==> lo <= u <= hi
      requires forall u :: u in start.notified && lo <= u <= hi ==> u in known
      requires PersistedFrom(start, msgs, lo, hi, others)(world) && InroadsFrom(start, lo, hi, false, others)(world)
      requires Sent(start.server, AsMap(msgs), hi)
      requires Stable(inv, base, cursor) && inv(world) && Holding(lo, hi)(world)
      modifies this`world, this`at
      ensures inv(world) && Holding(lo, hi)(world)
      ensures done ==> ImportedFrom(start, msgs, lo, hi, on, others)(world)
      ensures InroadsFrom(start, lo, hi, on, others)(world)
      ensures Stepped(script, old(at), |msgs|, done)(at)
    {
      ghost var sent;
      PersistedKeys(start, world, msgs, lo, hi, others);
      done, sent := NotifyChunk(msgs, imported, on, known, lo, hi, inv);
      InroadsNotify(start, old(world), world, msgs, sent, known, lo, hi, on, others);
      if done { WindowImported(start, old(world), world, msgs, sent, known, lo, hi, on, others); }
    }

    /** Compute where the cursor may go after a window and commit it. */
    method MoveCursor(lo: u32, hi: u32, max: u32, ghost highest: nat, ghost keep: (World, nat) -> bool)
      returns (done: bool, next: u32)
      requires 1 <= lo <= hi <= highest && base <= lo && max < lo
      requires cursor == max || (cursor == 0 && base == max + 1)
      requires Keeps(keep, base, highest) && keep(world, cursor)
      requires Holding(lo, hi)(world)
      requires SyncsOverImap(kind) ==> max + 1 == lo && Covered(world.server.mail, world.rows, lo, hi)
      modifies this`world, this`at, this`cursor
      ensures keep(world, cursor)
      ensures if done then cursor == next else cursor == old(cursor)
      ensures done ==> next == NextCursor(kind, world.rows.Keys, max, lo, hi)
      ensures NotifyingFrom(old(world), [], others)(world)
      ensures Stepped(script, old(at), 1, done)(at)
    {
      ghost var b, c, start := base, cursor, world;
      KeepIsStable(keep, world, b, highest, c);
      ghost var inv := (w: World) => keep(w, c);
      NowIsStable(inv, start, b, c);
      next := max;
      if SyncsOverImap(kind) {
        next := Max(max, hi);
      } else {
        var uids := StoredUids(world.rows, lo, hi);
        GapFreeIsGreatest(world.rows.Keys, max, hi);
        next := ContiguousUid(max, uids, world.rows.Keys, lo, hi);
      }
      done := PauseHolding(lo, hi, Since(inv, start, b, c));
      ItWas(inv, start, world, b, c);
      if done {
        KeepIsStable(keep, world, base, highest, cursor);
        CursorAdvances(kind, world, base, cursor, max, lo, hi);
        cursor := next;
      }
    }

    /** One window of a walk that began at `start` and has come to `n`. */
    method WalkNext(start: u32, lo: u32, hi: u32, max: u32, on: bool, ghost highest: nat, ghost w0: World,
                    ghost fetched: map<nat, Flags>, ghost n: nat, ghost from: nat, ghost keep: (World, nat) -> bool)
      returns (done: bool, next: u32, ghost more: map<nat, Flags>)
      requires 1 <= start <= lo <= hi <= highest && base <= start && max < lo == n + 1
      requires cursor == max || (cursor == 0 && base == max + 1)
      requires max == Reached(kind, world.rows.Keys, start, n)
      requires Keeps(keep, base, highest) && keep(world, cursor)
      requires WalkedUpTo(w0, fetched, start, n, on, kind, others)(world)
      requires InroadsFrom(w0, start, highest, on, others)(world) &&
        Stepped(script, from, WalkAwaits(start, n), true)(at)
      modifies this`world, this`at, this`cursor
      ensures keep(world, cursor)
      ensures done ==> WalkedUpTo(w0, more, start, hi, on, kind, others)(world)
      ensures done ==> cursor == next == Reached(kind, world.rows.Keys, start, hi) <= hi
      ensures InroadsFrom(w0, start, highest, on, others)(world)
      ensures Stepped(script, from, if done then WalkAwaits(start, hi) else WalkAwaits(start, highest), done)(at)
    {
      ghost var msgs;
      more := fetched;
      ghost var i := at;
      done, next, msgs := WalkChunk(lo, hi, max, on, highest, keep);
      StepsOn(script, from, i, at, WalkAwaits(start, n), WalkAwaits(lo, hi), WalkAwaits(start, hi), done);
      StepsFew(script, from, at, WalkAwaits(start, hi), WalkAwaits(start, highest), done);
      InroadsTrans(w0, old(world), world, start, highest, lo, hi, on, others);
      if done {
        more := fetched + AsMap(msgs);
        WalkedFurther(w0, old(world), world, fetched, msgs, start, n, lo, hi, on, kind, others);
        WalkedGap(kind, old(world), world, msgs, start, n, lo, hi, max, on, others);
      }
    }

    /** The chunked walk over `start..=highest`, `highest` having been found since `w0`. The
        first backfill of a folder notifies nobody. */
    method Walk(prev: u32, start: u32, highest: u32, ghost w0: World, ghost keep: (World, nat) -> bool)
      returns (done: bool, ghost fetched: map<nat, Flags>)
      requires start == prev + 1 <= highest < world.server.next && base <= start
      requires cursor == prev || (cursor == 0 && base == start)
      requires Keeps(keep, base, 0) && keep(world, cursor) && FoundFrom(others, w0, Some(highest))(world)
      modifies this`world, this`at, this`cursor
      ensures keep(world, cursor)
      ensures done ==> WalkedNewFrom(kind, others, notifyAllowed, w0, prev, cursor, fetched, highest)(world)
      ensures InroadsFrom(w0, start, highest, Notifies(notifyAllowed, prev), others)(world)
      ensures Stepped(script, old(at), WalkAwaits(start, highest), done)(at)
    {
      var initial := prev == 0;
      var on := notifyAllowed && !initial;
      var chunk := ChunkSize(kind);
      var max: u32 := prev;
      var lo: u32 := start;
      ghost var n: nat := prev;
      fetched := map[];
      WalkStarts(kind, others, w0, world, start, n, highest, on);
      StepsNone(script, at, 0);
      ghost var from := KeepsUpTo(keep, world, base, highest, cursor, w0.server.next);
      while true
        invariant start <= lo <= highest && max < lo == n + 1
        invariant cursor == max || (cursor == 0 && base == max + 1)
        invariant max == Reached(kind, world.rows.Keys, start, n)
        invariant from(world, cursor) && WalkedUpTo(w0, fetched, start, n, on, kind, others)(world)
        invariant InroadsFrom(w0, start, highest, on, others)(world)
        invariant Stepped(script, old(at), WalkAwaits(start, n), true)(at)
        decreases highest - lo
      {
        var hi := ChunkEnd(lo, chunk, highest);
        done, max, fetched := WalkNext(start, lo, hi, max, on, highest, w0, fetched, n, old(at), from);
        if !done { return; }
        n := hi;
        if hi >= highest {
          assert n == highest;
          AllWalked(kind, others, notifyAllowed, w0, prev, start, highest, world, cursor, fetched);
          return;
        }
        lo := hi + 1;
      }
    }

    ghost predicate Current()
      reads this
    {
      epoch.None? || epoch == Some(world.server.epoch)
    }

    /** Compare UIDVALIDITY; on a change purge the rows and forget the stored cursor.
        The caller's own copy of the cursor, `start - 1`, is not touched. */
    method SettleEpoch(start: u32) returns (done: bool)
      requires Inv() && start == cursor + 1
      modifies this`world, this`at, this`cursor, this`epoch, this`base
      ensures Inv() && world.server.epoch == old(world).server.epoch
      ensures done ==> epoch == Some(world.server.epoch) && base <= start
      ensures done ==> cursor + 1 == start || (cursor == 0 && base == start)
      ensures old(Current()) ==>
        cursor == old(cursor) && ForwardFrom(old(world))(world) && world.rows.Keys == old(world).rows.Keys
      ensures !done ==> epoch == old(epoch) && cursor == old(cursor) && base == old(base)
      ensures old(Current()) && done ==> base == if cursor == 0 then 1 else old(base)
      ensures !old(Current()) && done ==> world.rows.Keys == {} && cursor == 0 && base == start
      ensures done || old(Current()) ==> SettledFrom(others, Purged(old(world), !old(Current())))(world)
      ensures Stepped(script, old(at), 2, done)(at)
    {
      ghost var w0, b, c := world, base, cursor;
      AheadIsStable(w0, b, c);
      var turn := Pause(AheadOf(w0, b, c));
      IsAhead(w0, world, b, c);
      WaitMoves(others, w0, world, false);
      CommittedStays(epoch, b, c, w0, world);
      WaitSettles(others, w0, world);
      StepsFew(script, old(at), at, 1, 2, turn.Go?);
      if turn.Cut? { return false; }
      ghost var w1, i := world, at;
      if epoch.Some? && epoch.value != world.server.epoch {
        done := PurgeFolder(start);
        PurgeSettles(others, w0, w1, world);
        StepsOn(script, old(at), i, at, 1, 1, 2, done);
      } else if epoch.None? {
        done := FirstEpoch(start);
        StepsOn(script, old(at), i, at, 1, 1, 2, done);
        WaitedTwice(others, w0, w1, world, false);
        WaitSettles(others, w0, world);
        ForwardJoin(w0, w1, world);
      } else {
        if cursor == 0 {
          EpochBegins(world, base, start);
          base := start;
        }
        done := true;
      }
    }

    /** Store the first epoch seen. */
    method FirstEpoch(start: u32) returns (done: bool)
      requires Inv() && epoch.None? && start == 1
      modifies this`world, this`at, this`epoch, this`base
      ensures Inv() && world.server.epoch == old(world).server.epoch
      ensures if done then epoch == Some(world.server.epoch) && base == start else epoch.None? && base == old(base)
      ensures Waited(others, old(world), false)(world) && ForwardFrom(old(world))(world)
      ensures world.rows.Keys == old(world).rows.Keys
      ensures Stepped(script, old(at), 1, done)(at)
    {
      ghost var w0, b, c := world, base, cursor;
      AheadIsStable(w0, b, c);
      var turn := Pause(AheadOf(w0, b, c));
      IsAhead(w0, world, b, c);
      WaitMoves(others, w0, world, false);
      CommittedStays(epoch, b, c, w0, world);
      done := turn.Go?;
      if done {
        EpochBegins(world, base, start);
        epoch, base := Some(world.server.epoch), start;
      }
    }

    /** Drop the rows of another epoch, then store the new one. */
    method PurgeFolder(start: u32) returns (done: bool)
      requires Inv() && epoch.Some? && epoch.value != world.server.epoch && 1 <= start
      modifies this`world, this`at, this`cursor, this`epoch, this`base
      ensures Inv() && world.server.epoch == old(world).server.epoch && world.rows.Keys == {}
      ensures if done
        then epoch == Some(world.server.epoch) && cursor == 0 && base == start
        else epoch == old(epoch) && cursor == old(cursor) && base == old(base)
      ensures Waited(others, Purged(old(world), true), false)(world)
      ensures Stepped(script, old(at), 1, done)(at)
    {
      ghost var b, c := base, cursor;
      world := Purged(world, true);
      ghost var w1 := world;
      AheadIsStable(w1, b, c);
      var turn := Pause(AheadOf(w1, b, c));
      IsAhead(w1, world, b, c);
      WaitMoves(others, w1, world, false);
      done := turn.Go?;
      if done {
        EpochBegins(world, b, start);
        epoch, cursor, base := Some(world.server.epoch), 0, start;
      }
    }

    /** `sync_folder`: settle the epoch, reconcile what is known, walk what is new. Notifications
        are only about new, unread mail above the old cursor, and there are none while it is 0. */
    method SyncFolder() returns (done: bool, ghost h: Haul)
      requires Inv() && cursor + 1 < U32_LIMIT
      modifies this`world, this`at, this`cursor, this`epoch, this`base
      ensures Inv()
      ensures old(Current()) ==>
        ForwardFrom(old(world))(world) && (base == old(base) || (base == 1 && old(cursor) == 0))
      ensures !old(Current()) ==> (epoch == old(epoch) && !done) || base == old(cursor) + 1
      ensures old(Current()) ==> Current()
      ensures epoch == Some(world.server.epoch) ==> Justified(world)
      ensures done ==>
        SyncedFrom(kind, others, notifyAllowed, Purged(old(world), !old(Current())), old(cursor), cursor, h)(world)
      ensures old(Current()) ==> SyncingFrom(others, notifyAllowed, old(world), old(cursor), h)(world)
      ensures old(Current()) && old(cursor) == 0 ==> world.notified == old(world).notified
      ensures old(cursor) <= h.highest < U32_LIMIT
      ensures Stepped(script, old(at), SyncAwaits(old(cursor), h.highest), done)(at)
    {
      var prev: u32 := cursor;
      ghost var current, from := Current(), Purged(world, !Current());
      done := SettleEpoch(prev + 1);
      StepsFew(script, old(at), at, 2, SyncAwaits(prev, prev), done);
      h := Haul(world, world, map[], 0, map[], prev);
      InvIsSafe(epoch, base, cursor, world);
      ghost var s, i := world, at;
      if done {
        done, h := SyncOn(prev, from);
        StepsOn(script, old(at), i, at, 2, SettledAwaits(prev, h.highest), SyncAwaits(prev, h.highest), done);
        InvIsSafe(epoch, base, cursor, world);
        if current { ForwardJoin(from, s, world); }
      } else if current {
        SyncIsCut(others, notifyAllowed, from, prev, world);
      }
      if current && prev == 0 { BackfillIsQuiet(others, notifyAllowed, from, world, h); }
    }

    /** The rest of `sync_folder`, once the stored epoch is the server's; it began at `from`. */
    method SyncOn(prev: u32, ghost from: World) returns (done: bool, ghost h: Haul)
      requires Inv() && epoch == Some(world.server.epoch) && prev + 1 < U32_LIMIT && base <= prev + 1
      requires cursor == prev || (cursor == 0 && base == prev + 1)
      requires SettledFrom(others, from)(world)
      modifies this`world, this`at, this`cursor
      ensures Inv() && ForwardFrom(old(world))(world) && prev <= h.highest < U32_LIMIT
      ensures done ==> SyncedFrom(kind, others, notifyAllowed, from, prev, cursor, h)(world)
      ensures SyncingFrom(others, notifyAllowed, from, prev, h)(world)
      ensures Stepped(script, old(at), SettledAwaits(prev, h.highest), done)(at)
    {
      done, h := SyncSettled(prev);
      SyncIsOn(others, notifyAllowed, from, prev, world, h);
      if done { SyncIsWhole(kind, others, notifyAllowed, from, prev, world, cursor, h); }
    }

    method SyncSettled(prev: u32) returns (done: bool, ghost h: Haul)
      requires Inv() && epoch == Some(world.server.epoch) && prev + 1 < U32_LIMIT && base <= prev + 1
      requires cursor == prev || (cursor == 0 && base == prev + 1)
      modifies this`world, this`at, this`cursor
      ensures Inv() && ForwardFrom(old(world))(world)
      ensures h.settled == old(world) && prev <= h.highest < U32_LIMIT
      ensures done ==> SyncedThroughTo(kind, others, notifyAllowed, prev, cursor, h)(world)
      ensures SyncingThroughFrom(others, notifyAllowed, prev, h)(world)
      ensures Stepped(script, old(at), SettledAwaits(prev, h.highest), done)(at)
    {
      ghost var w0, b, c := world, base, cursor;
      ghost var keep := (w: World, c: nat) => Forward(w0, w) && Sound(w, b, c);
      ForwardKeeps(w0, b, 0);
      KeepIsStable(keep, world, b, 0, c);
      done, h := SyncKeeping(prev, c, keep);
      KeepIsStable(keep, world, b, 0, cursor);
    }

    method SyncKeeping(prev: u32, ghost c: nat, ghost keep: (World, nat) -> bool) returns (done: bool, ghost h: Haul)
      requires prev + 1 < U32_LIMIT && base <= prev + 1 && c == cursor
      requires cursor == prev || (cursor == 0 && base == prev + 1)
      requires Keeps(keep, base, 0) && keep(world, c)
      modifies this`world, this`at, this`cursor
      ensures keep(world, cursor)
      ensures h.settled == old(world) && prev <= h.highest < U32_LIMIT
      ensures done ==> SyncedThroughTo(kind, others, notifyAllowed, prev, cursor, h)(world)
      ensures SyncingThroughFrom(others, notifyAllowed, prev, h)(world)
      ensures Stepped(script, old(at), SettledAwaits(prev, h.highest), done)(at)
    {
      KeepIsStable(keep, world, base, 0, c);
      ghost var answers, passed;
      done, answers, passed := ReconcileKnown(prev, w => keep(w, c));
      ghost var m, fetched, top, i := world, map[], prev, at;
      StepsFew(script, old(at), at, ReconcileAwaits(prev), SettledAwaits(prev, prev), done);
      if done {
        done, fetched, top := WalkNew(prev, keep);
        StepsOn(script, old(at), i, at, ReconcileAwaits(prev), NewAwaits(prev, top), SettledAwaits(prev, top), done);
      } else {
        KeepIsStable(keep, world, base, 0, c);
        InroadsNone(world, prev + 1, top, Notifies(notifyAllowed, prev), others);
      }
      h := Haul(old(world), m, answers, passed, fetched, top);
      if done { ThroughIsWhole(kind, others, notifyAllowed, prev, world, cursor, h); }
      ThroughIsCut(others, notifyAllowed, prev, world, h);
    }

    method ReconcileKnown(prev: u32, ghost inv: World -> bool)
      returns (done: bool, ghost answers: map<nat, Flags>, ghost passed: nat)
      requires Stable(inv, base, cursor) && SoundBy(inv, base, cursor) && inv(world)
      modifies this`world, this`at
      ensures inv(world) && passed <= prev && (done ==> passed == prev)
      ensures PassedFrom(old(world), old(world).outbox.Keys, answers, 1, passed, others)(world)
      ensures Stepped(script, old(at), ReconcileAwaits(prev), done)(at)
    {
      if prev > 0 {
        assert Sound(world, base, cursor);
        done, answers, passed := ReconcileFlags(prev, inv);
      } else {
        StableIsSafe(inv, world, base, cursor);
        PassStarts(world, world.outbox.Keys, others);
        StepsNone(script, at, 0);
        done, answers, passed := true, map[], 0;
      }
    }

    /** Walk from `prev + 1` to the highest UID, if there is anything new. */
    method WalkNew(prev: u32, ghost keep: (World, nat) -> bool)
      returns (done: bool, ghost fetched: map<nat, Flags>, ghost top: nat)
      requires prev + 1 < U32_LIMIT && base <= prev + 1
      requires cursor == prev || (cursor == 0 && base == prev + 1)
      requires Keeps(keep, base, 0) && keep(world, cursor)
      modifies this`world, this`at, this`cursor
      ensures keep(world, cursor) && prev <= top < U32_LIMIT
      ensures done ==> WalkedNewFrom(kind, others, notifyAllowed, old(world), prev, cursor, fetched, top)(world)
      ensures InroadsFrom(old(world), prev + 1, top, Notifies(notifyAllowed, prev), others)(world)
      ensures Stepped(script, old(at), NewAwaits(prev, top), done)(at)
    {
      var highest;
      fetched, top := map[], prev;
      done, highest := FindHighest(cursor, keep);
      InroadsWait(others, old(world), world, prev + 1, top, Notifies(notifyAllowed, prev));
      StepsFew(script, old(at), at, 1, NewAwaits(prev, top), done);
      if done { done, fetched, top := WalkFound(prev, highest, old(world), old(at), keep); }
    }

    /** … once the highest UID has been found, since `start`. */
    method WalkFound(prev: u32, highest: Option<nat>, ghost start: World, ghost from: nat,
                     ghost keep: (World, nat) -> bool)
      returns (done: bool, ghost fetched: map<nat, Flags>, ghost top: nat)
      requires prev + 1 < U32_LIMIT && base <= prev + 1
      requires cursor == prev || (cursor == 0 && base == prev + 1)
      requires Keeps(keep, base, 0) && keep(world, cursor) && Stepped(script, from, 1, true)(at)
      requires FoundFrom(others, start, highest)(world) && Waited(others, start, false)(world)
      requires highest.Some? ==> 1 <= highest.value < world.server.next <= U32_LIMIT
      modifies this`world, this`at, this`cursor
      ensures keep(world, cursor) && prev <= top < U32_LIMIT
      ensures done ==> WalkedNewFrom(kind, others, notifyAllowed, start, prev, cursor, fetched, top)(world)
      ensures InroadsFrom(start, prev + 1, top, Notifies(notifyAllowed, prev), others)(world)
      ensures Stepped(script, from, NewAwaits(prev, top), done)(at)
    {
      if highest.None? || highest.value <= prev {
        done, fetched, top := true, map[], prev;
        InroadsWait(others, start, world, prev + 1, top, Notifies(notifyAllowed, prev));
        StepsFew(script, from, at, 1, NewAwaits(prev, top), done);
        NothingNew(kind, others, notifyAllowed, start, prev, highest, world, cursor, prev + 1);
      } else {
        top := highest.value;
        ghost var i := at;
        done, fetched := Walk(prev, prev + 1, highest.value, start, keep);
        StepsOn(script, from, i, at, 1, WalkAwaits(prev + 1, top), NewAwaits(prev, top), done);
      }
    }

    method FindHighest(ghost c: nat, ghost keep: (World, nat) -> bool) returns (done: bool, highest: Option<nat>)
      requires Keeps(keep, base, 0) && c == cursor && keep(world, c)
      modifies this`world, this`at
      ensures keep(world, c) && Waited(others, old(world), false)(world)
      ensures highest.Some? ==> 1 <= highest.value < world.server.next <= U32_LIMIT
      ensures done ==> FoundFrom(others, old(world), highest)(world)
      ensures Stepped(script, old(at), 1, done)(at)
    {
      highest := None;
      KeepIsStable(keep, world, base, 0, c);
      var turn := Pause(w => keep(w, c));
      done := turn.Go?;
      KeepIsStable(keep, world, base, 0, c);
      if done {
        highest := Highest(world.server.mail, world.server.next - 1);
        WaitFound(others, old(world), world);
      }
    }

    // ---- cycles and runs -------------------------------------------------

    /** One sync cycle of the folder: push what is queued, then sync. */
    method Cycle() returns (done: bool, ghost flushed: World, ghost left: set<Key>, ghost h: Haul)
      requires Inv() && cursor + 1 < U32_LIMIT
      modifies this`world, this`at, this`cursor, this`epoch, this`base
      ensures Inv()
      ensures old(Current()) ==>
        Current() && ForwardFrom(old(world))(world) && (base == old(base) || (base == 1 && old(cursor) == 0))
      ensures epoch == Some(world.server.epoch) ==> Justified(world)
      ensures FlushingFrom(others, willing, old(world), left)(flushed)
      ensures if left == {} then old(Current()) ==> SyncingFrom(others, notifyAllowed, flushed, old(cursor), h)(world)
              else world == flushed && !done
      ensures done ==>
        SyncedFrom(kind, others, notifyAllowed, Purged(flushed, !old(Current())), old(cursor), cursor, h)(world)
      ensures flushed.notified == old(world).notified && flushed.rows.Keys == old(world).rows.Keys
      ensures old(Current()) && old(cursor) == 0 ==> world.notified == old(world).notified
      ensures Stepped(script, old(at), CycleAwaits(old(world).outbox), done)(at)
    {
      ghost var w0, b, c := world, base, cursor;
      AheadIsStable(w0, b, c);
      done, left := FlushPendingFlags(AheadOf(w0, b, c));
      StepsFew(script, old(at), at, FlushAwaits(w0.outbox), CycleAwaits(w0.outbox), done);
      IsAhead(w0, world, b, c);
      flushed, h := world, Haul(world, world, map[], 0, map[], c);
      InvIsSafe(epoch, base, cursor, world);
      if !done { return; }
      ghost var i := at;
      done, h := SyncFolder();
      SyncIsBounded(c, h.highest);
      StepsOn(script, old(at), i, at, FlushAwaits(w0.outbox), SyncAwaits(c, h.highest), CycleAwaits(w0.outbox), done);
      if old(Current()) { ForwardJoin(w0, flushed, world); }
    }

    /** A cycle in which at most mail comes and goes, with every push accepted: every
        message still on the server, up to the highest UID looked for, has a row that
        agrees with it on every flag, on the user's value where one was queued, and what
        the server had dropped is hidden. It completes where enough awaits go on. */
    method CycleAlone() returns (done: bool, ghost highest: nat)
      requires Inv() && Current() && base == 1 && cursor + 1 < U32_LIMIT && others.MailOnly? && willing
      modifies this`world, this`at, this`cursor, this`epoch, this`base
      ensures Inv() && Current()
      ensures done ==> AgreeingWith(old(world), old(cursor), highest)(world)
      ensures Smooth(script, old(at), CycleAwaits(old(world).outbox)) ==> done
    {
      ghost var a, prev, i := world, cursor, at;
      ghost var flushed, left, h;
      done, flushed, left, h := Cycle();
      highest := h.highest;
      if done { AloneConverges(kind, notifyAllowed, a, flushed, prev, world, cursor, h); }
      if Smooth(script, i, CycleAwaits(a.outbox)) {
        SmoothIsDone(script, i, at, CycleAwaits(a.outbox), CycleAwaits(a.outbox), done);
      }
    }

    /** The server gives the mailbox a new UIDVALIDITY, larger than any before, and
        new UIDs with it. History goes on. */
    method Renumber(server: Server)
      requires Inv() && ServerOk(server) && server.epoch > world.server.epoch
      modifies this`world
      ensures Inv()
      ensures world ==
        old(world).(server := server.(clock := old(world).server.clock, until := old(world).server.until))
    {
      world := world.(server := server.(clock := world.server.clock, until := world.server.until));
    }

    ghost function Now(): Moment
      reads this
    {
      Moment(world, cursor, epoch, at)
    }

    /** Any number of cycles, each cut wherever the script says, with UIDVALIDITY
        changes in between: at the end, as at every state on the way, every message up
        to the cursor has a row, provided the epoch's walk began at UID 1; no row is
        hidden without excuse and no flag is invented. `moments` is the way. */
    method Run(plan: seq<Option<Server>>) returns (renumbered: bool, ghost moments: seq<Moment>)
      requires Inv()
      modifies this`world, this`at, this`cursor, this`epoch, this`base
      ensures Inv()
      ensures old(Current()) && !renumbered ==>
        Current() && ForwardFrom(old(world))(world) && (base == old(base) || base == 1)
      ensures Current() && base == 1 ==> Covered(world.server.mail, world.rows, 0, cursor)
      ensures old(Current()) && old(base) == 1 && !renumbered ==> Covered(world.server.mail, world.rows, 0, cursor)
      ensures Current() ==> Justified(world)
      ensures WayAlong(kind, others, notifyAllowed, willing, script, plan)(moments)
      ensures |moments| == |plan| + 1 && moments[0] == old(Now()) && moments[|plan|] == Now()
      ensures renumbered ==> exists i :: 0 <= i < |plan| && plan[i].Some?
    {
      renumbered, moments := false, [Now()];
      StartsForward(world);
      for i := 0 to |plan|
        invariant Inv()
        invariant old(Current()) && !renumbered ==>
          Current() && ForwardFrom(old(world))(world) && (base == old(base) || base == 1)
        invariant |moments| == i + 1 && moments[0] == old(Now()) && moments[i] == Now()
        invariant WayAlong(kind, others, notifyAllowed, willing, script, plan[..i])(moments)
        invariant renumbered ==> exists k :: 0 <= k < i && plan[k].Some?
      {
        var changed := Take(plan[i], Now(), old(world));
        renumbered := renumbered || changed;
        WayOn(kind, others, notifyAllowed, willing, script, plan, moments, i, Now());
        moments := moments + [Now()];
      }
      assert plan[..|plan|] == plan;
    }

    /** One entry of a plan, from the moment `m`; no cycle where the cursor has nowhere to go. */
    method Take(entry: Option<Server>, ghost m: Moment, ghost start: World) returns (renumbered: bool)
      requires Inv() && m == Now()
      modifies this`world, this`at, this`cursor, this`epoch, this`base
      ensures Inv() && Went(kind, others, notifyAllowed, willing, script, entry, m, Now())
      ensures renumbered ==> entry.Some?
      ensures old(Current()) && !renumbered ==> Current() && (base == old(base) || base == 1)
      ensures old(Current()) && !renumbered && ForwardFrom(start)(m.world) ==> ForwardFrom(start)(world)
    {
      renumbered := false;
      if entry.None? {
        if cursor + 1 < U32_LIMIT {
          ghost var done, flushed, left, h;
          done, flushed, left, h := Cycle();
          CycleWent(kind, others, notifyAllowed, willing, script, m, Now(), done, flushed, left, h);
          if old(Current()) && ForwardFrom(start)(m.world) { ForwardJoin(start, m.world, world); }
        }
      } else if ValidServer(entry.value) && entry.value.epoch > world.server.epoch {
        Renumber(entry.value);
        renumbered := true;
      }
    }
  }
}
