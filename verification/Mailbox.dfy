/** The data of one synced mail folder: local rows, the outbox of unpushed flag
    changes, the server's mailbox, and what the server and the user may do while
    the sync task waits. */
module Mailbox {
  import opened Basics

  const U32_LIMIT: int := 0x1_0000_0000
  const MAX_FLAG_PUSH_ATTEMPTS: nat := 10

  type u32 = x: int | 0 <= x < 0x1_0000_0000

  datatype Flags = Flags(seen: bool, flagged: bool, deleted: bool)

  /** The two flags whose local changes are queued for the server. */
  datatype Flag = Seen | Flagged

  datatype Key = Key(uid: nat, flag: Flag)

  /** One outbox entry: the value the user chose and the failed pushes so far. */
  datatype Op = Op(value: bool, attempts: nat)

  type Rows = map<nat, Flags>
  type Outbox = map<Key, Op>

  /** Flags the server showed for a message of an epoch. */
  datatype Sight = Sight(epoch: nat, uid: nat, flags: Flags)

  /** A value the user gave a flag. */
  datatype Choice = Choice(key: Key, value: bool)

  /** `next` is the UID the server will give to the next arrival. `clock` and `until`
      are history: when the server last showed what it no longer shows. */
  datatype Server = Server(mail: map<nat, Flags>, next: nat, epoch: nat, clock: nat, until: map<Sight, nat>)

  function Get(f: Flags, flag: Flag): bool {
    match flag
    case Seen => f.seen
    case Flagged => f.flagged
  }

  function Put(f: Flags, flag: Flag, value: bool): Flags {
    match flag
    case Seen => f.(seen := value)
    case Flagged => f.(flagged := value)
  }

  // ---- what happens outside the sync task --------------------------------

  datatype Event =
    | Arrive(flags: Flags)                        // new mail, under a strictly larger UID
    | Expunge(uid: nat)                           // the server drops a message
    | Remark(uid: nat, flags: Flags)              // another client changes flags
    | Edit(uid: nat, flag: Flag, value: bool)     // the user flips a flag locally
    | Hide(uid: nat)                              // the user deletes a message locally

  /** One await of the sync task: the task is dropped or errs there, or it goes
      on after some events. `accept` answers a flag push; `omit` lists messages an
      API provider leaves out of a fetch under backpressure. */
  datatype Turn = Cut | Go(events: seq<Event>, accept: bool, omit: set<nat>)

  /** From await `i` to `j` of a script, `n` at most: all went on, unless the work is not
      `done`; then the last one was cut, or the script ran out before the next. */
  ghost predicate Steps(script: seq<Turn>, i: nat, j: nat, n: nat, done: bool) {
    && i <= j <= i + n && (i < j ==> j <= |script|)
    && (forall k :: i <= k < j ==> script[k].Go? || (!done && k == j - 1))
    && (!done ==> |script| <= j < i + n || (i < j <= |script| && script[j - 1].Cut?))
  }

  ghost function Stepped(script: seq<Turn>, i: nat, n: nat, done: bool): nat -> bool {
    (j: nat) => Steps(script, i, j, n, done)
  }

  /** The next `n` awaits go on. */
  ghost predicate Smooth(script: seq<Turn>, i: nat, n: nat) {
    i + n <= |script| && forall k :: i <= k < i + n ==> script[k].Go?
  }

  lemma {:induction false} StepsNone(script: seq<Turn>, i: nat, n: nat)
    ensures Stepped(script, i, n, true)(i)
  {
  }

  lemma {:induction false} StepsOn(script: seq<Turn>, i: nat, j: nat, k: nat, n: nat, m: nat, p: nat, done: bool)
    requires Stepped(script, i, n, true)(j) && Stepped(script, j, m, done)(k) && n + m <= p
    ensures Stepped(script, i, p, done)(k)
  {
    assert Steps(script, i, j, n, true) && Steps(script, j, k, m, done);
  }

  lemma {:induction false} StepsFew(script: seq<Turn>, i: nat, j: nat, n: nat, p: nat, done: bool)
    requires Stepped(script, i, n, done)(j) && n <= p
    ensures Stepped(script, i, p, done)(j)
  {
    assert Steps(script, i, j, n, done);
  }

  /** Where enough awaits go on, the work gets done. */
  lemma {:induction false} SmoothIsDone(script: seq<Turn>, i: nat, j: nat, n: nat, p: nat, done: bool)
    requires Stepped(script, i, n, done)(j) && n <= p && Smooth(script, i, p)
    ensures done
  {
    assert Steps(script, i, j, n, done);
  }

  /** Server, local tables and histories: the notifications sent, in `raced` the flags
      the user edited while a flag reconciliation was under way, how often and to what
      values each flag was edited, and what the user deleted. */
  datatype World = World(server: Server, rows: Rows, outbox: Outbox, notified: seq<nat>, raced: set<Key>,
                         edits: map<Key, nat>, chosen: set<Choice>, hid: set<nat>)

  function Edits(w: World, key: Key): nat { if key in w.edits then w.edits[key] else 0 }

  predicate EditedSince(a: World, b: World, key: Key) { Edits(a, key) < Edits(b, key) }

  /** The server changes the flags of a message. */
  function Reshow(s: Server, uid: nat, f: Flags): Server
    requires uid in s.mail
  {
    s.(mail := s.mail[uid := f], clock := s.clock + 1, until := s.until[Sight(s.epoch, uid, s.mail[uid]) := s.clock])
  }

  function Dropped(s: Server, uid: nat): Server {
    if uid !in s.mail then s
    else s.(mail := s.mail - {uid}, clock := s.clock + 1, until := s.until[Sight(s.epoch, uid, s.mail[uid]) := s.clock])
  }

  function React(e: World, event: Event, racing: bool): World {
    match event
    case Arrive(flags) =>
      if e.server.next == U32_LIMIT then e
      else e.(server := e.server.(mail := e.server.mail[e.server.next := flags], next := e.server.next + 1))
    case Expunge(uid) => e.(server := Dropped(e.server, uid))
    case Remark(uid, flags) =>
      if uid in e.server.mail then e.(server := Reshow(e.server, uid, flags)) else e
    case Edit(uid, flag, value) =>
      if uid !in e.rows then e
      else
        var key := Key(uid, flag);
        e.(rows := e.rows[uid := Put(e.rows[uid], flag, value)], outbox := e.outbox[key := Op(value, 0)],
           raced := if racing then e.raced + {key} else e.raced - {key},
           edits := e.edits[key := Edits(e, key) + 1], chosen := e.chosen + {Choice(key, value)})
    case Hide(uid) =>
      if uid in e.rows then e.(rows := e.rows[uid := e.rows[uid].(deleted := true)], hid := e.hid + {uid}) else e
  }

  function ReactAll(e: World, events: seq<Event>, racing: bool): World
    decreases |events|
  {
    if events == [] then e else ReactAll(React(e, events[0], racing), events[1..], racing)
  }

  ghost predicate ServerOk(s: Server) {
    && 1 <= s.next <= U32_LIMIT && (forall u :: u in s.mail ==> 1 <= u < s.next)
    && (forall x {:trigger s.until[x]} {:trigger x in s.until} :: x in s.until ==>
          x.epoch <= s.epoch && s.until[x] < s.clock)
  }

  /** At some moment from `a` to `b` the server showed `f` for the message `u`. */
  predicate Showed(a: Server, b: Server, u: nat, f: Flags) {
    var x := Sight(b.epoch, u, f);
    (u in b.mail && b.mail[u] == f) || (x in b.until && a.clock <= b.until[x])
  }

  /** … at some moment up to `s`. */
  predicate Shown(s: Server, u: nat, f: Flags) {
    (u in s.mail && s.mail[u] == f) || Sight(s.epoch, u, f) in s.until
  }

  /** What the server does in an epoch: UIDs of arrivals only grow, and what was shown is
      on record. */
  ghost predicate ServerStep(a: Server, b: Server) {
    && a.next <= b.next && a.epoch == b.epoch && a.clock <= b.clock
    && (forall u :: u in b.mail ==> u in a.mail || a.next <= u)
    && (forall u :: u in a.mail ==> Showed(a, b, u, a.mail[u]))
    && (forall x :: x in a.until ==> x in b.until && a.until[x] <= b.until[x])
    && (forall x {:trigger b.until[x]} {:trigger x in b.until} :: x in b.until ==>
          && (b.until[x] < a.clock ==> x in a.until && a.until[x] == b.until[x])
          && (a.clock <= b.until[x] ==> x.uid < b.next))
  }

  /** Mail came and went, and no message showed other flags than its own. */
  ghost predicate Calm(a: Server, b: Server) {
    && (forall u: nat, f :: Showed(a, b, u, f) && u < a.next ==> u in a.mail && a.mail[u] == f)
    && (forall u: nat, f :: Showed(a, b, u, f) && u in b.mail ==> b.mail[u] == f)
  }

  lemma {:induction false} ServerStepTrans(a: Server, b: Server, c: Server)
    requires ServerStep(a, b) && ServerStep(b, c)
    ensures ServerStep(a, c)
  {
    forall u | u in a.mail ensures Showed(a, c, u, a.mail[u]) { ShowedLater(a, b, c, u, a.mail[u]); }
  }

  lemma {:induction false} ShowedLater(a: Server, b: Server, c: Server, u: nat, f: Flags)
    requires ServerStep(a, b) && ServerStep(b, c)
    requires Showed(a, b, u, f) || Showed(b, c, u, f)
    ensures Showed(a, c, u, f)
  {
    if Showed(a, b, u, f) && u in b.mail && b.mail[u] == f { assert Showed(b, c, u, f); }
  }

  lemma {:induction false} CalmTrans(a: Server, b: Server, c: Server)
    requires ServerStep(a, b) && ServerStep(b, c) && Calm(a, b) && Calm(b, c)
    ensures Calm(a, c)
  {
    forall u: nat, f | Showed(a, c, u, f)
      ensures u < a.next ==> u in a.mail && a.mail[u] == f
      ensures u in c.mail ==> c.mail[u] == f
    {
      CalmThrough(a, b, c, u, f);
    }
  }

  lemma {:induction false} CalmThrough(a: Server, b: Server, c: Server, u: nat, f: Flags)
    requires ServerStep(a, b) && ServerStep(b, c) && Calm(a, b) && Calm(b, c) && Showed(a, c, u, f)
    ensures u < a.next ==> u in a.mail && a.mail[u] == f
    ensures u in c.mail ==> c.mail[u] == f
  {
    if Showed(b, c, u, f) {
      if u < a.next { assert Showed(a, b, u, f); }
    } else {
      assert Showed(a, b, u, f);
      assert u !in b.mail;
    }
  }

  /** The flag of `key` was not edited between the two states. */
  ghost predicate Untouched(a: World, b: World, key: Key)
    requires a.rows.Keys == b.rows.Keys && key.uid in a.rows
  {
    && Get(b.rows[key.uid], key.flag) == Get(a.rows[key.uid], key.flag)
    && (key in b.outbox <==> key in a.outbox)
    && (key in a.outbox ==> b.outbox[key] == a.outbox[key])
    && (key in b.raced <==> key in a.raced) && Edits(a, key) == Edits(b, key)
  }

  /** The user's last edit of `key` is what both the row and the outbox hold. */
  ghost predicate Edited(a: World, b: World, key: Key, racing: bool) {
    && EditedSince(a, b, key) && key in b.outbox && key.uid in b.rows
    && Get(b.rows[key.uid], key.flag) == b.outbox[key].value
    && b.outbox[key].attempts == 0 && Choice(key, b.outbox[key].value) in b.chosen
    && (key in b.raced <==> racing)
  }

  /** What any number of events can do: UIDs of arrivals only grow, rows neither
      appear nor vanish, a flag is either untouched or carries the user's edit, and only
      the user hides rows. */
  ghost predicate EnvStep(a: World, b: World, racing: bool) {
    && ServerOk(b.server) && ServerStep(a.server, b.server)
    && a.notified == b.notified && a.rows.Keys == b.rows.Keys && a.hid <= b.hid && a.chosen <= b.chosen
    && (forall u :: u in a.rows && a.rows[u].deleted ==> b.rows[u].deleted)
    && (forall u :: u in a.rows && b.rows[u].deleted ==> a.rows[u].deleted || u in b.hid)
    && (forall key: Key :: key.uid in a.rows ==> Untouched(a, b, key) || Edited(a, b, key, racing))
    && (forall key: Key :: key.uid !in a.rows ==>
          && (key in a.outbox <==> key in b.outbox) && (key in a.outbox ==> a.outbox[key] == b.outbox[key])
          && Edits(a, key) == Edits(b, key))
  }

  /** Who may act while the sync task waits: in `MailOnly`, mail comes and goes and
      nobody changes flags. */
  datatype Others = Everyone | ServerOnly | MailOnly

  predicate May(event: Event, others: Others) {
    match others
    case Everyone => true
    case ServerOnly => !event.Edit? && !event.Hide?
    case MailOnly => event.Arrive? || event.Expunge?
  }

  /** What this leaves of the server. */
  ghost predicate Still(others: Others, a: Server, b: Server) {
    others.MailOnly? ==> Calm(a, b)
  }

  /** … as a property of the server reached. */
  ghost function Moved(others: Others, a: Server): Server -> bool {
    (b: Server) => ServerStep(a, b) && Still(others, a, b)
  }

  /** What a wait does. */
  ghost predicate Waits(others: Others, a: World, b: World, racing: bool) {
    && EnvStep(a, b, racing) && Still(others, a.server, b.server)
    && (!others.Everyone? ==> b == a.(server := b.server))
  }

  ghost function Waited(others: Others, a: World, racing: bool): World -> bool {
    (b: World) => Waits(others, a, b, racing)
  }

  lemma {:induction false} MovedTrans(others: Others, a: Server, b: Server, c: Server)
    requires Moved(others, a)(b) && Moved(others, b)(c)
    ensures Moved(others, a)(c)
  {
    ServerStepTrans(a, b, c);
    if others.MailOnly? { CalmTrans(a, b, c); }
  }

  lemma {:induction false} WaitMoves(others: Others, a: World, b: World, racing: bool)
    requires Waited(others, a, racing)(b)
    ensures EnvStep(a, b, racing) && Moved(others, a.server)(b.server)
  {
    assert Waits(others, a, b, racing);
  }

  lemma {:induction false} WaitedTwice(others: Others, a: World, b: World, c: World, racing: bool)
    requires Waited(others, a, racing)(b) && Waited(others, b, racing)(c)
    ensures Waited(others, a, racing)(c)
  {
    assert Waits(others, a, b, racing) && Waits(others, b, c, racing);
    EnvStepTrans(a, b, c, racing);
    if others.MailOnly? { CalmTrans(a.server, b.server, c.server); }
  }

  function Allowed(events: seq<Event>, others: Others): (r: seq<Event>)
    ensures forall i :: 0 <= i < |r| ==> May(r[i], others)
    decreases |events|
  {
    if events == [] then []
    else if May(events[0], others) then [events[0]] + Allowed(events[1..], others)
    else Allowed(events[1..], others)
  }

  lemma {:induction false} EditStep(e: World, event: Event, racing: bool)
    requires ServerOk(e.server) && event.Edit?
    ensures EnvStep(e, React(e, event, racing), racing)
  {
    var e' := React(e, event, racing);
    forall key: Key | key.uid in e.rows ensures Untouched(e, e', key) || Edited(e, e', key, racing) {
      if key.uid != event.uid || key.flag != event.flag {
        assert key != Key(event.uid, event.flag);
        assert Untouched(e, e', key);
      }
    }
  }

  lemma {:induction false} ReshowStep(s: Server, uid: nat, f: Flags)
    requires ServerOk(s) && uid in s.mail
    ensures ServerOk(Reshow(s, uid, f)) && ServerStep(s, Reshow(s, uid, f))
  {
  }

  lemma {:induction false} DropStep(s: Server, uid: nat)
    requires ServerOk(s)
    ensures ServerOk(Dropped(s, uid)) && ServerStep(s, Dropped(s, uid)) && Calm(s, Dropped(s, uid))
  {
  }

  lemma {:induction false} ArriveStep(s: Server, f: Flags)
    requires ServerOk(s) && s.next < U32_LIMIT
    ensures var s' := s.(mail := s.mail[s.next := f], next := s.next + 1);
            ServerOk(s') && ServerStep(s, s') && Calm(s, s')
  {
  }

  lemma {:induction false} ServerMoves(e: World, s: Server, racing: bool)
    requires ServerOk(s) && ServerStep(e.server, s)
    ensures EnvStep(e, e.(server := s), racing)
  {
  }

  lemma {:induction false} HideStep(e: World, uid: nat, racing: bool)
    requires ServerOk(e.server)
    ensures EnvStep(e, React(e, Hide(uid), racing), racing)
  {
    var e' := React(e, Hide(uid), racing);
    forall key: Key | key.uid in e.rows ensures Untouched(e, e', key) {
    }
  }

  lemma {:induction false} ReactStep(e: World, event: Event, racing: bool)
    requires ServerOk(e.server)
    ensures EnvStep(e, React(e, event, racing), racing)
  {
    var s := React(e, event, racing).server;
    if event.Edit? {
      EditStep(e, event, racing);
    } else if event.Hide? {
      HideStep(e, event.uid, racing);
    } else {
      if event.Arrive? && e.server.next < U32_LIMIT { ArriveStep(e.server, event.flags); }
      if event.Expunge? { DropStep(e.server, event.uid); }
      if event.Remark? && event.uid in e.server.mail { ReshowStep(e.server, event.uid, event.flags); }
      ServerMoves(e, s, racing);
    }
  }

  lemma {:induction false} EnvStepTrans(a: World, b: World, c: World, racing: bool)
    requires EnvStep(a, b, racing) && EnvStep(b, c, racing)
    ensures EnvStep(a, c, racing)
  {
    ServerStepTrans(a.server, b.server, c.server);
    forall key: Key | key.uid in a.rows
      ensures Untouched(a, c, key) || Edited(a, c, key, racing)
    {
      assert Untouched(a, b, key) || Edited(a, b, key, racing);
      assert Untouched(b, c, key) || Edited(b, c, key, racing);
    }
  }

  lemma {:induction false} ReactAllStep(e: World, events: seq<Event>, racing: bool)
    requires ServerOk(e.server)
    ensures EnvStep(e, ReactAll(e, events, racing), racing)
    decreases |events|
  {
    if events == [] {
    } else {
      var e' := React(e, events[0], racing);
      ReactStep(e, events[0], racing);
      ReactAllStep(e', events[1..], racing);
      EnvStepTrans(e, e', ReactAll(e', events[1..], racing), racing);
    }
  }

  /** Without the user only the server moves, and in a calm only mail. */
  lemma {:induction false} AllowedSteps(e: World, events: seq<Event>, racing: bool, others: Others)
    requires ServerOk(e.server) && !others.Everyone?
    requires forall j :: 0 <= j < |events| ==> May(events[j], others)
    ensures var e' := ReactAll(e, events, racing);
            e' == e.(server := e'.server) && Still(others, e.server, e'.server)
    decreases |events|
  {
    if events != [] {
      var e', end := React(e, events[0], racing), ReactAll(e, events, racing);
      ReactStep(e, events[0], racing);
      AllowedSteps(e', events[1..], racing, others);
      if others.MailOnly? {
        MailStep(e, events[0], racing);
        ReactAllStep(e', events[1..], racing);
        CalmTrans(e.server, e'.server, end.server);
      }
    }
  }

  lemma {:induction false} MailStep(e: World, event: Event, racing: bool)
    requires ServerOk(e.server) && May(event, MailOnly)
    ensures Calm(e.server, React(e, event, racing).server)
  {
    if event.Expunge? { DropStep(e.server, event.uid); }
    if event.Arrive? && e.server.next < U32_LIMIT { ArriveStep(e.server, event.flags); }
  }
}
