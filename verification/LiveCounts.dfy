/** The per-folder live-message counters: row triggers keep them, progress reporting
    sums them, and a recount must always agree. */
module LiveCounts {
  import opened Basics

  datatype Message = Message(folder: nat, deleted: bool)
  datatype Folder = Folder(account: nat, syncEnabled: bool, liveCount: int)

  /** Ids of the live messages of some folders. */
  ghost function LiveIn(messages: map<nat, Message>, folders: set<nat>): set<nat> {
    set id | id in messages && !messages[id].deleted && messages[id].folder in folders
  }

  ghost predicate Coherent(messages: map<nat, Message>, folders: map<nat, Folder>) {
    && (forall id :: id in messages ==> messages[id].folder in folders)
    && (forall f :: f in folders ==> folders[f].liveCount == |LiveIn(messages, {f})|)
  }

  function One(live: bool): int { if live then 1 else 0 }

  function SetCount(folders: map<nat, Folder>, f: nat, count: int): map<nat, Folder> {
    if f in folders then folders[f := folders[f].(liveCount := count)] else folders
  }

  ghost predicate SameBut(before: map<nat, Message>, after: map<nat, Message>, id: nat) {
    forall k :: k != id ==> (k in after <==> k in before) && (k in after ==> after[k] == before[k])
  }

  function LiveAt(messages: map<nat, Message>, id: nat, f: nat): int {
    if id in messages && !messages[id].deleted && messages[id].folder == f then 1 else 0
  }

  lemma {:induction false} WithoutOne(messages: map<nat, Message>, id: nat, f: nat)
    ensures |LiveIn(messages, {f})| == |LiveIn(messages, {f}) - {id}| + LiveAt(messages, id, f)
  {
    var live := LiveIn(messages, {f});
    if id in live { assert live == (live - {id}) + {id}; } else { assert live == live - {id}; }
  }

  lemma {:induction false} OthersStay(before: map<nat, Message>, after: map<nat, Message>, id: nat, f: nat)
    requires SameBut(before, after, id)
    ensures LiveIn(after, {f}) - {id} == LiveIn(before, {f}) - {id}
  {
    forall k | k != id ensures k in LiveIn(after, {f}) <==> k in LiveIn(before, {f}) {}
  }

  /** Recounting after one message changed: only its own contribution moves. */
  lemma {:induction false} Recount(before: map<nat, Message>, after: map<nat, Message>, id: nat, f: nat)
    requires SameBut(before, after, id)
    ensures |LiveIn(after, {f})| - LiveAt(after, id, f) == |LiveIn(before, {f})| - LiveAt(before, id, f)
  {
    OthersStay(before, after, id, f);
    WithoutOne(before, id, f);
    WithoutOne(after, id, f);
  }

  /** Counters moved by exactly the change of one message stay coherent. */
  lemma {:induction false} CountersFollow(before: map<nat, Message>, after: map<nat, Message>, id: nat,
                                          was: map<nat, Folder>, now: map<nat, Folder>)
    requires Coherent(before, was) && SameBut(before, after, id) && now.Keys == was.Keys
    requires id in after ==> after[id].folder in now
    requires forall f :: f in now ==>
               now[f].liveCount == was[f].liveCount + LiveAt(after, id, f) - LiveAt(before, id, f)
    ensures Coherent(after, now)
  {
    forall f | f in now ensures now[f].liveCount == |LiveIn(after, {f})| {
      Recount(before, after, id, f);
    }
    forall k | k in after ensures after[k].folder in now {
      if k != id { assert k in before; }
    }
  }

  /** A live message is counted, so taking one off never needs the clamp. */
  lemma {:induction false} ClampNeverFires(messages: map<nat, Message>, folders: map<nat, Folder>, id: nat)
    requires Coherent(messages, folders) && id in messages
    ensures messages[id].folder in folders
    ensures folders[messages[id].folder].liveCount >= One(!messages[id].deleted)
  {
    var live := LiveIn(messages, {messages[id].folder});
    if !messages[id].deleted { assert id in live; }
  }

  // ---- the progress sum ---------------------------------------------------

  ghost function Pick(s: set<nat>): nat
    requires s != {}
    ensures Pick(s) in s
  {
    var x :| x in s; x
  }

  ghost function SumLive(folders: map<nat, Folder>, s: set<nat>): int
    requires s <= folders.Keys
    decreases |s|
  {
    if s == {} then 0 else folders[Pick(s)].liveCount + SumLive(folders, s - {Pick(s)})
  }

  /** `SYNCED_MESSAGE_COUNT_SQL`: the sum over the account's enabled folders. */
  ghost function SyncedCount(folders: map<nat, Folder>, account: nat): int {
    SumLive(folders, set f | f in folders && folders[f].account == account && folders[f].syncEnabled)
  }

  lemma {:induction false} SumIsRecount(messages: map<nat, Message>, folders: map<nat, Folder>, s: set<nat>)
    requires Coherent(messages, folders) && s <= folders.Keys
    ensures SumLive(folders, s) == |LiveIn(messages, s)|
    decreases |s|
  {
    if s == {} {
      assert LiveIn(messages, s) == {};
    } else {
      var f := Pick(s);
      SumIsRecount(messages, folders, s - {f});
      assert LiveIn(messages, s) == LiveIn(messages, {f}) + LiveIn(messages, s - {f});
      assert LiveIn(messages, {f}) !! LiveIn(messages, s - {f});
    }
  }

  /** The progress number is the number of live messages in the account's enabled folders. */
  ghost predicate SyncedIsRecount(messages: map<nat, Message>, folders: map<nat, Folder>, account: nat) {
    SyncedCount(folders, account) ==
      |set id | id in messages && !messages[id].deleted && messages[id].folder in folders
                && folders[messages[id].folder].account == account && folders[messages[id].folder].syncEnabled|
  }

  lemma {:induction false} SyncedCountIsRecount(messages: map<nat, Message>, folders: map<nat, Folder>, account: nat)
    requires Coherent(messages, folders)
    ensures SyncedIsRecount(messages, folders, account)
  {
    var s := set f | f in folders && folders[f].account == account && folders[f].syncEnabled;
    SumIsRecount(messages, folders, s);
    assert LiveIn(messages, s) ==
           set id | id in messages && !messages[id].deleted && messages[id].folder in folders
                    && folders[messages[id].folder].account == account && folders[messages[id].folder].syncEnabled;
  }

  // ---- the tables and their triggers --------------------------------------

  datatype Statement =
    | Insert(id: nat, folder: nat, deleted: bool)
    | Update(id: nat, folder: nat, deleted: bool)
    | Delete(id: nat)
    | AddFolder(folder: nat, account: nat, syncEnabled: bool)
    | EnableFolder(folder: nat, syncEnabled: bool)
    | DropFolder(folder: nat)

  /** The tables as the statements alone leave them, the counters apart. */
  datatype Tables = Tables(messages: map<nat, Message>, folders: map<nat, (nat, bool)>)

  function Plain(messages: map<nat, Message>, folders: map<nat, Folder>): Tables {
    Tables(messages, Settings(folders))
  }

  function Settings(folders: map<nat, Folder>): map<nat, (nat, bool)> {
    map f | f in folders :: (folders[f].account, folders[f].syncEnabled)
  }

  ghost predicate SameSettings(a: map<nat, Folder>, b: map<nat, Folder>) {
    && b.Keys == a.Keys
    && forall f :: f in a ==> b[f].account == a[f].account && b[f].syncEnabled == a[f].syncEnabled
  }

  lemma {:induction false} SettingsStay(a: map<nat, Folder>, b: map<nat, Folder>)
    requires SameSettings(a, b)
    ensures Settings(b) == Settings(a)
  {
    forall f ensures f in Settings(b) <==> f in Settings(a) { assert f in b.Keys <==> f in a.Keys; }
  }

  lemma {:induction false} SettingsSet(folders: map<nat, Folder>, f: nat, folder: Folder)
    ensures Settings(folders[f := folder]) == Settings(folders)[f := (folder.account, folder.syncEnabled)]
  {
  }

  lemma {:induction false} SettingsWithout(folders: map<nat, Folder>, f: nat)
    ensures Settings(folders - {f}) == Settings(folders) - {f}
  {
  }

  /** What a statement does. One that would break a key or a reference does nothing. */
  function Carried(t: Tables, s: Statement): Tables {
    match s
    case Insert(id, folder, deleted) =>
      if id in t.messages || folder !in t.folders then t
      else t.(messages := t.messages[id := Message(folder, deleted)])
    case Update(id, folder, deleted) =>
      if id !in t.messages || folder !in t.folders then t
      else t.(messages := t.messages[id := Message(folder, deleted)])
    case Delete(id) => t.(messages := t.messages - {id})
    case AddFolder(f, account, syncEnabled) =>
      if f in t.folders then t else t.(folders := t.folders[f := (account, syncEnabled)])
    case EnableFolder(f, syncEnabled) =>
      if f !in t.folders then t else t.(folders := t.folders[f := (t.folders[f].0, syncEnabled)])
    case DropFolder(f) =>
      Tables(Outside(t.messages, f), t.folders - {f})
  }

  /** The messages of all folders but one. */
  function Outside(messages: map<nat, Message>, f: nat): map<nat, Message> {
    map id | id in messages && messages[id].folder != f :: messages[id]
  }

  function AllCarried(t: Tables, statements: seq<Statement>): Tables {
    if statements == [] then t
    else Carried(AllCarried(t, statements[..|statements| - 1]), statements[|statements| - 1])
  }

  /** One off the old folder and one on the next. */
  lemma {:induction false} TriggerMoves(before: map<nat, Message>, id: nat, next: Message, was: map<nat, Folder>,
                                        now: map<nat, Folder>)
    requires Coherent(before, was) && id in before && next.folder in was
    requires
      var last := before[id];
      var off := SetCount(was, last.folder, was[last.folder].liveCount - One(!last.deleted));
      now == if next == last then was else SetCount(off, next.folder, off[next.folder].liveCount + One(!next.deleted))
    ensures Coherent(before[id := next], now) && SameSettings(was, now)
  {
    forall f | f in now
      ensures now[f].liveCount ==
              was[f].liveCount + LiveAt(before[id := next], id, f) - LiveAt(before, id, f)
      ensures now[f].account == was[f].account && now[f].syncEnabled == was[f].syncEnabled
    {
      TriggerMovesAt(before, id, next, was, now, f);
    }
    CountersFollow(before, before[id := next], id, was, now);
  }

  lemma {:induction false} TriggerMovesAt(before: map<nat, Message>, id: nat, next: Message, was: map<nat, Folder>,
                                          now: map<nat, Folder>, f: nat)
    requires id in before && before[id].folder in was && next.folder in was && f in now
    requires
      var last := before[id];
      var off := SetCount(was, last.folder, was[last.folder].liveCount - One(!last.deleted));
      now == if next == last then was else SetCount(off, next.folder, off[next.folder].liveCount + One(!next.deleted))
    ensures f in was && now[f].account == was[f].account && now[f].syncEnabled == was[f].syncEnabled
    ensures now[f].liveCount == was[f].liveCount + LiveAt(before[id := next], id, f) - LiveAt(before, id, f)
  {
  }

  class Store {
    var messages: map<nat, Message>
    var folders: map<nat, Folder>

    constructor ()
      ensures messages == map[] && folders == map[]
      ensures Coherent(messages, folders)
    {
      messages, folders := map[], map[];
    }

    /** The trigger after an insert. */
    method InsertMessage(id: nat, folder: nat, deleted: bool)
      requires Coherent(messages, folders) && id !in messages && folder in folders
      modifies this
      ensures messages == old(messages)[id := Message(folder, deleted)]
      ensures Coherent(messages, folders) && SameSettings(old(folders), folders)
    {
      messages := messages[id := Message(folder, deleted)];
      if !deleted {
        folders := SetCount(folders, folder, folders[folder].liveCount + 1);
      }
      CountersFollow(old(messages), messages, id, old(folders), folders);
    }

    /** The trigger after a delete. */
    method DeleteMessage(id: nat)
      requires Coherent(messages, folders) && id in messages
      modifies this
      ensures messages == old(messages) - {id}
      ensures Coherent(messages, folders) && SameSettings(old(folders), folders)
    {
      var m := messages[id];
      ClampNeverFires(messages, folders, id);
      messages := messages - {id};
      if !m.deleted {
        folders := SetCount(folders, m.folder, Max(folders[m.folder].liveCount - 1, 0));
      }
      CountersFollow(old(messages), messages, id, old(folders), folders);
    }

    /** The trigger after a change of folder or visibility: one off the old folder,
        one on the new, each only if the row is live there. */
    method UpdateMessage(id: nat, folder: nat, deleted: bool)
      requires Coherent(messages, folders) && id in messages && folder in folders
      modifies this
      ensures messages == old(messages)[id := Message(folder, deleted)]
      ensures Coherent(messages, folders) && SameSettings(old(folders), folders)
    {
      var m := messages[id];
      ClampNeverFires(messages, folders, id);
      messages := messages[id := Message(folder, deleted)];
      if m.folder != folder || m.deleted != deleted {
        folders := SetCount(folders, m.folder, Max(folders[m.folder].liveCount - One(!m.deleted), 0));
        folders := SetCount(folders, folder, folders[folder].liveCount + One(!deleted));
      }
      TriggerMoves(old(messages), id, Message(folder, deleted), old(folders), folders);
    }

    /** Messages go with their folder. */
    method DropFolder(f: nat)
      requires Coherent(messages, folders) && f in folders
      modifies this
      ensures messages == Outside(old(messages), f)
      ensures folders == old(folders) - {f} && Coherent(messages, folders)
    {
      var kept := map id | id in messages && messages[id].folder != f :: messages[id];
      forall g | g in folders && g != f ensures LiveIn(kept, {g}) == LiveIn(messages, {g}) {}
      messages, folders := kept, folders - {f};
    }

    /** Any statement; one that would break a key or a reference fails and changes nothing. */
    method Execute(s: Statement)
      requires Coherent(messages, folders)
      modifies this
      ensures Coherent(messages, folders)
      ensures Plain(messages, folders) == Carried(old(Plain(messages, folders)), s)
    {
      ghost var was := folders;
      match s
      case Insert(id, folder, deleted) =>
        if id !in messages && folder in folders { InsertMessage(id, folder, deleted); }
        SettingsStay(was, folders);
      case Update(id, folder, deleted) =>
        if id in messages && folder in folders { UpdateMessage(id, folder, deleted); }
        SettingsStay(was, folders);
      case Delete(id) =>
        if id in messages { DeleteMessage(id); }
        SettingsStay(was, folders);
      case AddFolder(f, account, syncEnabled) =>
        if f !in folders {
          assert LiveIn(messages, {f}) == {};
          SettingsSet(folders, f, Folder(account, syncEnabled, 0));
          folders := folders[f := Folder(account, syncEnabled, 0)];
        }
      case EnableFolder(f, syncEnabled) =>
        if f in folders {
          SettingsSet(folders, f, folders[f].(syncEnabled := syncEnabled));
          folders := folders[f := folders[f].(syncEnabled := syncEnabled)];
        }
      case DropFolder(f) =>
        SettingsWithout(folders, f);
        if f in folders { DropFolder(f); }
    }

    /** After any sequence of statements, all carried out, every counter equals a recount, and so does
        the progress sum of every account. */
    method Run(statements: seq<Statement>)
      requires Coherent(messages, folders)
      modifies this
      ensures forall f :: f in folders ==> folders[f].liveCount == |LiveIn(messages, {f})|
      ensures forall account: nat :: SyncedIsRecount(messages, folders, account)
      ensures Plain(messages, folders) == AllCarried(old(Plain(messages, folders)), statements)
    {
      for i := 0 to |statements|
        invariant Coherent(messages, folders)
        invariant Plain(messages, folders) == AllCarried(old(Plain(messages, folders)), statements[..i])
      {
        assert statements[..i + 1][..i] == statements[..i];
        Execute(statements[i]);
      }
      assert statements[..|statements|] == statements;
      forall account: nat ensures SyncedIsRecount(messages, folders, account) {
        SyncedCountIsRecount(messages, folders, account);
      }
    }
  }
}
