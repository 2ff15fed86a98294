/** Contact sync of one account: transactional change pages, the page loop of a book,
    and runs that end in a mark-and-sweep over generation stamps. The provider's
    answers, and where the database fails, come from a script. */
module ContactStore {
  import opened Basics

  datatype Contact = Contact(book: string, value: string, stamp: nat)

  datatype Book = Book(cursor: Option<nat>, stamp: nat)

  /** The rows of one account. A cursor is a position in the account's change log. */
  datatype Db = Db(generation: nat, books: map<string, Book>, contacts: map<string, Contact>)

  datatype Upsert = Upsert(book: string, id: string, value: string)

  datatype Tombstone = Tombstone(book: string, id: string)

  datatype Page = Page(upserts: seq<Upsert>, tombstones: seq<Tombstone>,
                       continuation: Option<string>, finalCursor: Option<nat>)

  /** A book as listed, and whether it can report changes since a cursor. */
  datatype Listed = Listed(id: string, syncCollection: bool)

  /** What an await came back with; `saved` is false when the page's transaction fails.
      An error may say that the cursor has expired. */
  datatype Reply =
    | Books(list: seq<Listed>)
    | Changes(page: Page, saved: bool)
    | Finished
    | Error(expired: bool)

  /** A reply, and the length of the remote log by then. */
  datatype Answer = Answer(head: nat, reply: Reply)

  /** One call of the adapter's `changes`. */
  datatype Request = Request(book: string, cursor: Option<nat>, continuation: Option<string>)

  datatype Outcome = Done | Failed(expired: bool)

  datatype State = State(db: Db, head: nat, answers: seq<Answer>, asked: seq<Request>)

  // ---- a page -------------------------------------------------------------

  datatype Op = Put(book: string, id: string, value: string) | Drop(book: string, id: string)

  function Act(contacts: map<string, Contact>, op: Op, stamp: nat): map<string, Contact> {
    match op
    case Put(book, id, value) => contacts[id := Contact(book, value, stamp)]
    case Drop(book, id) => if id in contacts && contacts[id].book == book then contacts - {id} else contacts
  }

  function Play(contacts: map<string, Contact>, ops: seq<Op>, stamp: nat): map<string, Contact> {
    if ops == [] then contacts else Act(Play(contacts, ops[..|ops| - 1], stamp), ops[|ops| - 1], stamp)
  }

  lemma {:induction false} PlayAppend(contacts: map<string, Contact>, a: seq<Op>, b: seq<Op>, stamp: nat)
    ensures Play(contacts, a + b, stamp) == Play(Play(contacts, a, stamp), b, stamp)
  {
    if b == [] {
      assert a + b == a;
    } else {
      assert (a + b)[..|a + b| - 1] == a + b[..|b| - 1];
      PlayAppend(contacts, a, b[..|b| - 1], stamp);
    }
  }

  function Puts(book: string, upserts: seq<Upsert>): seq<Op> {
    seq(|upserts|, i requires 0 <= i < |upserts| => Put(book, upserts[i].id, upserts[i].value))
  }

  function Drops(book: string, tombstones: seq<Tombstone>): seq<Op> {
    seq(|tombstones|, i requires 0 <= i < |tombstones| => Drop(book, tombstones[i].id))
  }

  /** Upserts, then tombstones; a tombstone only reaches rows of the page's own book. */
  function PageOps(book: string, page: Page): seq<Op> { Puts(book, page.upserts) + Drops(book, page.tombstones) }

  /** Pages no transaction accepts. */
  predicate Refused(book: string, page: Page) {
    || (page.continuation.Some? && page.finalCursor.Some?)
    || (exists u :: u in page.upserts && u.book != book)
    || (exists t :: t in page.tombstones && t.book == "")
  }

  function CursorOf(db: Db, book: string): Option<nat> {
    if book in db.books then db.books[book].cursor else None
  }

  function Applied(db: Db, book: string, generation: nat, page: Page): Db {
    var cursor := if page.finalCursor.Some? then page.finalCursor else CursorOf(db, book);
    Db(db.generation, db.books[book := Book(cursor, generation)], Play(db.contacts, PageOps(book, page), generation))
  }

  // ---- runs ---------------------------------------------------------------

  /** Where a run left things, and the operations its commits applied. */
  datatype Run = Run(s: State, outcome: Outcome, ops: seq<Op>)

  /** The pages of one book, from its first request or a later one. */
  function BookRun(s: State, book: string, cursor: Option<nat>, continuation: Option<string>, generation: nat): Run
    decreases |s.answers|
  {
    var t := s.(asked := s.asked + [Request(book, cursor, continuation)]);
    if s.answers == [] then Run(t, Failed(false), []) else
    var u := t.(answers := s.answers[1..], head := s.answers[0].head);
    match s.answers[0].reply
    case Error(expired) => Run(u, Failed(expired), [])
    case Changes(page, saved) =>
      if page.continuation.None? && page.finalCursor.None? then Run(u, Failed(false), [])
      else if Refused(book, page) || !saved then Run(u, Failed(false), [])
      else
        var v := u.(db := Applied(u.db, book, generation, page));
        if page.continuation.None? then Run(v, Done, PageOps(book, page)) else
        var rest := BookRun(v, book, cursor, page.continuation, generation);
        rest.(ops := PageOps(book, page) + rest.ops)
    case _ => Run(u, Failed(false), [])
  }

  /** One book after another, each from its own cursor; the first failure ends the run. */
  function BooksRun(s: State, books: seq<string>, cursors: seq<Option<nat>>, generation: nat): Run
    requires |books| == |cursors|
    decreases |books|
  {
    if books == [] then Run(s, Done, []) else
    var r := BookRun(s, books[0], cursors[0], None, generation);
    if r.outcome != Done then r else
    var rest := BooksRun(r.s, books[1..], cursors[1..], generation);
    rest.(ops := r.ops + rest.ops)
  }

  function Swept(db: Db, full: bool, generation: nat): Db {
    var books := map b | b in db.books && db.books[b].stamp == generation :: db.books[b];
    var contacts := map id | id in db.contacts && db.contacts[id].book in books
                             && (full ==> db.contacts[id].stamp == generation) :: db.contacts[id];
    Db(if full then generation else db.generation, books, contacts)
  }

  function Ids(list: seq<Listed>): seq<string> { seq(|list|, i requires 0 <= i < |list| => list[i].id) }

  predicate IsFull(db: Db, list: seq<Listed>, allowIncremental: bool) {
    !allowIncremental || exists b :: b in list && (CursorOf(db, b.id).None? || !b.syncCollection)
  }

  function Nones(n: nat): seq<Option<nat>> { seq(n, i requires 0 <= i < n => None) }

  /** The cursors the books are asked with. */
  function Asked(db: Db, list: seq<Listed>, full: bool): seq<Option<nat>> {
    if full then Nones(|list|) else seq(|list|, i requires 0 <= i < |list| => CursorOf(db, list[i].id))
  }

  function Finish(r: Run, full: bool, generation: nat): Run {
    if r.outcome != Done then r
    else if r.s.answers == [] then r.(outcome := Failed(false))
    else
      var s := r.s.(answers := r.s.answers[1..], head := r.s.answers[0].head);
      if r.s.answers[0].reply == Finished then Run(s.(db := Swept(s.db, full, generation)), Done, r.ops)
      else Run(s, Failed(false), r.ops)
  }

  /** The list the provider answers with, if it does. */
  function ListOf(s: State): Option<seq<Listed>> {
    if s.answers != [] && s.answers[0].reply.Books? then Some(s.answers[0].reply.list) else None
  }

  function Began(s: State): State {
    if s.answers == [] then s else s.(answers := s.answers[1..], head := s.answers[0].head)
  }

  function Attempt(s: State, allowIncremental: bool): Run {
    var t := Began(s);
    if ListOf(s).None? then
      Run(t, Failed(s.answers != [] && s.answers[0].reply == Error(true)), [])
    else
      var list := ListOf(s).value;
      var full := IsFull(s.db, list, allowIncremental);
      Finish(BooksRun(t, Ids(list), Asked(s.db, list, full), s.db.generation + 1), full, s.db.generation + 1)
  }

  /** An expired cursor falls back to a full run. */
  function SyncOnce(s: State): Run {
    var r := Attempt(s, true);
    if r.outcome == Failed(true) then
      var again := Attempt(r.s, false);
      again.(ops := r.ops + again.ops)
    else r
  }

  // ---- the program --------------------------------------------------------

  class Source {
    var db: Db
    var head: nat
    var answers: seq<Answer>
    var asked: seq<Request>

    constructor (db: Db, answers: seq<Answer>)
      ensures Now() == State(db, 0, answers, [])
    {
      this.db, head, this.answers, asked := db, 0, answers, [];
    }

    function Now(): State
      reads this
    {
      State(db, head, answers, asked)
    }

    /** An await. */
    method Await() returns (reply: Reply)
      modifies this`head, this`answers
      ensures old(answers) == [] ==> reply == Error(false) && Now() == old(Now())
      ensures old(answers) != [] ==> reply == old(answers)[0].reply && head == old(answers)[0].head
                                     && answers == old(answers)[1..]
    {
      if answers == [] { return Error(false); }
      reply, head, answers := answers[0].reply, answers[0].head, answers[1..];
    }

    /** One transaction: the whole page, or nothing. */
    method ApplyChangePage(book: string, generation: nat, page: Page, saved: bool) returns (ok: bool)
      modifies this`db
      ensures ok <==> saved && !Refused(book, page)
      ensures db == if ok then Applied(old(db), book, generation, page) else old(db)
    {
      if page.continuation.Some? && page.finalCursor.Some? { return false; }
      var books := db.books[book := Book(CursorOf(db, book), generation)];
      var put, contacts := UpsertContacts(db.contacts, book, generation, page.upserts);
      if !put { return false; }
      ok, contacts := DeleteContacts(contacts, book, generation, page.tombstones);
      if !ok { return; }
      PlayAppend(db.contacts, Puts(book, page.upserts), Drops(book, page.tombstones), generation);
      if page.finalCursor.Some? { books := books[book := books[book].(cursor := page.finalCursor)]; }
      if !saved { return false; }
      db := db.(books := books, contacts := contacts);
    }

    method UpsertContacts(rows: map<string, Contact>, book: string, generation: nat, upserts: seq<Upsert>)
        returns (ok: bool, contacts: map<string, Contact>)
      ensures ok <==> forall u :: u in upserts ==> u.book == book
      ensures ok ==> contacts == Play(rows, Puts(book, upserts), generation)
    {
      contacts := rows;
      var ops := Puts(book, upserts);
      for i := 0 to |upserts|
        invariant forall j :: 0 <= j < i ==> upserts[j].book == book
        invariant contacts == Play(rows, ops[..i], generation)
      {
        var u := upserts[i];
        if u.book != book { return false, rows; }
        assert ops[..i + 1][..i] == ops[..i];
        assert Play(rows, ops[..i + 1], generation) == Act(Play(rows, ops[..i], generation), ops[i], generation);
        contacts := contacts[u.id := Contact(book, u.value, generation)];
      }
      assert ops[..|ops|] == ops;
      return true, contacts;
    }

    method DeleteContacts(rows: map<string, Contact>, book: string, generation: nat, tombstones: seq<Tombstone>)
        returns (ok: bool, contacts: map<string, Contact>)
      ensures ok <==> forall t :: t in tombstones ==> t.book != ""
      ensures ok ==> contacts == Play(rows, Drops(book, tombstones), generation)
    {
      contacts := rows;
      var ops := Drops(book, tombstones);
      for i := 0 to |tombstones|
        invariant forall j :: 0 <= j < i ==> tombstones[j].book != ""
        invariant contacts == Play(rows, ops[..i], generation)
      {
        var t := tombstones[i];
        if t.book == "" { return false, rows; }
        assert ops[..i + 1][..i] == ops[..i];
        assert Play(rows, ops[..i + 1], generation) == Act(Play(rows, ops[..i], generation), ops[i], generation);
        if t.id in contacts && contacts[t.id].book == book { contacts := contacts - {t.id}; }
      }
      assert ops[..|ops|] == ops;
      return true, contacts;
    }

    method SyncBook(book: string, cursor: Option<nat>, generation: nat) returns (outcome: Outcome)
      modifies this
      ensures var r := BookRun(old(Now()), book, cursor, None, generation); Now() == r.s && outcome == r.outcome
    {
      var continuation: Option<string> := None;
      while true
        invariant var r := BookRun(Now(), book, cursor, continuation, generation);
                  var r0 := BookRun(old(Now()), book, cursor, None, generation);
                  r.s == r0.s && r.outcome == r0.outcome
        decreases |answers|
      {
        asked := asked + [Request(book, cursor, continuation)];
        var reply := Await();
        match reply
        case Error(expired) => return Failed(expired);
        case Changes(page, saved) =>
          if page.continuation.None? && page.finalCursor.None? { return Failed(false); }
          continuation := page.continuation;
          var ok := ApplyChangePage(book, generation, page, saved);
          if !ok { return Failed(false); }
          if continuation.None? { return Done; }
        case _ => return Failed(false);
      }
    }

    method FinishFullSync(generation: nat)
      modifies this`db
      ensures db == Swept(old(db), true, generation)
    {
      var kept := map id | id in db.contacts && db.contacts[id].stamp == generation :: db.contacts[id];
      var books := map b | b in db.books && db.books[b].stamp == generation :: db.books[b];
      db := Db(generation, books, map id | id in kept && kept[id].book in books :: kept[id]);
    }

    method FinishBookDiscovery(generation: nat)
      modifies this`db
      ensures db == Swept(old(db), false, generation)
    {
      var books := map b | b in db.books && db.books[b].stamp == generation :: db.books[b];
      db := db.(books := books,
                contacts := map id | id in db.contacts && db.contacts[id].book in books :: db.contacts[id]);
    }

    method SyncSourceAttempt(allowIncremental: bool) returns (outcome: Outcome)
      modifies this
      ensures var r := Attempt(old(Now()), allowIncremental); Now() == r.s && outcome == r.outcome
    {
      var reply := Await();
      if !reply.Books? { return Failed(reply == Error(true)); }
      var list := reply.list;
      var generation := db.generation + 1;
      var cursors := BookCursors(list);
      var full := IsFull(db, list, allowIncremental);
      outcome := SyncBooks(list, cursors, full, generation);
    }

    method BookCursors(list: seq<Listed>) returns (cursors: seq<Option<nat>>)
      ensures cursors == Asked(db, list, false)
    {
      cursors := [];
      for i := 0 to |list|
        invariant |cursors| == i && forall j :: 0 <= j < i ==> cursors[j] == CursorOf(db, list[j].id)
      {
        cursors := cursors + [CursorOf(db, list[i].id)];
      }
    }

    method SyncBooks(list: seq<Listed>, cursors: seq<Option<nat>>, full: bool,
                     generation: nat) returns (outcome: Outcome)
      requires |cursors| == |list|
      modifies this
      ensures var asked := if full then Nones(|list|) else cursors;
              var r := Finish(BooksRun(old(Now()), Ids(list), asked, generation), full, generation);
              Now() == r.s && outcome == r.outcome
    {
      var ids := Ids(list);
      ghost var asked := if full then Nones(|list|) else cursors;
      ghost var goal := BooksRun(Now(), ids, asked, generation);
      for i := 0 to |list|
        invariant var r := BooksRun(Now(), ids[i..], asked[i..], generation); r.s == goal.s && r.outcome == goal.outcome
      {
        assert ids[i..][1..] == ids[i + 1..] && asked[i..][1..] == asked[i + 1..];
        outcome := SyncBook(list[i].id, if full then None else cursors[i], generation);
        if outcome != Done { return; }
      }
      if answers == [] { return Failed(false); }
      var reply := Await();
      if reply != Finished { return Failed(false); }
      if full { FinishFullSync(generation); } else { FinishBookDiscovery(generation); }
      outcome := Done;
    }

    method SyncSourceOnce() returns (outcome: Outcome)
      modifies this
      ensures var r := SyncOnce(old(Now())); Now() == r.s && outcome == r.outcome
    {
      outcome := SyncSourceAttempt(true);
      if outcome == Failed(true) {
        outcome := SyncSourceAttempt(false);
      }
    }

    /** A change made remotely first is then written locally, or else synced in. */
    method PersistMutation(book: string, page: Page, saved: bool) returns (outcome: Outcome)
      modifies this
      ensures saved && !Refused(book, page) ==>
                Now() == old(Now()).(db := Applied(old(db), book, old(db).generation, page)) && outcome == Done
      ensures !saved || Refused(book, page) ==>
                var r := SyncOnce(old(Now()));
                Now() == r.s && outcome == if r.outcome == Done then Done else Failed(false)
    {
      var ok := ApplyChangePage(book, db.generation, page, saved);
      if ok { return Done; }
      outcome := SyncSourceOnce();
      if outcome != Done { outcome := Failed(false); }
    }
  }
}
