/** What contact sync keeps: the remote account is a log of changes, a cursor a position
    in it, and every history of runs, failing or not, is measured against the log. */
module ContactReplay {
  import opened Basics
  import opened ContactStore

  // ---- the remote log -----------------------------------------------------

  /** A contact of a book got a value, or was deleted. */
  datatype Change = Change(book: string, id: string, value: Option<string>)

  predicate About(c: Change, book: string, id: string) { c.book == book && c.id == id }

  /** The contact's value after the first `n` changes. */
  function Remote(log: seq<Change>, n: nat, book: string, id: string): Option<string>
    requires n <= |log|
  {
    if n == 0 then None
    else if About(log[n - 1], book, id) then log[n - 1].value
    else Remote(log, n - 1, book, id)
  }

  predicate Changed(log: seq<Change>, book: string, id: string, from: nat, to: nat)
    requires to <= |log|
  {
    exists i :: from <= i < to && About(log[i], book, id)
  }

  lemma {:induction false} RemoteStill(log: seq<Change>, book: string, id: string, from: nat, to: nat)
    requires from <= to <= |log| && !Changed(log, book, id, from, to)
    ensures Remote(log, to, book, id) == Remote(log, from, book, id)
  {
    if from < to {
      assert !About(log[to - 1], book, id);
      assert forall i :: from <= i < to - 1 ==> !About(log[i], book, id);
      RemoteStill(log, book, id, from, to - 1);
    }
  }

  /** A contact id belongs to one book. */
  ghost predicate OneBook(log: seq<Change>) {
    forall i, j :: 0 <= i < |log| && 0 <= j < |log| && log[i].id == log[j].id ==> log[i].book == log[j].book
  }

  lemma {:induction false} NeverChanged(log: seq<Change>, n: nat, book: string, other: string, id: string)
    requires OneBook(log) && n <= |log| && book != other && Remote(log, n, other, id).Some?
    ensures forall m: nat :: m <= |log| ==> Remote(log, m, book, id) == None
  {
    if About(log[n - 1], other, id) {
      forall m: nat | m <= |log| ensures Remote(log, m, book, id) == None {
        NotIn(log, m, book, id, n - 1);
      }
    } else {
      NeverChanged(log, n - 1, book, other, id);
    }
  }

  lemma {:induction false} NotIn(log: seq<Change>, m: nat, book: string, id: string, i: nat)
    requires OneBook(log) && m <= |log| && i < |log| && log[i].id == id && log[i].book != book
    ensures Remote(log, m, book, id) == None
  {
    if m > 0 { NotIn(log, m - 1, book, id, i); }
  }

  // ---- local rows against the log -----------------------------------------

  function At(contacts: map<string, Contact>, book: string, id: string): Option<string> {
    if id in contacts && contacts[id].book == book then Some(contacts[id].value) else None
  }

  /** Up to changes after the cursor `c`, the row is what the contact was at `c`; when
      not `strict`, a row may also be left where the contact was not. */
  predicate Agrees(log: seq<Change>, contacts: map<string, Contact>, book: string, c: nat, head: nat, strict: bool,
                   id: string)
    requires c <= head <= |log|
  {
    !Changed(log, book, id, c, head) && (strict || Remote(log, c, book, id).Some?) ==>
      At(contacts, book, id) == Remote(log, c, book, id)
  }

  ghost predicate BookTracks(log: seq<Change>, db: Db, head: nat, strict: bool, book: string)
    requires head <= |log|
  {
    var c := CursorOf(db, book);
    c.Some? ==> c.value <= head && forall id :: Agrees(log, db.contacts, book, c.value, head, strict, id)
  }

  /** Every book with a cursor is tracked. */
  ghost predicate Tracks(log: seq<Change>, db: Db, head: nat, strict: bool)
    requires head <= |log|
  {
    forall book :: BookTracks(log, db, head, strict, book)
  }

  // ---- what providers promise ---------------------------------------------

  function ValueOf(op: Op): Option<string> { if op.Put? then Some(op.value) else None }

  ghost predicate HonestOp(log: seq<Change>, op: Op, since: nat, head: nat)
    requires head <= |log|
  {
    exists k :: since <= k <= head && Remote(log, k, op.book, op.id) == ValueOf(op)
  }

  /** Every change reported is a state the contact was in, between `since` and now. */
  ghost predicate Honest(log: seq<Change>, ops: seq<Op>, since: nat, head: nat)
    requires head <= |log|
  {
    forall i :: 0 <= i < |ops| ==> HonestOp(log, ops[i], since, head)
  }

  /** What a run said last about a contact. */
  function Said(ops: seq<Op>, id: string): Option<Option<string>> {
    if ops == [] then None
    else if ops[|ops| - 1].id == id then Some(ValueOf(ops[|ops| - 1]))
    else Said(ops[..|ops| - 1], id)
  }

  /** A completed answer up to `e` gives the final state of a contact that changed since
      the cursor or, without a cursor, of one that exists. */
  predicate Complete(log: seq<Change>, ops: seq<Op>, book: string, cursor: Option<nat>, e: nat, head: nat, id: string)
    requires e <= head <= |log| && (cursor.Some? ==> cursor.value <= e)
  {
    !Changed(log, book, id, e, head) ==>
      match Said(ops, id)
      case Some(value) => value == Remote(log, e, book, id)
      case None => if cursor.Some? then !Changed(log, book, id, cursor.value, e) else Remote(log, e, book, id).None?
  }

  /** An honest provider behind the pages of one book. */
  ghost predicate HonestBook(log: seq<Change>, book: string, cursor: Option<nat>, before: nat, r: Run)
    requires r.s.head <= |log|
  {
    var since := if cursor.Some? then cursor.value else before;
    && Honest(log, r.ops, since, r.s.head)
    && (r.outcome == Done ==>
          var e := CursorOf(r.s.db, book);
          e.Some? && since <= e.value <= r.s.head &&
          forall id :: Complete(log, r.ops, book, cursor, e.value, r.s.head, id))
  }

  /** The log only grows from answer to answer. */
  ghost predicate Timely(log: seq<Change>, head: nat, answers: seq<Answer>)
    decreases |answers|
  {
    head <= |log| && (answers == [] || (head <= answers[0].head && Timely(log, answers[0].head, answers[1..])))
  }

  ghost predicate HonestBooks(log: seq<Change>, s: State, books: seq<string>, cursors: seq<Option<nat>>,
                              generation: nat)
    requires |books| == |cursors| && Timely(log, s.head, s.answers)
    decreases |books|
  {
    books == [] ||
    var r := BookRun(s, books[0], cursors[0], None, generation);
    BookRunTime(log, s, books[0], cursors[0], None, generation);
    HonestBook(log, books[0], cursors[0], s.head, r) &&
    (r.outcome == Done ==> HonestBooks(log, r.s, books[1..], cursors[1..], generation))
  }

  // ---- one page loop ------------------------------------------------------

  lemma {:induction false} BookRunTime(log: seq<Change>, s: State, book: string, cursor: Option<nat>,
                                       continuation: Option<string>, generation: nat)
    requires Timely(log, s.head, s.answers)
    ensures var r := BookRun(s, book, cursor, continuation, generation);
            s.head <= r.s.head && Timely(log, r.s.head, r.s.answers)
    decreases |s.answers|
  {
    if PageTaken(s, book) && s.answers[0].reply.page.continuation.Some? {
      BookRunTime(log, Took(s, book, cursor, continuation, generation), book, cursor,
                  s.answers[0].reply.page.continuation, generation);
    }
  }

  /** The next answer is a page that gets committed. */
  predicate PageTaken(s: State, book: string) {
    s.answers != [] && s.answers[0].reply.Changes? &&
    var page := s.answers[0].reply.page;
    (page.continuation.Some? || page.finalCursor.Some?) && !Refused(book, page) && s.answers[0].reply.saved
  }

  function Took(s: State, book: string, cursor: Option<nat>, continuation: Option<string>, generation: nat): State
    requires PageTaken(s, book)
  {
    var t := s.(asked := s.asked + [Request(book, cursor, continuation)],
                answers := s.answers[1..], head := s.answers[0].head);
    t.(db := Applied(t.db, book, generation, s.answers[0].reply.page))
  }

  /** A run over one book changes contacts by its operations, all on that book. */
  lemma {:induction false} BookRunRows(s: State, book: string, cursor: Option<nat>, continuation: Option<string>,
                                       generation: nat)
    ensures var r := BookRun(s, book, cursor, continuation, generation);
            && r.s.db.contacts == Play(s.db.contacts, r.ops, generation)
            && forall i :: 0 <= i < |r.ops| ==> r.ops[i].book == book
    decreases |s.answers|
  {
    if PageTaken(s, book) && s.answers[0].reply.page.continuation.Some? {
      var page, v := s.answers[0].reply.page, Took(s, book, cursor, continuation, generation);
      BookRunRows(v, book, cursor, page.continuation, generation);
      PlayAppend(s.db.contacts, PageOps(book, page), BookRun(v, book, cursor, page.continuation, generation).ops,
                 generation);
    }
  }

  /** It touches that book's record only, stamps it, and moves its cursor exactly when
      it completes: with the commit of the final page. */
  ghost predicate BookStep(db: Db, r: Run, book: string, generation: nat) {
    && r.s.db.generation == db.generation
    && r.s.db.books.Keys <= db.books.Keys + {book}
    && (forall b :: b in db.books ==> b in r.s.db.books && (b != book ==> r.s.db.books[b] == db.books[b]))
    && (r.outcome == Done ==> CursorOf(r.s.db, book).Some?)
    && (r.outcome != Done ==> CursorOf(r.s.db, book) == CursorOf(db, book))
    && (r.outcome == Done || r.ops != [] ==> book in r.s.db.books && r.s.db.books[book].stamp == generation)
    && (book in r.s.db.books && r.s.db.books[book].stamp != generation ==>
          book in db.books && r.s.db.books[book] == db.books[book])
  }

  lemma {:induction false} BookRunSteps(s: State, book: string, cursor: Option<nat>, continuation: Option<string>,
                                        generation: nat)
    ensures BookStep(s.db, BookRun(s, book, cursor, continuation, generation), book, generation)
    decreases |s.answers|
  {
    if PageTaken(s, book) && s.answers[0].reply.page.continuation.Some? {
      BookRunSteps(Took(s, book, cursor, continuation, generation), book, cursor,
                   s.answers[0].reply.page.continuation, generation);
    }
  }

  /** Request `i` of a book's run follows up the page before it, from the same cursor. */
  predicate FollowsUp(s: State, asked: seq<Request>, book: string, cursor: Option<nat>, i: nat)
    requires |s.asked| < i < |asked|
  {
    var n := i - |s.asked| - 1;
    && n < |s.answers| && s.answers[n].reply.Changes? && s.answers[n].reply.page.continuation.Some?
    && asked[i] == Request(book, cursor, s.answers[n].reply.page.continuation)
  }

  /** `asked` adds to `s` the request for a page and what follows it up. */
  ghost predicate FollowedUp(s: State, asked: seq<Request>, book: string, cursor: Option<nat>,
                             continuation: Option<string>) {
    && |s.asked| < |asked| && asked[..|s.asked|] == s.asked
    && asked[|s.asked|] == Request(book, cursor, continuation)
    && forall i :: |s.asked| < i < |asked| ==> FollowsUp(s, asked, book, cursor, i)
  }

  /** The requests for one book: all from the same cursor, each with the continuation
      of the page before it. */
  lemma {:induction false} RequestsFollow(s: State, book: string, cursor: Option<nat>, continuation: Option<string>,
                                          generation: nat)
    ensures FollowedUp(s, BookRun(s, book, cursor, continuation, generation).s.asked, book, cursor, continuation)
    decreases |s.answers|
  {
    if PageTaken(s, book) && s.answers[0].reply.page.continuation.Some? {
      var page, v := s.answers[0].reply.page, Took(s, book, cursor, continuation, generation);
      RequestsFollow(v, book, cursor, page.continuation, generation);
      OneMoreAsked(s, v, BookRun(v, book, cursor, page.continuation, generation).s.asked, book, cursor, continuation,
                   page);
    }
  }

  lemma {:induction false} OneMoreAsked(s: State, v: State, asked: seq<Request>, book: string, cursor: Option<nat>,
                                        continuation: Option<string>, page: Page)
    requires s.answers != [] && s.answers[0].reply.Changes? && s.answers[0].reply.page == page
    requires page.continuation.Some? && v.answers == s.answers[1..]
    requires v.asked == s.asked + [Request(book, cursor, continuation)]
    requires FollowedUp(v, asked, book, cursor, page.continuation)
    ensures FollowedUp(s, asked, book, cursor, continuation)
  {
    assert asked[..|v.asked|][..|s.asked|] == asked[..|s.asked|];
    assert asked[..|v.asked|][|s.asked|] == asked[|s.asked|];
    forall i | |s.asked| < i < |asked| ensures FollowsUp(s, asked, book, cursor, i) {
      if i > |v.asked| { FollowsUpBefore(s, v, asked, book, cursor, i); }
    }
  }

  lemma {:induction false} FollowsUpBefore(s: State, v: State, asked: seq<Request>, book: string, cursor: Option<nat>,
                                           i: nat)
    requires s.answers != [] && v.answers == s.answers[1..] && |v.asked| == |s.asked| + 1
    requires |v.asked| < i < |asked| && FollowsUp(v, asked, book, cursor, i)
    ensures FollowsUp(s, asked, book, cursor, i)
  {
  }

  /** Every request of a run asks one of its books, from that book's cursor. */
  lemma {:induction false} RequestsOfBooks(s: State, books: seq<string>, cursors: seq<Option<nat>>, generation: nat)
    requires |books| == |cursors|
    ensures var asked := BooksRun(s, books, cursors, generation).s.asked;
            && |s.asked| <= |asked| && asked[..|s.asked|] == s.asked
            && forall i :: |s.asked| <= i < |asked| ==> AsksOneOf(asked[i], books, cursors)
    decreases |books|
  {
    if books != [] {
      var r := BookRun(s, books[0], cursors[0], None, generation);
      RequestsFollow(s, books[0], cursors[0], None, generation);
      forall i | |s.asked| <= i < |r.s.asked| ensures AsksOneOf(r.s.asked[i], books, cursors) {
        assert i == |s.asked| || FollowsUp(s, r.s.asked, books[0], cursors[0], i);
      }
      if r.outcome == Done {
        var asked := BooksRun(r.s, books[1..], cursors[1..], generation).s.asked;
        RequestsOfBooks(r.s, books[1..], cursors[1..], generation);
        forall i | |s.asked| <= i < |asked| ensures AsksOneOf(asked[i], books, cursors) {
          if i < |r.s.asked| {
            assert asked[i] == asked[..|r.s.asked|][i];
          } else {
            var j :| 0 <= j < |books[1..]| && books[1..][j] == asked[i].book && cursors[1..][j] == asked[i].cursor;
            assert books[j + 1] == asked[i].book && cursors[j + 1] == asked[i].cursor;
          }
        }
        assert asked[..|r.s.asked|][..|s.asked|] == asked[..|s.asked|];
      }
    }
  }

  ghost predicate AsksOneOf(q: Request, books: seq<string>, cursors: seq<Option<nat>>)
    requires |books| == |cursors|
  {
    exists j :: 0 <= j < |books| && books[j] == q.book && cursors[j] == q.cursor
  }

  /** In full mode books are asked without a cursor, otherwise from the stored one. */
  lemma {:induction false} RequestsOfAttempt(s: State, allowIncremental: bool, i: nat)
    requires |s.asked| <= i < |Attempt(s, allowIncremental).s.asked|
    ensures ListOf(s).Some?
    ensures var list, q := ListOf(s).value, Attempt(s, allowIncremental).s.asked[i];
            && q.book in Ids(list)
            && q.cursor == if IsFull(s.db, list, allowIncremental) then None else CursorOf(s.db, q.book)
  {
    if ListOf(s).Some? {
      var list := ListOf(s).value;
      var cursors := Asked(s.db, list, IsFull(s.db, list, allowIncremental));
      RequestsOfBooks(Began(s), Ids(list), cursors, s.db.generation + 1);
      var q := Attempt(s, allowIncremental).s.asked[i];
      assert AsksOneOf(q, Ids(list), cursors);
    }
  }

  // ---- operations against the log -----------------------------------------

  lemma {:induction false} ChangedGrows(log: seq<Change>, book: string, id: string, c: nat, h: nat, head: nat)
    requires c <= h <= head <= |log| && Changed(log, book, id, c, h)
    ensures Changed(log, book, id, c, head)
  {
    var i :| c <= i < h && About(log[i], book, id);
    assert c <= i < head;
  }

  /** An honest operation of any book leaves a tracked contact tracked. */
  lemma {:induction false} OpKeeps(log: seq<Change>, contacts: map<string, Contact>, op: Op, stamp: nat, book: string,
                                   c: nat, since: nat, head: nat, strict: bool, id: string)
    requires c <= head <= |log| && OneBook(log) && HonestOp(log, op, since, head)
    requires op.book == book ==> c <= since
    requires Agrees(log, contacts, book, c, head, strict, id)
    ensures Agrees(log, Act(contacts, op, stamp), book, c, head, strict, id)
  {
    if op.id == id && !Changed(log, book, id, c, head) {
      var k :| since <= k <= head && Remote(log, k, op.book, op.id) == ValueOf(op);
      if op.book == book {
        assert !Changed(log, book, id, c, k) by {
          if Changed(log, book, id, c, k) { ChangedGrows(log, book, id, c, k, head); }
        }
        RemoteStill(log, book, id, c, k);
      } else if op.Put? {
        NeverChanged(log, k, book, op.book, id);
      }
    }
  }

  lemma {:induction false} PlayKeeps(log: seq<Change>, contacts: map<string, Contact>, ops: seq<Op>, stamp: nat,
                                     book: string, c: nat, since: nat, head: nat, strict: bool, id: string)
    requires c <= head <= |log| && OneBook(log) && Honest(log, ops, since, head)
    requires (forall i :: 0 <= i < |ops| ==> ops[i].book != book) || c <= since
    requires Agrees(log, contacts, book, c, head, strict, id)
    ensures Agrees(log, Play(contacts, ops, stamp), book, c, head, strict, id)
  {
    if ops != [] {
      var init, last := ops[..|ops| - 1], ops[|ops| - 1];
      assert HonestOp(log, last, since, head);
      PlayKeeps(log, contacts, init, stamp, book, c, since, head, strict, id);
      OpKeeps(log, Play(contacts, init, stamp), last, stamp, book, c, since, head, strict, id);
    }
  }

  /** What was said last about a contact of the book is what its row says. */
  lemma {:induction false} SaidIs(contacts: map<string, Contact>, ops: seq<Op>, stamp: nat, book: string, id: string)
    requires forall i :: 0 <= i < |ops| ==> ops[i].book == book
    ensures At(Play(contacts, ops, stamp), book, id) ==
            if Said(ops, id).Some? then Said(ops, id).value else At(contacts, book, id)
  {
    if ops != [] {
      SaidIs(contacts, ops[..|ops| - 1], stamp, book, id);
    }
  }

  /** Some operation decides about the row `id` of `book`. */
  predicate Touched(ops: seq<Op>, id: string, book: string) {
    exists i :: 0 <= i < |ops| && ops[i].id == id && (ops[i].Put? || ops[i].book == book)
  }

  lemma {:induction false} TouchedSplits(ops: seq<Op>, id: string, book: string)
    requires ops != []
    ensures var last := ops[|ops| - 1];
            Touched(ops, id, book) <==>
              Touched(ops[..|ops| - 1], id, book) || (last.id == id && (last.Put? || last.book == book))
  {
    var init := ops[..|ops| - 1];
    if Touched(init, id, book) {
      var i :| 0 <= i < |init| && init[i].id == id && (init[i].Put? || init[i].book == book);
      assert ops[i] == init[i];
    }
    if Touched(ops, id, book) {
      var i :| 0 <= i < |ops| && ops[i].id == id && (ops[i].Put? || ops[i].book == book);
      if i < |init| { assert init[i] == ops[i]; }
    }
  }

  /** What operations leave: the rows they write on an empty table, and the rows they
      never decided about. */
  lemma {:induction false} PlayIs(contacts: map<string, Contact>, ops: seq<Op>, stamp: nat, id: string)
    ensures var own, now := Play(map[], ops, stamp), Play(contacts, ops, stamp);
            && (id in own ==> own[id].stamp == stamp && id in now && now[id] == own[id])
            && (id !in own ==> (id in now <==> id in contacts && !Touched(ops, id, contacts[id].book)))
            && (id !in own && id in now ==> now[id] == contacts[id])
            && (id in own && id in contacts ==> Touched(ops, id, contacts[id].book))
  {
    if ops != [] {
      PlayIs(contacts, ops[..|ops| - 1], stamp, id);
      if id in contacts { TouchedSplits(ops, id, contacts[id].book); }
    }
  }

  /** No row vanishes unless a tombstone of the run named it. */
  lemma {:induction false} OnlyDropped(contacts: map<string, Contact>, ops: seq<Op>, stamp: nat, id: string)
    requires id in contacts && id !in Play(contacts, ops, stamp)
    ensures exists i :: 0 <= i < |ops| && ops[i].Drop? && ops[i].id == id
  {
    var init, last := ops[..|ops| - 1], ops[|ops| - 1];
    if id in Play(contacts, init, stamp) {
      assert last.Drop? && last.id == id;
    } else {
      OnlyDropped(contacts, init, stamp, id);
      var i :| 0 <= i < |init| && init[i].Drop? && init[i].id == id;
      assert ops[i] == init[i];
    }
  }

  // ---- one book's run ------------------------------------------------------

  lemma {:induction false} AgreesLater(log: seq<Change>, contacts: map<string, Contact>, book: string, c: nat, h: nat,
                                       head: nat, strict: bool, id: string)
    requires c <= h <= head <= |log| && Agrees(log, contacts, book, c, h, strict, id)
    ensures Agrees(log, contacts, book, c, head, strict, id)
  {
    if Changed(log, book, id, c, h) { ChangedGrows(log, book, id, c, h, head); }
  }

  lemma {:induction false} ChangedSplits(log: seq<Change>, book: string, id: string, c: nat, e: nat, head: nat)
    requires c <= e <= head <= |log|
    ensures Changed(log, book, id, c, head) <==> Changed(log, book, id, c, e) || Changed(log, book, id, e, head)
  {
    if Changed(log, book, id, c, e) { ChangedGrows(log, book, id, c, e, head); }
    if Changed(log, book, id, e, head) {
      var i :| e <= i < head && About(log[i], book, id);
      assert c <= i < head;
    }
  }

  /** The completed book tracks its new cursor. */
  lemma {:induction false} CompletedTracks(log: seq<Change>, contacts: map<string, Contact>, ops: seq<Op>, stamp: nat,
                                           book: string, cursor: Option<nat>, e: nat, head: nat, strict: bool,
                                           id: string)
    requires e <= head <= |log| && (cursor.Some? ==> cursor.value <= e)
    requires forall i :: 0 <= i < |ops| ==> ops[i].book == book
    requires Complete(log, ops, book, cursor, e, head, id)
    requires cursor.Some? ==> Agrees(log, contacts, book, cursor.value, head, strict, id)
    requires cursor.None? && strict ==> id !in contacts || contacts[id].book != book
    ensures Agrees(log, Play(contacts, ops, stamp), book, e, head, strict, id)
  {
    SaidIs(contacts, ops, stamp, book, id);
    if cursor.Some? && !Changed(log, book, id, e, head) && Said(ops, id).None? {
      ChangedSplits(log, book, id, cursor.value, e, head);
      RemoteStill(log, book, id, cursor.value, e);
    }
  }

  lemma {:induction false} BookKeeps(log: seq<Change>, s: State, book: string, cursor: Option<nat>, generation: nat,
                                     strict: bool)
    requires OneBook(log) && Timely(log, s.head, s.answers) && Tracks(log, s.db, s.head, strict)
    requires cursor.Some? ==> CursorOf(s.db, book) == cursor
    requires var r := BookRun(s, book, cursor, None, generation);
             && r.s.head <= |log| && HonestBook(log, book, cursor, s.head, r)
             && (strict && cursor.None? ==> r.outcome != Done)
    ensures var r := BookRun(s, book, cursor, None, generation);
            r.s.head <= |log| && Tracks(log, r.s.db, r.s.head, strict)
  {
    var r := BookRun(s, book, cursor, None, generation);
    BookRunTime(log, s, book, cursor, None, generation);
    forall b ensures BookTracks(log, r.s.db, r.s.head, strict, b) {
      assert BookTracks(log, s.db, s.head, strict, b);
      assert BookTracks(log, s.db, s.head, strict, book);
      OneBookKeeps(log, s, book, cursor, generation, strict, b);
    }
  }

  lemma {:induction false} OneBookKeeps(log: seq<Change>, s: State, book: string, cursor: Option<nat>,
                                        generation: nat, strict: bool, b: string)
    requires OneBook(log) && s.head <= |log|
    requires BookTracks(log, s.db, s.head, strict, b)
    requires cursor.Some? ==> CursorOf(s.db, book) == cursor
    requires var r := BookRun(s, book, cursor, None, generation);
             && s.head <= r.s.head <= |log| && HonestBook(log, book, cursor, s.head, r)
             && (strict && cursor.None? ==> r.outcome != Done)
    ensures var r := BookRun(s, book, cursor, None, generation);
            BookTracks(log, r.s.db, r.s.head, strict, b)
  {
    var r := BookRun(s, book, cursor, None, generation);
    BookRunRows(s, book, cursor, None, generation);
    BookRunSteps(s, book, cursor, None, generation);
    var now, head := CursorOf(r.s.db, b), r.s.head;
    var since := if cursor.Some? then cursor.value else s.head;
    if b == book && r.outcome == Done {
      forall id ensures Agrees(log, r.s.db.contacts, b, now.value, head, strict, id) {
        if cursor.Some? { AgreesLater(log, s.db.contacts, b, cursor.value, s.head, head, strict, id); }
        CompletedTracks(log, s.db.contacts, r.ops, generation, b, cursor, now.value, head, strict, id);
      }
    } else if now.Some? {
      assert CursorOf(s.db, b) == now;
      forall id ensures Agrees(log, r.s.db.contacts, b, now.value, head, strict, id) {
        AgreesLater(log, s.db.contacts, b, now.value, s.head, head, strict, id);
        PlayKeeps(log, s.db.contacts, r.ops, generation, b, now.value, since, head, strict, id);
      }
    }
  }

  // ---- all books of a run --------------------------------------------------

  ghost predicate AllDistinct(books: seq<string>) { forall i, j :: 0 <= i < j < |books| ==> books[i] != books[j] }

  lemma {:induction false} BooksRunTime(log: seq<Change>, s: State, books: seq<string>, cursors: seq<Option<nat>>,
                                        generation: nat)
    requires |books| == |cursors| && Timely(log, s.head, s.answers)
    ensures var r := BooksRun(s, books, cursors, generation);
            s.head <= r.s.head && Timely(log, r.s.head, r.s.answers)
    decreases |books|
  {
    if books != [] {
      var r := BookRun(s, books[0], cursors[0], None, generation);
      BookRunTime(log, s, books[0], cursors[0], None, generation);
      if r.outcome == Done { BooksRunTime(log, r.s, books[1..], cursors[1..], generation); }
    }
  }

  lemma {:induction false} BooksRunRows(s: State, books: seq<string>, cursors: seq<Option<nat>>, generation: nat)
    requires |books| == |cursors|
    ensures var r := BooksRun(s, books, cursors, generation);
            && r.s.db.contacts == Play(s.db.contacts, r.ops, generation)
            && forall i :: 0 <= i < |r.ops| ==> r.ops[i].book in books
    decreases |books|
  {
    if books != [] {
      var r := BookRun(s, books[0], cursors[0], None, generation);
      BookRunRows(s, books[0], cursors[0], None, generation);
      if r.outcome == Done {
        BooksRunRows(r.s, books[1..], cursors[1..], generation);
        PlayAppend(s.db.contacts, r.ops, BooksRun(r.s, books[1..], cursors[1..], generation).ops, generation);
      }
    }
  }

  /** A run records and stamps the books it completes, and leaves the others alone. */
  ghost predicate BooksStep(db: Db, r: Run, books: seq<string>, generation: nat) {
    && r.s.db.generation == db.generation
    && (forall b :: b in r.s.db.books ==> b in db.books || b in books)
    && (forall b :: b in db.books ==> b in r.s.db.books)
    && (forall b :: b !in books ==> CursorOf(r.s.db, b) == CursorOf(db, b))
    && (forall b :: b in r.s.db.books && (b !in books || r.s.db.books[b].stamp != generation) ==>
          b in db.books && r.s.db.books[b] == db.books[b])
    && (r.outcome == Done ==> forall b :: b in books ==>
          b in r.s.db.books && r.s.db.books[b].stamp == generation && r.s.db.books[b].cursor.Some?)
  }

  lemma {:induction false} BooksRunSteps(s: State, books: seq<string>, cursors: seq<Option<nat>>, generation: nat)
    requires |books| == |cursors| && AllDistinct(books)
    ensures BooksStep(s.db, BooksRun(s, books, cursors, generation), books, generation)
    decreases |books|
  {
    if books != [] {
      var r := BookRun(s, books[0], cursors[0], None, generation);
      BookRunSteps(s, books[0], cursors[0], None, generation);
      if r.outcome == Done {
        BooksRunSteps(r.s, books[1..], cursors[1..], generation);
        StepsJoin(s.db, r, BooksRun(r.s, books[1..], cursors[1..], generation), books, generation);
      }
    }
  }

  lemma {:induction false} StepsJoin(db: Db, r: Run, rest: Run, books: seq<string>, generation: nat)
    requires books != [] && books[0] !in books[1..] && r.outcome == Done
    requires BookStep(db, r, books[0], generation) && BooksStep(r.s.db, rest, books[1..], generation)
    ensures BooksStep(db, rest, books, generation)
  {
    forall b ensures b in books <==> b == books[0] || b in books[1..] {}
  }

  /** Books asked from their cursors, or any books when rows may be too many. */
  lemma {:induction false} CursorsKeep(log: seq<Change>, s: State, books: seq<string>, cursors: seq<Option<nat>>,
                                       generation: nat, strict: bool)
    requires |books| == |cursors| && AllDistinct(books) && OneBook(log)
    requires Timely(log, s.head, s.answers) && Tracks(log, s.db, s.head, strict)
    requires HonestBooks(log, s, books, cursors, generation)
    requires forall i :: 0 <= i < |books| ==>
      if cursors[i].Some? then CursorOf(s.db, books[i]) == cursors[i] else !strict
    ensures var r := BooksRun(s, books, cursors, generation);
            r.s.head <= |log| && Tracks(log, r.s.db, r.s.head, strict)
    decreases |books|
  {
    if books != [] {
      var r := BookRun(s, books[0], cursors[0], None, generation);
      BookRunTime(log, s, books[0], cursors[0], None, generation);
      BookRunSteps(s, books[0], cursors[0], None, generation);
      BookKeeps(log, s, books[0], cursors[0], generation, strict);
      if r.outcome == Done {
        forall i | 0 <= i < |books| - 1 ensures CursorOf(r.s.db, books[1..][i]) == CursorOf(s.db, books[i + 1]) {
          assert books[i + 1] != books[0];
        }
        CursorsKeep(log, r.s, books[1..], cursors[1..], generation, strict);
      }
    }
  }

  lemma {:induction false} HonestLater(log: seq<Change>, ops: seq<Op>, since: nat, h: nat, before: nat, head: nat)
    requires before <= since && h <= head <= |log| && Honest(log, ops, since, h)
    ensures Honest(log, ops, before, head)
  {
    forall i | 0 <= i < |ops| ensures HonestOp(log, ops[i], before, head) {
      assert HonestOp(log, ops[i], since, h);
    }
  }

  lemma {:induction false} BooksHonest(log: seq<Change>, s: State, books: seq<string>, cursors: seq<Option<nat>>,
                                       generation: nat, since: nat)
    requires |books| == |cursors| && Timely(log, s.head, s.answers) && HonestBooks(log, s, books, cursors, generation)
    requires since <= s.head && forall i :: 0 <= i < |books| && cursors[i].Some? ==> since <= cursors[i].value
    ensures var r := BooksRun(s, books, cursors, generation);
            s.head <= r.s.head <= |log| && Honest(log, r.ops, since, r.s.head)
    decreases |books|
  {
    BooksRunTime(log, s, books, cursors, generation);
    if books != [] {
      var r := BookRun(s, books[0], cursors[0], None, generation);
      BookRunTime(log, s, books[0], cursors[0], None, generation);
      var from := if cursors[0].Some? then cursors[0].value else s.head;
      if r.outcome == Done {
        var rest := BooksRun(r.s, books[1..], cursors[1..], generation);
        BooksHonest(log, r.s, books[1..], cursors[1..], generation, since);
        HonestLater(log, r.ops, from, r.s.head, since, rest.s.head);
      } else {
        HonestLater(log, r.ops, from, r.s.head, since, r.s.head);
      }
    }
  }

  // ---- full runs -----------------------------------------------------------

  lemma {:induction false} RowsOfBook(ops: seq<Op>, stamp: nat, book: string, id: string)
    requires forall i :: 0 <= i < |ops| ==> ops[i].book == book
    ensures id in Play(map[], ops, stamp) ==> Play(map[], ops, stamp)[id].book == book
  {
    if ops != [] { RowsOfBook(ops[..|ops| - 1], stamp, book, id); }
  }

  /** The books a run completes before it fails, if it fails. */
  function Completed(s: State, books: seq<string>, cursors: seq<Option<nat>>, generation: nat): (done: set<string>)
    requires |books| == |cursors|
    ensures forall b :: b in done ==> b in books
    ensures BooksRun(s, books, cursors, generation).outcome == Done ==> forall b :: b in books ==> b in done
    decreases |books|
  {
    if books == [] then {} else
    var r := BookRun(s, books[0], cursors[0], None, generation);
    if r.outcome != Done then {} else {books[0]} + Completed(r.s, books[1..], cursors[1..], generation)
  }

  lemma {:induction false} OthersKeepCursor(s: State, books: seq<string>, cursors: seq<Option<nat>>, generation: nat,
                                            b: string)
    requires |books| == |cursors| && AllDistinct(books) && b !in Completed(s, books, cursors, generation)
    ensures CursorOf(BooksRun(s, books, cursors, generation).s.db, b) == CursorOf(s.db, b)
    decreases |books|
  {
    if books != [] {
      var r := BookRun(s, books[0], cursors[0], None, generation);
      BookRunSteps(s, books[0], cursors[0], None, generation);
      if r.outcome == Done { OthersKeepCursor(r.s, books[1..], cursors[1..], generation, b); }
    }
  }

  /** On an empty table, the enumeration of a book leaves exactly its remote contacts
      at the new cursor, whatever becomes of the run after it. */
  lemma {:induction false} EnumerationIsRemote(log: seq<Change>, s: State, books: seq<string>, generation: nat,
                                               book: string, id: string)
    requires AllDistinct(books) && OneBook(log) && Timely(log, s.head, s.answers)
    requires HonestBooks(log, s, books, Nones(|books|), generation)
    requires book in Completed(s, books, Nones(|books|), generation)
    ensures var r := BooksRun(s, books, Nones(|books|), generation);
            var e := CursorOf(r.s.db, book);
            && r.s.head <= |log| && e.Some? && e.value <= r.s.head
            && Agrees(log, Play(map[], r.ops, generation), book, e.value, r.s.head, true, id)
    decreases |books|
  {
    var all := BooksRun(s, books, Nones(|books|), generation);
    var r := BookRun(s, books[0], None, None, generation);
    assert Nones(|books|)[1..] == Nones(|books[1..]|);
    var rest := BooksRun(r.s, books[1..], Nones(|books[1..]|), generation);
    BookRunTime(log, s, books[0], None, None, generation);
    BookRunRows(s, books[0], None, None, generation);
    BooksRunSteps(r.s, books[1..], Nones(|books[1..]|), generation);
    BooksRunRows(r.s, books[1..], Nones(|books[1..]|), generation);
    BooksHonest(log, r.s, books[1..], Nones(|books[1..]|), generation, 0);
    PlayAppend(map[], r.ops, rest.ops, generation);
    var first := Play(map[], r.ops, generation);
    if book == books[0] {
      var e := CursorOf(r.s.db, book).value;
      assert CursorOf(all.s.db, book) == Some(e);
      CompletedTracks(log, map[], r.ops, generation, book, None, e, r.s.head, true, id);
      AgreesLater(log, first, book, e, r.s.head, all.s.head, true, id);
      PlayKeeps(log, first, rest.ops, generation, book, e, 0, all.s.head, true, id);
    } else {
      EnumerationIsRemote(log, r.s, books[1..], generation, book, id);
      PlayIs(first, rest.ops, generation, id);
      RowsOfBook(r.ops, generation, books[0], id);
    }
  }

  /** A row of a completed book that the run said nothing about, and whose contact did
      not change after the book's new cursor. */
  predicate Stale(log: seq<Change>, before: Db, r: Run, book: string, head: nat, id: string)
    requires head <= |log|
  {
    var e := CursorOf(r.s.db, book);
    && At(before.contacts, book, id).Some? && !Touched(r.ops, id, book)
    && e.Some? && e.value <= head && !Changed(log, book, id, e.value, head)
  }

  ghost predicate NoneStale(log: seq<Change>, s: State, books: seq<string>, generation: nat, head: nat)
    requires head <= |log|
  {
    var r := BooksRun(s, books, Nones(|books|), generation);
    forall b, id :: b in Completed(s, books, Nones(|books|), generation) ==> !Stale(log, s.db, r, b, head, id)
  }

  /** Before any sweep a completed book's row agrees with the remote if and only if it
      is not stale. */
  lemma {:induction false} UnsweptContact(log: seq<Change>, s: State, books: seq<string>, generation: nat, head: nat,
                                          b: string, id: string)
    requires AllDistinct(books) && OneBook(log) && Timely(log, s.head, s.answers)
    requires HonestBooks(log, s, books, Nones(|books|), generation)
    requires BooksRun(s, books, Nones(|books|), generation).s.head <= head <= |log|
    requires b in Completed(s, books, Nones(|books|), generation)
    ensures var r := BooksRun(s, books, Nones(|books|), generation);
            var e := CursorOf(r.s.db, b);
            && e.Some? && e.value <= head
            && (Agrees(log, r.s.db.contacts, b, e.value, head, true, id) <==> !Stale(log, s.db, r, b, head, id))
  {
    var r := BooksRun(s, books, Nones(|books|), generation);
    var own := Play(map[], r.ops, generation);
    EnumerationIsRemote(log, s, books, generation, b, id);
    AgreesLater(log, own, b, CursorOf(r.s.db, b).value, r.s.head, head, true, id);
    BooksRunRows(s, books, Nones(|books|), generation);
    PlayIs(s.db.contacts, r.ops, generation, id);
  }

  /** A full run up to its sweep, wherever it failed: the remote stays tracked without
      reservation if and only if no row of a completed book is stale. */
  lemma {:induction false} UnsweptTracks(log: seq<Change>, s: State, books: seq<string>, generation: nat, head: nat)
    requires AllDistinct(books) && OneBook(log) && Timely(log, s.head, s.answers)
    requires HonestBooks(log, s, books, Nones(|books|), generation) && Tracks(log, s.db, s.head, true)
    requires BooksRun(s, books, Nones(|books|), generation).s.head <= head <= |log|
    ensures Tracks(log, BooksRun(s, books, Nones(|books|), generation).s.db, head, true) <==>
            NoneStale(log, s, books, generation, head)
  {
    var r := BooksRun(s, books, Nones(|books|), generation);
    if NoneStale(log, s, books, generation, head) {
      forall b ensures BookTracks(log, r.s.db, head, true, b) {
        UnsweptBook(log, s, books, generation, head, b);
      }
    }
    if Tracks(log, r.s.db, head, true) {
      forall b, id | b in Completed(s, books, Nones(|books|), generation) ensures !Stale(log, s.db, r, b, head, id) {
        UnsweptContact(log, s, books, generation, head, b, id);
        assert BookTracks(log, r.s.db, head, true, b);
      }
    }
  }

  lemma {:induction false} UnsweptBook(log: seq<Change>, s: State, books: seq<string>, generation: nat, head: nat,
                                       b: string)
    requires AllDistinct(books) && OneBook(log) && Timely(log, s.head, s.answers)
    requires HonestBooks(log, s, books, Nones(|books|), generation) && BookTracks(log, s.db, s.head, true, b)
    requires BooksRun(s, books, Nones(|books|), generation).s.head <= head <= |log|
    requires NoneStale(log, s, books, generation, head)
    ensures BookTracks(log, BooksRun(s, books, Nones(|books|), generation).s.db, head, true, b)
  {
    var r := BooksRun(s, books, Nones(|books|), generation);
    var c := CursorOf(r.s.db, b);
    if b in Completed(s, books, Nones(|books|), generation) {
      UnsweptContact(log, s, books, generation, head, b, "");
      forall id ensures Agrees(log, r.s.db.contacts, b, c.value, head, true, id) {
        UnsweptContact(log, s, books, generation, head, b, id);
      }
    } else if c.Some? {
      OthersKeepCursor(s, books, Nones(|books|), generation, b);
      BooksRunRows(s, books, Nones(|books|), generation);
      BooksHonest(log, s, books, Nones(|books|), generation, s.head);
      HonestLater(log, r.ops, s.head, r.s.head, s.head, head);
      forall id ensures Agrees(log, r.s.db.contacts, b, c.value, head, true, id) {
        AgreesLater(log, s.db.contacts, b, c.value, s.head, head, true, id);
        PlayKeeps(log, s.db.contacts, r.ops, generation, b, c.value, s.head, head, true, id);
      }
    }
  }

  /** A run over all books, failing at any page: books asked from their stored cursors
      keep equal to the remote; books enumerated do, if and only if no row of a
      completed one is stale. */
  lemma {:induction false} BooksKeep(log: seq<Change>, s: State, list: seq<Listed>, full: bool, generation: nat,
                                     head: nat)
    requires AllDistinct(Ids(list)) && OneBook(log) && Timely(log, s.head, s.answers) && Tracks(log, s.db, s.head, true)
    requires full || forall b :: b in list ==> CursorOf(s.db, b.id).Some?
    requires HonestBooks(log, s, Ids(list), Asked(s.db, list, full), generation)
    requires BooksRun(s, Ids(list), Asked(s.db, list, full), generation).s.head <= head <= |log|
    ensures Tracks(log, BooksRun(s, Ids(list), Asked(s.db, list, full), generation).s.db, head, true) <==>
            (full ==> NoneStale(log, s, Ids(list), generation, head))
  {
    if full {
      UnsweptTracks(log, s, Ids(list), generation, head);
    } else {
      var r := BooksRun(s, Ids(list), Asked(s.db, list, full), generation);
      CursorsKeep(log, s, Ids(list), Asked(s.db, list, full), generation, true);
      TracksLater(log, r.s.db, r.s.head, head, true);
    }
  }

  /** A row from before the run that a sweep at `generation` does not catch: it already
      carries the stamp, and the run said nothing about it. */
  predicate Leftover(db: Db, ops: seq<Op>, generation: nat, books: seq<string>, id: string) {
    id in db.contacts &&
    var row := db.contacts[id];
    && row.stamp == generation && !Touched(ops, id, row.book)
    && (row.book in books || (row.book in db.books && db.books[row.book].stamp == generation))
  }

  /** The run of `s` that succeeds in full mode, over the books listed. */
  ghost predicate FullDone(s: State, allowIncremental: bool) {
    && Attempt(s, allowIncremental).outcome == Done
    && IsFull(s.db, ListOf(s).value, allowIncremental)
  }

  /** Full-sync exactness: what is left is what the run itself wrote and did not take
      back, and the leftover rows. */
  lemma {:induction false} FullSyncExact(s: State, allowIncremental: bool, id: string)
    requires FullDone(s, allowIncremental) && AllDistinct(Ids(ListOf(s).value))
    ensures var r, generation := Attempt(s, allowIncremental), s.db.generation + 1;
            var own, books := Play(map[], r.ops, generation), Ids(ListOf(s).value);
            && r.s.db.generation == generation
            && (id in r.s.db.contacts <==> id in own || Leftover(s.db, r.ops, generation, books, id))
            && (id in r.s.db.contacts ==> r.s.db.contacts[id] == if id in own then own[id] else s.db.contacts[id])
            && (id in own ==> !Leftover(s.db, r.ops, generation, books, id))
  {
    var generation, books := s.db.generation + 1, Ids(ListOf(s).value);
    FullParts(s, allowIncremental);
    SweptExact(Began(s), books, generation, id);
  }

  lemma {:induction false} SweptExact(s: State, books: seq<string>, generation: nat, id: string)
    requires AllDistinct(books) && BooksRun(s, books, Nones(|books|), generation).outcome == Done
    ensures var r := BooksRun(s, books, Nones(|books|), generation);
            var own, swept := Play(map[], r.ops, generation), Swept(r.s.db, true, generation);
            && (id in swept.contacts <==> id in own || Leftover(s.db, r.ops, generation, books, id))
            && (id in swept.contacts ==> swept.contacts[id] == if id in own then own[id] else s.db.contacts[id])
            && (id in own ==> !Leftover(s.db, r.ops, generation, books, id))
  {
    var run := BooksRun(s, books, Nones(|books|), generation);
    BooksRunRows(s, books, Nones(|books|), generation);
    BooksRunSteps(s, books, Nones(|books|), generation);
    PlayIs(s.db.contacts, run.ops, generation, id);
    OwnBook(run.ops, generation, books, id);
  }

  lemma {:induction false} OwnBook(ops: seq<Op>, stamp: nat, books: seq<string>, id: string)
    requires forall i :: 0 <= i < |ops| ==> ops[i].book in books
    ensures id in Play(map[], ops, stamp) ==> Play(map[], ops, stamp)[id].book in books
  {
    if ops != [] { OwnBook(ops[..|ops| - 1], stamp, books, id); }
  }

  /** Exact without reservation if and only if there is no leftover row. */
  lemma {:induction false} FullSyncExactIff(s: State, allowIncremental: bool)
    requires FullDone(s, allowIncremental) && AllDistinct(Ids(ListOf(s).value))
    ensures var r, generation := Attempt(s, allowIncremental), s.db.generation + 1;
            r.s.db.contacts == Play(map[], r.ops, generation) <==>
              forall id :: !Leftover(s.db, r.ops, generation, Ids(ListOf(s).value), id)
  {
    var r, generation := Attempt(s, allowIncremental), s.db.generation + 1;
    forall id ensures
        var own, books := Play(map[], r.ops, generation), Ids(ListOf(s).value);
        && (id in r.s.db.contacts <==> id in own || Leftover(s.db, r.ops, generation, books, id))
        && (id in r.s.db.contacts && id in own ==> r.s.db.contacts[id] == own[id])
        && (id in own ==> !Leftover(s.db, r.ops, generation, books, id))
    {
      FullSyncExact(s, allowIncremental, id);
    }
  }

  /** A failing run, in either mode, removes no contact except by tombstone, forgets no
      book and does not raise the generation. */
  lemma {:induction false} FailingRunKeeps(s: State, allowIncremental: bool, id: string)
    requires Attempt(s, allowIncremental).outcome != Done
    requires ListOf(s).Some? ==> AllDistinct(Ids(ListOf(s).value))
    ensures var r := Attempt(s, allowIncremental);
            && r.s.db.generation == s.db.generation
            && (forall b :: b in s.db.books ==> b in r.s.db.books)
            && (id in s.db.contacts && id !in r.s.db.contacts ==>
                  exists i :: 0 <= i < |r.ops| && r.ops[i].Drop? && r.ops[i].id == id)
  {
    if ListOf(s).Some? {
      var list := ListOf(s).value;
      var asked := Asked(s.db, list, IsFull(s.db, list, allowIncremental));
      BooksRunKeeps(Began(s), Ids(list), asked, s.db.generation + 1, id);
    }
  }

  lemma {:induction false} BooksRunKeeps(s: State, books: seq<string>, cursors: seq<Option<nat>>, generation: nat,
                                         id: string)
    requires |books| == |cursors| && AllDistinct(books)
    ensures var r := BooksRun(s, books, cursors, generation);
            && r.s.db.generation == s.db.generation
            && (forall b :: b in s.db.books ==> b in r.s.db.books)
            && (id in s.db.contacts && id !in r.s.db.contacts ==>
                  exists i :: 0 <= i < |r.ops| && r.ops[i].Drop? && r.ops[i].id == id)
  {
    var r := BooksRun(s, books, cursors, generation);
    BooksRunRows(s, books, cursors, generation);
    BooksRunSteps(s, books, cursors, generation);
    if id in s.db.contacts && id !in r.s.db.contacts {
      OnlyDropped(s.db.contacts, r.ops, generation, id);
    }
  }

  // ---- whole runs ----------------------------------------------------------

  ghost predicate Rediscovered(db: Db, list: seq<Listed>) {
    forall b :: b in db.books ==> b in Ids(list)
  }

  ghost predicate HonestAttempt(log: seq<Change>, s: State, allowIncremental: bool) {
    Timely(log, s.head, s.answers) &&
    (ListOf(s).Some? ==>
       var list := ListOf(s).value;
       AllDistinct(Ids(list)) &&
       var asked := Asked(s.db, list, IsFull(s.db, list, allowIncremental));
       HonestBooks(log, Began(s), Ids(list), asked, s.db.generation + 1))
  }

  ghost predicate NoLeftover(log: seq<Change>, s: State, r: Run)
    requires ListOf(s).Some? && r.s.head <= |log|
  {
    forall id :: id in s.db.contacts ==>
      !UnnoticedLeftover(log, s, r, s.db.contacts[id].book, id)
  }

  /** A leftover row whose contact did not change again after the book's new cursor. */
  ghost predicate UnnoticedLeftover(log: seq<Change>, s: State, r: Run, book: string, id: string)
    requires ListOf(s).Some? && r.s.head <= |log|
  {
    && Leftover(s.db, r.ops, s.db.generation + 1, Ids(ListOf(s).value), id)
    && s.db.contacts[id].book == book
    && var e := CursorOf(r.s.db, book); e.Some? && e.value <= r.s.head && !Changed(log, book, id, e.value, r.s.head)
  }

  /** A full run that succeeds over all known books tracks the remote, up to rows left
      where no contact was; and without reservation if and only if no leftover row
      goes unnoticed. */
  lemma {:induction false} FullRunTracks(log: seq<Change>, s: State, allowIncremental: bool)
    requires FullDone(s, allowIncremental) && OneBook(log) && HonestAttempt(log, s, allowIncremental)
    requires Rediscovered(s.db, ListOf(s).value)
    ensures var r := Attempt(s, allowIncremental);
            && r.s.head <= |log| && Tracks(log, r.s.db, r.s.head, false)
            && (Tracks(log, r.s.db, r.s.head, true) <==> NoLeftover(log, s, r))
  {
    var r := Attempt(s, allowIncremental);
    FullRunTime(log, s, allowIncremental);
    forall b, strict: bool | !strict || NoLeftover(log, s, r) ensures BookTracks(log, r.s.db, r.s.head, strict, b) {
      var e := CursorOf(r.s.db, b);
      if e.Some? {
        FullBookTracks(log, s, allowIncremental, b, "");
        forall id ensures Agrees(log, r.s.db.contacts, b, e.value, r.s.head, strict, id) {
          FullContactTracks(log, s, allowIncremental, b, id);
        }
      }
    }
    if Tracks(log, r.s.db, r.s.head, true) {
      forall id | id in s.db.contacts ensures !UnnoticedLeftover(log, s, r, s.db.contacts[id].book, id) {
        var b := s.db.contacts[id].book;
        if UnnoticedLeftover(log, s, r, b, id) {
          assert BookTracks(log, r.s.db, r.s.head, true, b);
          var e := CursorOf(r.s.db, b).value;
          assert Agrees(log, r.s.db.contacts, b, e, r.s.head, true, id);
          LeftoverIsExtra(log, s, allowIncremental, b, id);
          assert false;
        }
      }
    }
  }

  lemma {:induction false} BeganTime(log: seq<Change>, s: State)
    requires Timely(log, s.head, s.answers)
    ensures s.head <= Began(s).head <= |log| && Timely(log, Began(s).head, Began(s).answers)
  {
    if s.answers != [] { assert Timely(log, s.answers[0].head, s.answers[1..]); }
  }

  lemma {:induction false} FullRunTime(log: seq<Change>, s: State, allowIncremental: bool)
    requires FullDone(s, allowIncremental) && HonestAttempt(log, s, allowIncremental)
    ensures var r := Attempt(s, allowIncremental);
            var run := BooksRun(Began(s), Ids(ListOf(s).value), Nones(|ListOf(s).value|), s.db.generation + 1);
            run.s.head <= r.s.head <= |log|
  {
    BooksRunTime(log, Began(s), Ids(ListOf(s).value), Nones(|ListOf(s).value|), s.db.generation + 1);
  }

  lemma {:induction false} FullBookTracks(log: seq<Change>, s: State, allowIncremental: bool, b: string, id: string)
    requires FullDone(s, allowIncremental) && OneBook(log) && HonestAttempt(log, s, allowIncremental)
    requires Rediscovered(s.db, ListOf(s).value) && CursorOf(Attempt(s, allowIncremental).s.db, b).Some?
    ensures var r := Attempt(s, allowIncremental);
            var e := CursorOf(r.s.db, b).value;
            && r.s.head <= |log| && b in Ids(ListOf(s).value) && e <= r.s.head
            && Agrees(log, Play(map[], r.ops, s.db.generation + 1), b, e, r.s.head, true, id)
  {
    var r, generation, books := Attempt(s, allowIncremental), s.db.generation + 1, Ids(ListOf(s).value);
    var run := BooksRun(Began(s), books, Nones(|books|), generation);
    FullParts(s, allowIncremental);
    FullRunTime(log, s, allowIncremental);
    BooksRunSteps(Began(s), books, Nones(|books|), generation);
    SweptCursor(run.s.db, true, generation, b);
    BeganTime(log, s);
    RunIsRemote(log, Began(s), books, generation, b, id, r.s.head);
  }

  lemma {:induction false} RunIsRemote(log: seq<Change>, s: State, books: seq<string>, generation: nat, b: string,
                                       id: string, head: nat)
    requires AllDistinct(books) && OneBook(log) && Timely(log, s.head, s.answers) && b in books
    requires HonestBooks(log, s, books, Nones(|books|), generation)
    requires BooksRun(s, books, Nones(|books|), generation).outcome == Done
    requires BooksRun(s, books, Nones(|books|), generation).s.head <= head <= |log|
    ensures var r := BooksRun(s, books, Nones(|books|), generation);
            var e := CursorOf(r.s.db, b);
            e.Some? && e.value <= head && Agrees(log, Play(map[], r.ops, generation), b, e.value, head, true, id)
  {
    var r := BooksRun(s, books, Nones(|books|), generation);
    EnumerationIsRemote(log, s, books, generation, b, id);
    AgreesLater(log, Play(map[], r.ops, generation), b, CursorOf(r.s.db, b).value, r.s.head, head, true, id);
  }

  lemma {:induction false} SweptCursor(db: Db, full: bool, generation: nat, b: string)
    requires CursorOf(Swept(db, full, generation), b).Some?
    ensures b in db.books && db.books[b].stamp == generation &&
      CursorOf(Swept(db, full, generation), b) == CursorOf(db, b)
  {
  }

  /** A full run that succeeds is the run over its books, swept. */
  lemma {:induction false} FullParts(s: State, allowIncremental: bool)
    requires FullDone(s, allowIncremental)
    ensures var run := BooksRun(Began(s), Ids(ListOf(s).value), Nones(|ListOf(s).value|), s.db.generation + 1);
            var r := Attempt(s, allowIncremental);
            run.outcome == Done && r.ops == run.ops && r.s.db == Swept(run.s.db, true, s.db.generation + 1)
  {
  }

  lemma {:induction false} FullContactTracks(log: seq<Change>, s: State, allowIncremental: bool, b: string, id: string)
    requires FullDone(s, allowIncremental) && OneBook(log) && HonestAttempt(log, s, allowIncremental)
    requires Rediscovered(s.db, ListOf(s).value) && CursorOf(Attempt(s, allowIncremental).s.db, b).Some?
    ensures var r := Attempt(s, allowIncremental);
            var e := CursorOf(r.s.db, b);
            && r.s.head <= |log| && e.value <= r.s.head
            && Agrees(log, r.s.db.contacts, b, e.value, r.s.head, false, id)
            && (id !in s.db.contacts || !UnnoticedLeftover(log, s, r, b, id) ==>
                  Agrees(log, r.s.db.contacts, b, e.value, r.s.head, true, id))
  {
    var r, own := Attempt(s, allowIncremental), Play(map[], Attempt(s, allowIncremental).ops, s.db.generation + 1);
    FullBookTracks(log, s, allowIncremental, b, id);
    FullSyncExact(s, allowIncremental, id);
    assert Agrees(log, own, b, CursorOf(r.s.db, b).value, r.s.head, true, id);
  }

  lemma {:induction false} LeftoverIsExtra(log: seq<Change>, s: State, allowIncremental: bool, b: string, id: string)
    requires FullDone(s, allowIncremental) && OneBook(log) && HonestAttempt(log, s, allowIncremental)
    requires Rediscovered(s.db, ListOf(s).value)
    requires Attempt(s, allowIncremental).s.head <= |log|
    requires UnnoticedLeftover(log, s, Attempt(s, allowIncremental), b, id)
    ensures !Agrees(log, Attempt(s, allowIncremental).s.db.contacts, b,
                    CursorOf(Attempt(s, allowIncremental).s.db, b).value, Attempt(s, allowIncremental).s.head, true, id)
  {
    var r, own := Attempt(s, allowIncremental), Play(map[], Attempt(s, allowIncremental).ops, s.db.generation + 1);
    FullBookTracks(log, s, allowIncremental, b, id);
    FullSyncExact(s, allowIncremental, id);
    assert Agrees(log, own, b, CursorOf(r.s.db, b).value, r.s.head, true, id);
  }

  /** In full mode, a run that succeeds lists all known books. */
  ghost predicate Fit(s: State, allowIncremental: bool) {
    ListOf(s).Some? && IsFull(s.db, ListOf(s).value, allowIncremental) &&
      Attempt(s, allowIncremental).outcome == Done ==>
      Rediscovered(s.db, ListOf(s).value)
  }

  /** Whether a run leaves no row too many: an incremental one adds none, a full one
      that succeeds clears all but unnoticed leftovers, and one that fails must have
      completed no book with a stale row. */
  ghost predicate StillExact(log: seq<Change>, s: State, allowIncremental: bool, before: bool) {
    var r := Attempt(s, allowIncremental);
    if ListOf(s).None? || !IsFull(s.db, ListOf(s).value, allowIncremental) then before
    else
      r.s.head <= |log| &&
      if r.outcome == Done then NoLeftover(log, s, r)
      else before && NoneStale(log, Began(s), Ids(ListOf(s).value), s.db.generation + 1, r.s.head)
  }

  /** Whatever fails, a run misses nothing, and leaves nothing too many as long as
      `StillExact` says so; for a full run, if and only if. */
  lemma {:induction false} AttemptTracks(log: seq<Change>, s: State, allowIncremental: bool, exact: bool)
    requires OneBook(log) && HonestAttempt(log, s, allowIncremental) && Fit(s, allowIncremental)
    requires Tracks(log, s.db, s.head, exact)
    ensures var r := Attempt(s, allowIncremental);
            && r.s.head <= |log| && Timely(log, r.s.head, r.s.answers)
            && Tracks(log, r.s.db, r.s.head, StillExact(log, s, allowIncremental, exact))
            && (exact ==> (Tracks(log, r.s.db, r.s.head, true) <==> StillExact(log, s, allowIncremental, true)))
  {
    if ListOf(s).None? {
      BeganTime(log, s);
      TracksLater(log, s.db, s.head, Began(s).head, exact);
    } else if IsFull(s.db, ListOf(s).value, allowIncremental) {
      FullTracks(log, s, allowIncremental, exact);
    } else {
      IncrementalTracks(log, s, allowIncremental, exact);
    }
  }

  lemma {:induction false} StillExactIs(log: seq<Change>, s: State, allowIncremental: bool, exact: bool)
    requires ListOf(s).Some? && IsFull(s.db, ListOf(s).value, allowIncremental)
    requires Attempt(s, allowIncremental).s.head <= |log|
    ensures var r := Attempt(s, allowIncremental);
            StillExact(log, s, allowIncremental, exact) <==>
              if r.outcome == Done then NoLeftover(log, s, r)
              else exact && NoneStale(log, Began(s), Ids(ListOf(s).value), s.db.generation + 1, r.s.head)
  {
  }

  lemma {:induction false} FullTracks(log: seq<Change>, s: State, allowIncremental: bool, exact: bool)
    requires OneBook(log) && HonestAttempt(log, s, allowIncremental) && Fit(s, allowIncremental)
    requires ListOf(s).Some? && IsFull(s.db, ListOf(s).value, allowIncremental)
    requires Tracks(log, s.db, s.head, exact)
    ensures var r := Attempt(s, allowIncremental);
            && r.s.head <= |log| && Timely(log, r.s.head, r.s.answers)
            && Tracks(log, r.s.db, r.s.head, StillExact(log, s, allowIncremental, exact))
            && (exact ==> (Tracks(log, r.s.db, r.s.head, true) <==> StillExact(log, s, allowIncremental, true)))
  {
    var r, still := Attempt(s, allowIncremental), StillExact(log, s, allowIncremental, exact);
    FullTime(log, s, allowIncremental);
    StillExactIs(log, s, allowIncremental, exact);
    if r.outcome == Done {
      FullRunTracks(log, s, allowIncremental);
    } else {
      FailedFullTracks(log, s, allowIncremental, exact);
    }
    assert Tracks(log, r.s.db, r.s.head, still) by {
      if still { assert Tracks(log, r.s.db, r.s.head, true); } else { assert Tracks(log, r.s.db, r.s.head, false); }
    }
  }

  lemma {:induction false} IncrementalTracks(log: seq<Change>, s: State, allowIncremental: bool, exact: bool)
    requires OneBook(log) && HonestAttempt(log, s, allowIncremental) && Tracks(log, s.db, s.head, exact)
    requires ListOf(s).Some? && !IsFull(s.db, ListOf(s).value, allowIncremental)
    ensures var r := Attempt(s, allowIncremental);
            r.s.head <= |log| && Timely(log, r.s.head, r.s.answers) && Tracks(log, r.s.db, r.s.head, exact)
  {
    var r, t, list := Attempt(s, allowIncremental), Began(s), ListOf(s).value;
    var run := BooksRun(t, Ids(list), Asked(s.db, list, false), s.db.generation + 1);
    BeganTime(log, s);
    TracksLater(log, s.db, s.head, t.head, exact);
    BooksRunTime(log, t, Ids(list), Asked(s.db, list, false), s.db.generation + 1);
    CursorsKeep(log, t, Ids(list), Asked(s.db, list, false), s.db.generation + 1, exact);
    TracksLater(log, run.s.db, run.s.head, r.s.head, exact);
    DiscoveryTracks(log, run.s.db, s.db.generation + 1, r.s.head, exact);
  }

  lemma {:induction false} FullTime(log: seq<Change>, s: State, allowIncremental: bool)
    requires HonestAttempt(log, s, allowIncremental)
    requires ListOf(s).Some? && IsFull(s.db, ListOf(s).value, allowIncremental)
    ensures Timely(log, Attempt(s, allowIncremental).s.head, Attempt(s, allowIncremental).s.answers)
  {
    var books := Ids(ListOf(s).value);
    BeganTime(log, s);
    BooksRunTime(log, Began(s), books, Nones(|books|), s.db.generation + 1);
  }

  /** A full run that fails, at any page: it misses nothing, and it leaves nothing too
      many if and only if it completed no book with a stale row. */
  lemma {:induction false} FailedFullTracks(log: seq<Change>, s: State, allowIncremental: bool, exact: bool)
    requires OneBook(log) && HonestAttempt(log, s, allowIncremental) && Tracks(log, s.db, s.head, exact)
    requires ListOf(s).Some? && IsFull(s.db, ListOf(s).value, allowIncremental)
    requires Attempt(s, allowIncremental).outcome != Done
    ensures var r := Attempt(s, allowIncremental);
            && r.s.head <= |log| && Timely(log, r.s.head, r.s.answers) && Tracks(log, r.s.db, r.s.head, false)
            && (exact ==> (Tracks(log, r.s.db, r.s.head, true) <==>
                           NoneStale(log, Began(s), Ids(ListOf(s).value), s.db.generation + 1, r.s.head)))
  {
    var r, t, books := Attempt(s, allowIncremental), Began(s), Ids(ListOf(s).value);
    var run := BooksRun(t, books, Nones(|books|), s.db.generation + 1);
    BeganTime(log, s);
    TracksLater(log, s.db, s.head, t.head, exact);
    BooksRunTime(log, t, books, Nones(|books|), s.db.generation + 1);
    TracksWeakly(log, t.db, t.head, exact);
    CursorsKeep(log, t, books, Nones(|books|), s.db.generation + 1, false);
    TracksLater(log, run.s.db, run.s.head, r.s.head, false);
    if exact { BooksKeep(log, t, ListOf(s).value, true, s.db.generation + 1, r.s.head); }
  }

  lemma {:induction false} TracksLater(log: seq<Change>, db: Db, h: nat, head: nat, strict: bool)
    requires h <= head <= |log| && Tracks(log, db, h, strict)
    ensures Tracks(log, db, head, strict)
  {
    forall b ensures BookTracks(log, db, head, strict, b) {
      assert BookTracks(log, db, h, strict, b);
      var c := CursorOf(db, b);
      if c.Some? {
        forall id ensures Agrees(log, db.contacts, b, c.value, head, strict, id) {
          AgreesLater(log, db.contacts, b, c.value, h, head, strict, id);
        }
      }
    }
  }

  lemma {:induction false} TracksWeakly(log: seq<Change>, db: Db, head: nat, exact: bool)
    requires head <= |log| && Tracks(log, db, head, exact)
    ensures Tracks(log, db, head, false)
  {
    forall b ensures BookTracks(log, db, head, false, b) {
      assert BookTracks(log, db, head, exact, b);
      var c := CursorOf(db, b);
      if c.Some? {
        forall id ensures Agrees(log, db.contacts, b, c.value, head, false, id) {
          assert Agrees(log, db.contacts, b, c.value, head, exact, id);
        }
      }
    }
  }

  lemma {:induction false} DiscoveryTracks(log: seq<Change>, db: Db, generation: nat, head: nat, strict: bool)
    requires head <= |log| && Tracks(log, db, head, strict)
    ensures Tracks(log, Swept(db, false, generation), head, strict)
  {
    var swept := Swept(db, false, generation);
    forall b ensures BookTracks(log, swept, head, strict, b) {
      assert BookTracks(log, db, head, strict, b);
      var c := CursorOf(swept, b);
      if c.Some? {
        forall id ensures Agrees(log, swept.contacts, b, c.value, head, strict, id) {
          assert Agrees(log, db.contacts, b, c.value, head, strict, id);
        }
      }
    }
  }

  /** A tracked book whose contacts did not change after its cursor equals the remote. */
  lemma {:induction false} TrackedIsRemote(log: seq<Change>, db: Db, head: nat, book: string, id: string)
    requires head <= |log| && Tracks(log, db, head, true) && CursorOf(db, book).Some?
    requires CursorOf(db, book).value <= head && !Changed(log, book, id, CursorOf(db, book).value, head)
    ensures At(db.contacts, book, id) == Remote(log, head, book, id)
  {
    assert BookTracks(log, db, head, true, book);
    assert Agrees(log, db.contacts, book, CursorOf(db, book).value, head, true, id);
    RemoteStill(log, book, id, CursorOf(db, book).value, head);
  }

  /** A successful incremental run leaves every listed book with a cursor, at which its
      rows are the remote contacts; and does not raise the generation. */
  lemma {:induction false} IncrementalReplay(log: seq<Change>, s: State, book: string, id: string)
    requires OneBook(log) && HonestAttempt(log, s, true) && Tracks(log, s.db, s.head, true)
    requires Attempt(s, true).outcome == Done && !IsFull(s.db, ListOf(s).value, true)
    requires book in Ids(ListOf(s).value)
    ensures var r := Attempt(s, true);
            var e := CursorOf(r.s.db, book);
            && r.s.db.generation == s.db.generation
            && e.Some? && e.value <= r.s.head <= |log|
            && (!Changed(log, book, id, e.value, r.s.head) ==>
                  At(r.s.db.contacts, book, id) == Remote(log, r.s.head, book, id))
  {
    AttemptTracks(log, s, true, true);
    ListedHaveCursors(s, book);
    var r := Attempt(s, true);
    assert BookTracks(log, r.s.db, r.s.head, true, book);
    if !Changed(log, book, id, CursorOf(r.s.db, book).value, r.s.head) {
      TrackedIsRemote(log, r.s.db, r.s.head, book, id);
    }
  }

  lemma {:induction false} ListedHaveCursors(s: State, book: string)
    requires ListOf(s).Some? && AllDistinct(Ids(ListOf(s).value)) && book in Ids(ListOf(s).value)
    requires Attempt(s, true).outcome == Done && !IsFull(s.db, ListOf(s).value, true)
    ensures CursorOf(Attempt(s, true).s.db, book).Some? && Attempt(s, true).s.db.generation == s.db.generation
  {
    var list := ListOf(s).value;
    IncrementalParts(s, list);
    BooksRunSteps(Began(s), Ids(list), Asked(s.db, list, false), s.db.generation + 1);
  }

  lemma {:induction false} IncrementalParts(s: State, list: seq<Listed>)
    requires ListOf(s) == Some(list) && Attempt(s, true).outcome == Done && !IsFull(s.db, list, true)
    ensures var run := BooksRun(Began(s), Ids(list), Asked(s.db, list, false), s.db.generation + 1);
            run.outcome == Done && Attempt(s, true).s.db == Swept(run.s.db, false, s.db.generation + 1)
  {
    AttemptIs(s, true, list, false);
  }

  // ---- histories -----------------------------------------------------------

  /** A sync with its fallback, or a change made remotely by the user, that has brought
      the log to `head`, and its local write. */
  datatype Step =
    | Sync(answers: seq<Answer>)
    | Mutate(book: string, page: Page, saved: bool, head: nat, answers: seq<Answer>)

  function StepState(db: Db, head: nat, step: Step): State {
    if step.Sync? then State(db, head, step.answers, []) else State(db, step.head, step.answers, [])
  }

  predicate Written(step: Step) { step.Mutate? && step.saved && !Refused(step.book, step.page) }

  function AfterStep(db: Db, head: nat, step: Step): (Db, nat) {
    var s := StepState(db, head, step);
    if Written(step) then (Applied(db, step.book, db.generation, step.page), step.head)
    else var r := SyncOnce(s); (r.s.db, r.s.head)
  }

  ghost predicate FitSync(log: seq<Change>, s: State) {
    && HonestAttempt(log, s, true) && Fit(s, true)
    && (Attempt(s, true).outcome == Failed(true) ==>
          HonestAttempt(log, Attempt(s, true).s, false) && Fit(Attempt(s, true).s, false))
  }

  ghost predicate ExactSync(log: seq<Change>, s: State, before: bool) {
    var once := StillExact(log, s, true, before);
    if Attempt(s, true).outcome == Failed(true) then StillExact(log, Attempt(s, true).s, false, once) else once
  }

  /** A mutation's page has no cursor, and says what the contacts are by now. */
  ghost predicate FitStep(log: seq<Change>, db: Db, head: nat, step: Step) {
    if Written(step) then
      head <= step.head <= |log| && step.page.finalCursor.None? &&
      Honest(log, PageOps(step.book, step.page), head, step.head)
    else head <= StepState(db, head, step).head && FitSync(log, StepState(db, head, step))
  }

  function After(db: Db, head: nat, steps: seq<Step>): (Db, nat)
    decreases |steps|
  {
    if steps == [] then (db, head) else
    var next := AfterStep(db, head, steps[0]);
    After(next.0, next.1, steps[1..])
  }

  ghost predicate FitSteps(log: seq<Change>, db: Db, head: nat, steps: seq<Step>)
    decreases |steps|
  {
    steps == [] ||
    var next := AfterStep(db, head, steps[0]);
    FitStep(log, db, head, steps[0]) && FitSteps(log, next.0, next.1, steps[1..])
  }

  /** Whether no row is too many after a history, run by run. */
  ghost predicate ExactAfter(log: seq<Change>, db: Db, head: nat, steps: seq<Step>, before: bool)
    decreases |steps|
  {
    if steps == [] then before else
    var next := AfterStep(db, head, steps[0]);
    ExactAfter(log, next.0, next.1, steps[1..],
               if Written(steps[0]) then before else ExactSync(log, StepState(db, head, steps[0]), before))
  }

  lemma {:induction false} SyncTracks(log: seq<Change>, s: State, exact: bool)
    requires OneBook(log) && FitSync(log, s) && Tracks(log, s.db, s.head, exact)
    ensures SyncOnce(s).s.head <= |log|
    ensures Tracks(log, SyncOnce(s).s.db, SyncOnce(s).s.head, ExactSync(log, s, exact))
  {
    AttemptTracks(log, s, true, exact);
    if Attempt(s, true).outcome == Failed(true) {
      AttemptTracks(log, Attempt(s, true).s, false, StillExact(log, s, true, exact));
    }
  }

  lemma {:induction false} MutationTracks(log: seq<Change>, db: Db, h: nat, head: nat, book: string, page: Page,
                                          strict: bool)
    requires OneBook(log) && h <= head <= |log| && page.finalCursor.None? && Tracks(log, db, h, strict)
    requires Honest(log, PageOps(book, page), h, head)
    ensures Tracks(log, Applied(db, book, db.generation, page), head, strict)
  {
    var now := Applied(db, book, db.generation, page);
    forall b ensures BookTracks(log, now, head, strict, b) {
      assert BookTracks(log, db, h, strict, b);
      var c := CursorOf(now, b);
      if c.Some? {
        forall id ensures Agrees(log, now.contacts, b, c.value, head, strict, id) {
          AgreesLater(log, db.contacts, b, c.value, h, head, strict, id);
          PlayKeeps(log, db.contacts, PageOps(book, page), db.generation, b, c.value, h, head, strict, id);
        }
      }
    }
  }

  /** Contact replay: over every history of runs and mutations, failing anywhere, no
      remote contact is missing or outdated in a book with a cursor; and as long as
      `ExactAfter` says so the rows are exactly the remote contacts at the cursor. */
  lemma {:induction false} Replay(log: seq<Change>, db: Db, head: nat, steps: seq<Step>, exact: bool)
    requires OneBook(log) && head <= |log| && Tracks(log, db, head, exact) && FitSteps(log, db, head, steps)
    ensures After(db, head, steps).1 <= |log|
    ensures Tracks(log, After(db, head, steps).0, After(db, head, steps).1, ExactAfter(log, db, head, steps, exact))
    decreases |steps|
  {
    if steps != [] {
      var step, next := steps[0], AfterStep(db, head, steps[0]);
      if Written(step) {
        MutationTracks(log, db, head, step.head, step.book, step.page, exact);
        Replay(log, next.0, next.1, steps[1..], exact);
      } else {
        TracksLater(log, db, head, StepState(db, head, step).head, exact);
        SyncTracks(log, StepState(db, head, step), exact);
        Replay(log, next.0, next.1, steps[1..], ExactSync(log, StepState(db, head, step), exact));
      }
    }
  }

  // ---- where less holds ----------------------------------------------------

  /** A finished run keeps the listed books, and those an earlier run left with the
      same stamp. */
  lemma {:induction false} BooksKept(s: State, allowIncremental: bool, b: string)
    requires Attempt(s, allowIncremental).outcome == Done && AllDistinct(Ids(ListOf(s).value))
    ensures b in Attempt(s, allowIncremental).s.db.books <==>
              b in Ids(ListOf(s).value) || (b in s.db.books && s.db.books[b].stamp == s.db.generation + 1)
  {
    var list := ListOf(s).value;
    BooksRunSteps(Began(s), Ids(list), Asked(s.db, list, IsFull(s.db, list, allowIncremental)), s.db.generation + 1);
  }

  /** Enumerating one book, before any sweep: its new cursor, committed with the last
      page, tracks the remote if and only if no row that went unmentioned is stale. A
      full run that fails at a later book leaves it at that. */
  lemma {:induction false} EnumerationAlone(log: seq<Change>, s: State, book: string, generation: nat)
    requires OneBook(log) && Timely(log, s.head, s.answers)
    requires var r := BookRun(s, book, None, None, generation);
             r.outcome == Done && r.s.head <= |log| && HonestBook(log, book, None, s.head, r)
    ensures var r := BookRun(s, book, None, None, generation);
            BookTracks(log, r.s.db, r.s.head, true, book) <==>
              forall id :: At(s.db.contacts, book, id).Some? && Said(r.ops, id).None? ==>
                Changed(log, book, id, CursorOf(r.s.db, book).value, r.s.head)
  {
    var r := BookRun(s, book, None, None, generation);
    var e := CursorOf(r.s.db, book).value;
    BookRunRows(s, book, None, None, generation);
    forall id ensures Agrees(log, r.s.db.contacts, book, e, r.s.head, true, id) <==>
        (At(s.db.contacts, book, id).Some? && Said(r.ops, id).None? ==> Changed(log, book, id, e, r.s.head))
    {
      SaidIs(s.db.contacts, r.ops, generation, book, id);
      assert Complete(log, r.ops, book, None, e, r.s.head, id);
    }
    if BookTracks(log, r.s.db, r.s.head, true, book) {
      forall id | At(s.db.contacts, book, id).Some? && Said(r.ops, id).None?
        ensures Changed(log, book, id, e, r.s.head)
      {
        assert Agrees(log, r.s.db.contacts, book, e, r.s.head, true, id);
      }
    }
  }

  function Final(cursor: nat, upserts: seq<Upsert>): Reply { Changes(Page(upserts, [], None, Some(cursor)), true) }

  const ADDED_THEN_DELETED := [Change("a", "x", Some("1")), Change("a", "x", None)]

  function OneBookRun(cursor: nat, upserts: seq<Upsert>): seq<Answer> {
    [Answer(cursor, Books([Listed("a", true)])), Answer(cursor, Final(cursor, upserts)), Answer(cursor, Finished)]
  }

  /** A run over the one book "a" that gets one page. */
  lemma {:induction false} OnePage(s: State, allowIncremental: bool, cursor: nat, upserts: seq<Upsert>)
    requires s.answers == OneBookRun(cursor, upserts) && forall u :: u in upserts ==> u.book == "a"
    requires CursorOf(s.db, "a").Some?
    ensures Attempt(s, allowIncremental).outcome == Done
    ensures Attempt(s, allowIncremental).s.db ==
            Swept(Applied(s.db, "a", s.db.generation + 1, Page(upserts, [], None, Some(cursor))),
                  !allowIncremental, s.db.generation + 1)
  {
    var list := [Listed("a", true)];
    var t, generation := Began(s), s.db.generation + 1;
    var asked := Asked(s.db, list, !allowIncremental);
    assert Ids(list) == ["a"] && t.answers == [Answer(cursor, Final(cursor, upserts)), Answer(cursor, Finished)];
    assert IsFull(s.db, list, allowIncremental) == !allowIncremental;
    OneBookOnly(t, asked, generation, cursor, upserts, [Answer(cursor, Finished)]);
    AttemptIs(s, allowIncremental, list, !allowIncremental);
    var run := BooksRun(t, ["a"], asked, generation);
    assert Finish(run, !allowIncremental, generation).s.db == Swept(run.s.db, !allowIncremental, generation);
  }

  lemma {:induction false} AttemptIs(s: State, allowIncremental: bool, list: seq<Listed>, full: bool)
    requires ListOf(s) == Some(list) && full == IsFull(s.db, list, allowIncremental)
    ensures Attempt(s, allowIncremental) ==
            Finish(BooksRun(Began(s), Ids(list), Asked(s.db, list, full), s.db.generation + 1),
                   full, s.db.generation + 1)
  {
  }

  lemma {:induction false} OneBookOnly(t: State, asked: seq<Option<nat>>, generation: nat, cursor: nat,
                                       upserts: seq<Upsert>, rest: seq<Answer>)
    requires t.answers == [Answer(cursor, Final(cursor, upserts))] + rest && |asked| == 1
    requires forall u :: u in upserts ==> u.book == "a"
    ensures var r := BooksRun(t, ["a"], asked, generation);
            && r.outcome == Done && r.s.answers == rest
            && r.s.db == Applied(t.db, "a", generation, Page(upserts, [], None, Some(cursor)))
  {
    var r := BookRun(t, "a", asked[0], None, generation);
    assert t.answers[1..] == rest;
    assert r.outcome == Done && r.s.answers == rest;
    assert BooksRun(r.s, ["a"][1..], asked[1..], generation).s == r.s;
  }

  const EMPTY := Db(0, map["a" := Book(Some(0), 0)], map[])
  const ARRIVED := Db(0, map["a" := Book(Some(1), 1)], map["x" := Contact("a", "1", 1)])
  const ARRIVAL := [Upsert("a", "x", "1")]

  lemma {:induction false} ArrivedApplied()
    ensures Swept(Applied(EMPTY, "a", 1, Page(ARRIVAL, [], None, Some(1))), false, 1) == ARRIVED
  {
    var ops := PageOps("a", Page(ARRIVAL, [], None, Some(1)));
    assert ops == [Put("a", "x", "1")] && ops[..0] == [];
    assert Play(EMPTY.contacts, ops, 1) == ARRIVED.contacts;
  }

  /** The contact "x" arrives in an incremental run, is deleted remotely, and the next
      full run, which uses the same stamp again, leaves it. */
  lemma {:induction false} ReusedStampLeavesContact(s: State, later: State)
    requires s.db == EMPTY && s.answers == OneBookRun(1, ARRIVAL)
    requires later.db == Attempt(s, true).s.db && later.answers == OneBookRun(2, [])
    ensures Attempt(s, true).outcome == Done && Attempt(later, false).outcome == Done
    ensures CursorOf(Attempt(later, false).s.db, "a") == Some(2) && Remote(ADDED_THEN_DELETED, 2, "a", "x") == None
    ensures At(Attempt(later, false).s.db.contacts, "a", "x") == Some("1")
  {
    OnePage(s, true, 1, ARRIVAL);
    ArrivedApplied();
    OnePage(later, false, 2, []);
    assert PageOps("a", Page([], [], None, Some(2))) == [];
  }

  const STALE := Db(0, map["a" := Book(Some(1), 0)], map["x" := Contact("a", "1", 0)])

  /** A full run over the one book "a" that is cut before its sweep. */
  lemma {:induction false} NoSweep(s: State)
    requires s.answers == OneBookRun(2, [])[..2]
    ensures Attempt(s, false).outcome == Failed(false)
    ensures Attempt(s, false).s.db == Applied(s.db, "a", s.db.generation + 1, Page([], [], None, Some(2)))
  {
    var list := [Listed("a", true)];
    assert Ids(list) == ["a"] && Began(s).answers == [Answer(2, Final(2, []))] + [];
    OneBookOnly(Began(s), Asked(s.db, list, true), s.db.generation + 1, 2, [], []);
  }

  /** The contact "x" was deleted remotely. A full run is cut before its sweep, with the
      book's new cursor stored; the next run is incremental, succeeds, and leaves "x". */
  lemma {:induction false} AbandonedRunLeavesContact(s: State, later: State)
    requires s.db == STALE && s.answers == OneBookRun(2, [])[..2]
    requires later.db == Attempt(s, false).s.db && later.answers == OneBookRun(2, [])
    ensures Attempt(s, false).outcome == Failed(false) && Attempt(later, true).outcome == Done
    ensures CursorOf(Attempt(later, true).s.db, "a") == Some(2) && Remote(ADDED_THEN_DELETED, 2, "a", "x") == None
    ensures At(Attempt(later, true).s.db.contacts, "a", "x") == Some("1")
  {
    NoSweep(s);
    assert PageOps("a", Page([], [], None, Some(2))) == [];
    OnePage(later, true, 2, []);
  }
}
