/** What a contact sync reads of the provider's answers, how that decides its outcome, and
    how an expired cursor leads to a full run. */
module ContactFallback {
  import opened Basics
  import opened ContactStore
  import opened ContactReplay

  /** From `s` to `t` the first `n` answers were read and `k` requests made. */
  ghost predicate Read(s: State, t: State, n: nat, k: nat) {
    && n <= |s.answers| && t.answers == s.answers[n..]
    && |t.asked| == |s.asked| + k && t.asked[..|s.asked|] == s.asked
  }

  function Answered(s: State, t: State): int { |s.answers| - |t.answers| }

  function Requested(s: State, t: State): int { |t.asked| - |s.asked| }

  /** A page that is committed and followed by another. */
  predicate GoesOn(book: string, reply: Reply) {
    reply.Changes? && reply.saved && !Refused(book, reply.page) && reply.page.continuation.Some?
  }

  /** … or is the book's last. */
  predicate Completes(book: string, reply: Reply) {
    && reply.Changes? && reply.saved && !Refused(book, reply.page)
    && reply.page.continuation.None? && reply.page.finalCursor.Some?
  }

  /** A book's run reads answers up to the first that is not a page followed by another; that
      one decides. Each answer is to a request; where there is none, the run fails. */
  ghost predicate BookReads(s: State, r: Run, book: string, n: nat, k: nat) {
    && Read(s, r.s, n, k)
    && (forall i :: 0 <= i < n - 1 ==> GoesOn(book, s.answers[i].reply))
    && (n == 0 || GoesOn(book, s.answers[n - 1].reply) ==> n == |s.answers| && k == n + 1 && r.outcome == Failed(false))
    && (n > 0 && !GoesOn(book, s.answers[n - 1].reply) ==>
          && k == n
          && (r.outcome == Done <==> Completes(book, s.answers[n - 1].reply))
          && (r.outcome == Failed(true) <==> s.answers[n - 1].reply == Error(true)))
  }

  lemma {:induction false} BookOutcome(s: State, book: string, cursor: Option<nat>, continuation: Option<string>,
                                       generation: nat)
    ensures var r := BookRun(s, book, cursor, continuation, generation);
            && Answered(s, r.s) >= 0 && Requested(s, r.s) >= 0
            && BookReads(s, r, book, Answered(s, r.s), Requested(s, r.s))
    decreases |s.answers|
  {
    var r := BookRun(s, book, cursor, continuation, generation);
    if s.answers != [] && GoesOn(book, s.answers[0].reply) {
      var page, v := s.answers[0].reply.page, Took(s, book, cursor, continuation, generation);
      var rest := BookRun(v, book, cursor, page.continuation, generation);
      BookOutcome(v, book, cursor, page.continuation, generation);
      BookTurns(s, book, cursor, continuation, generation);
      OneMoreRead(s, v, rest, r, book, Answered(v, rest.s), Requested(v, rest.s));
    } else {
      BookStops(s, book, cursor, continuation, generation);
    }
  }

  lemma {:induction false} BookTurns(s: State, book: string, cursor: Option<nat>, continuation: Option<string>,
                                     generation: nat)
    requires s.answers != [] && GoesOn(book, s.answers[0].reply)
    ensures var r := BookRun(s, book, cursor, continuation, generation);
            var v := Took(s, book, cursor, continuation, generation);
            var rest := BookRun(v, book, cursor, s.answers[0].reply.page.continuation, generation);
            r.s == rest.s && r.outcome == rest.outcome
  {
  }

  lemma {:induction false} BookStops(s: State, book: string, cursor: Option<nat>, continuation: Option<string>,
                                     generation: nat)
    requires s.answers == [] || !GoesOn(book, s.answers[0].reply)
    ensures BookReads(s, BookRun(s, book, cursor, continuation, generation), book, if s.answers == [] then 0 else 1, 1)
  {
  }

  lemma {:induction false} OneMoreRead(s: State, v: State, q: Run, r: Run, book: string, n: nat, k: nat)
    requires s.answers != [] && v.answers == s.answers[1..] && GoesOn(book, s.answers[0].reply)
    requires |v.asked| == |s.asked| + 1 && v.asked[..|s.asked|] == s.asked
    requires BookReads(v, q, book, n, k) && r.s == q.s && r.outcome == q.outcome
    ensures BookReads(s, r, book, n + 1, k + 1)
  {
    assert r.s.asked[..|v.asked|][..|s.asked|] == r.s.asked[..|s.asked|];
    forall i | 0 <= i < n ensures GoesOn(book, s.answers[i].reply) {
      if i > 0 { assert s.answers[i] == v.answers[i - 1]; }
    }
  }

  /** A run over books fails for an expired cursor if and only if that is what the last
      answer it read says. */
  ghost predicate BooksRead(s: State, r: Run, n: nat, k: nat) {
    && Read(s, r.s, n, k) && n <= k <= n + 1
    && (r.outcome == Done || r.outcome == Failed(true) ==> k == n)
    && (r.outcome == Failed(true) <==> n > 0 && s.answers[n - 1].reply == Error(true))
  }

  lemma {:induction false} BooksOutcome(s: State, books: seq<string>, cursors: seq<Option<nat>>, generation: nat)
    requires |books| == |cursors|
    ensures var r := BooksRun(s, books, cursors, generation);
            && Answered(s, r.s) >= 0 && Requested(s, r.s) >= 0
            && BooksRead(s, r, Answered(s, r.s), Requested(s, r.s))
    decreases |books|
  {
    if books != [] {
      var r := BookRun(s, books[0], cursors[0], None, generation);
      BookOutcome(s, books[0], cursors[0], None, generation);
      if r.outcome == Done {
        var rest := BooksRun(r.s, books[1..], cursors[1..], generation);
        BooksOutcome(r.s, books[1..], cursors[1..], generation);
        BooksTurn(s, r, rest, books[0], Answered(s, r.s), Requested(s, r.s), Answered(r.s, rest.s),
                  Requested(r.s, rest.s));
      }
    }
  }

  lemma {:induction false} BooksTurn(s: State, r: Run, rest: Run, book: string, n: nat, k: nat, m: nat, j: nat)
    requires BookReads(s, r, book, n, k) && r.outcome == Done && BooksRead(r.s, rest, m, j)
    ensures BooksRead(s, rest, n + m, k + j)
  {
    assert n > 0 && k == n && Completes(book, s.answers[n - 1].reply);
    ReadOn(s, r.s, rest.s, n, k, m, j);
  }

  lemma {:induction false} ReadOn(s: State, t: State, u: State, n: nat, k: nat, m: nat, j: nat)
    requires Read(s, t, n, k) && Read(t, u, m, j)
    ensures Read(s, u, n + m, k + j)
    ensures m > 0 ==> s.answers[n + m - 1] == t.answers[m - 1]
  {
    assert u.asked[..|t.asked|][..|s.asked|] == u.asked[..|s.asked|];
  }

  /** An attempt reads the list of books, an answer to each request and, if all books are
      complete, one more; it fails for an expired cursor if and only if the last answer it
      read says so and was to a request or for the list. */
  ghost predicate AttemptReads(s: State, r: Run, n: nat, k: nat) {
    && Read(s, r.s, n, k) && n <= k + 2 && (s.answers != [] ==> n > 0)
    && (r.outcome == Failed(true) <==> 0 < n == k + 1 && s.answers[n - 1].reply == Error(true))
    && (r.outcome == Done <==> n == k + 2 && s.answers[n - 1].reply == Finished)
  }

  lemma {:induction false} AttemptOutcome(s: State, allowIncremental: bool)
    ensures var r := Attempt(s, allowIncremental);
            && Answered(s, r.s) >= 0 && Requested(s, r.s) >= 0
            && AttemptReads(s, r, Answered(s, r.s), Requested(s, r.s))
  {
    if ListOf(s).Some? {
      var list, full := ListOf(s).value, IsFull(s.db, ListOf(s).value, allowIncremental);
      var t, cursors := Began(s), Asked(s.db, ListOf(s).value, full);
      var r := BooksRun(t, Ids(list), cursors, s.db.generation + 1);
      BooksOutcome(t, Ids(list), cursors, s.db.generation + 1);
      FinishOutcome(s, r, full, s.db.generation + 1, Answered(t, r.s), Requested(t, r.s));
      AttemptIs(s, allowIncremental, list, full);
    }
  }

  lemma {:induction false} FinishOutcome(s: State, r: Run, full: bool, generation: nat, n: nat, k: nat)
    requires ListOf(s).Some? && BooksRead(Began(s), r, n, k)
    ensures var f := Finish(r, full, generation);
            && Answered(s, f.s) >= 0 && Requested(s, f.s) == k
            && AttemptReads(s, f, Answered(s, f.s), k)
  {
    var f := Finish(r, full, generation);
    ReadOn(s, Began(s), r.s, 1, 0, n, k);
    if r.outcome == Done && r.s.answers != [] {
      assert r.s.answers[0] == s.answers[1 + n] && f.s.answers == s.answers[2 + n..];
      assert AttemptReads(s, f, n + 2, k);
    } else {
      assert AttemptReads(s, f, n + 1, k);
    }
  }

  /** After an expired cursor the account lists its books again, if there is an answer
      left, and asks without a cursor from then on; otherwise the first attempt stands. */
  lemma {:induction false} ExpiredFallsBack(s: State)
    ensures var r, t := Attempt(s, true), SyncOnce(s);
            var n, k := Answered(s, r.s), Requested(s, r.s);
            if 0 < n == k + 1 && s.answers[n - 1].reply == Error(true) then
              && Answered(s, t.s) >= n && (n < |s.answers| ==> Answered(s, t.s) > n)
              && |t.s.asked| >= |r.s.asked| && t.s.asked[..|r.s.asked|] == r.s.asked
              && (forall i :: |r.s.asked| <= i < |t.s.asked| ==> t.s.asked[i].cursor.None?)
              && t.s == Attempt(r.s, false).s && t.outcome == Attempt(r.s, false).outcome
            else t == r
  {
    var r := Attempt(s, true);
    AttemptOutcome(s, true);
    AttemptOutcome(r.s, false);
    if r.outcome == Failed(true) {
      var t := Attempt(r.s, false);
      forall i | |r.s.asked| <= i < |t.s.asked| ensures t.s.asked[i].cursor.None? {
        RequestsOfAttempt(r.s, false, i);
      }
    }
  }

  /** An attempt asks with cursors if and only if it may and every listed book has one and
      can report changes since. */
  lemma {:induction false} CursorsAreUsed(s: State, allowIncremental: bool, i: nat)
    requires |s.asked| <= i < |Attempt(s, allowIncremental).s.asked|
    ensures ListOf(s).Some?
    ensures Attempt(s, allowIncremental).s.asked[i].cursor.Some? <==>
            allowIncremental && forall b :: b in ListOf(s).value ==>
              b.syncCollection && b.id in s.db.books && s.db.books[b.id].cursor.Some?
  {
    RequestsOfAttempt(s, allowIncremental, i);
    var list, q := ListOf(s).value, Attempt(s, allowIncremental).s.asked[i];
    if !IsFull(s.db, list, allowIncremental) {
      var j :| 0 <= j < |list| && Ids(list)[j] == q.book;
      assert list[j] in list && CursorOf(s.db, list[j].id).Some?;
    }
  }
}
