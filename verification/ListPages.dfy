/** Mail-list pages: newest rows of a view, assembled from one bounded query per
    folder, and the date cursor that leads from page to page. A query's answer is any
    sequence the SQL allows: ties in the date may come in any order. */
module ListPages {
  import opened Basics

  datatype Msg = Msg(id: nat, folder: nat, date: int, read: bool, deleted: bool)

  /** `is_deleted = 0`, the unread clause and the cursor clause. */
  predicate Eligible(m: Msg, unread: bool, cursor: Option<int>) {
    !m.deleted && (unread ==> !m.read) && (cursor.Some? ==> m.date < cursor.value)
  }

  function Branch(db: set<Msg>, folder: nat, unread: bool, cursor: Option<int>): set<Msg> {
    set m | m in db && m.folder == folder && Eligible(m, unread, cursor)
  }

  /** The flat query: all eligible rows of all the folders. */
  function Flat(db: set<Msg>, folders: seq<nat>, unread: bool, cursor: Option<int>): set<Msg> {
    set m | m in db && m.folder in folders && Eligible(m, unread, cursor)
  }

  ghost predicate Distinct<T>(s: seq<T>) { forall i, j :: 0 <= i < j < |s| ==> s[i] != s[j] }

  /** How many of `n` rows `LIMIT limit` returns; a negative limit is none. */
  function Limited(limit: int, n: nat): nat { if 0 <= limit < n then limit else n }

  /** `r` answers `SELECT … FROM pool ORDER BY date DESC LIMIT limit`. */
  ghost predicate IsTop(r: seq<Msg>, pool: set<Msg>, limit: int) {
    && Distinct(r) && Elems(r) <= pool && |r| == Limited(limit, |pool|)
    && (forall i, j :: 0 <= i < j < |r| ==> r[i].date >= r[j].date)
    && (forall x, y :: x in pool && x !in r && y in r ==> x.date <= y.date)
  }

  // ---- cardinalities ------------------------------------------------------

  lemma {:induction false} SubsetCard<T>(a: set<T>, b: set<T>)
    requires a <= b
    ensures |a| <= |b| && (|a| == |b| ==> a == b)
    decreases |a|
  {
    if a != {} {
      var x :| x in a;
      SubsetCard(a - {x}, b - {x});
      assert a == (a - {x}) + {x} && b == (b - {x}) + {x};
    }
  }

  lemma {:induction false} DistinctCard<T>(s: seq<T>)
    requires Distinct(s)
    ensures |Elems(s)| == |s|
    decreases |s|
  {
    if s != [] {
      var init, last := s[..|s| - 1], s[|s| - 1];
      DistinctCard(init);
      assert Elems(s) == Elems(init) + {last};
      assert last !in init;
    }
  }

  lemma {:induction false} TopCard(r: seq<Msg>, pool: set<Msg>, limit: int)
    requires IsTop(r, pool, limit)
    ensures |Elems(r)| == |r| <= |pool|
    ensures |r| == |pool| ==> Elems(r) == pool
    ensures |r| < |pool| ==> |r| == limit
  {
    DistinctCard(r);
    SubsetCard(Elems(r), pool);
  }

  // ---- top-K merge --------------------------------------------------------

  ghost function Pooled(parts: seq<seq<Msg>>): set<Msg> {
    set i, m | 0 <= i < |parts| && m in parts[i] :: m
  }

  ghost predicate AreBranches(parts: seq<seq<Msg>>, db: set<Msg>, folders: seq<nat>, unread: bool,
                              cursor: Option<int>, limit: int) {
    |parts| == |folders| && forall i :: 0 <= i < |parts| ==>
      IsTop(parts[i], Branch(db, folders[i], unread, cursor), limit)
  }

  lemma {:induction false} PooledInFlat(parts: seq<seq<Msg>>, db: set<Msg>, folders: seq<nat>, unread: bool,
                                        cursor: Option<int>, limit: int)
    requires AreBranches(parts, db, folders, unread, cursor, limit)
    ensures Pooled(parts) <= Flat(db, folders, unread, cursor)
  {
    forall m | m in Pooled(parts) ensures m in Flat(db, folders, unread, cursor) {
      var i :| 0 <= i < |parts| && m in parts[i];
      assert m in Elems(parts[i]);
      assert m in Branch(db, folders[i], unread, cursor);
    }
  }

  /** A row the merge never saw was cut off by a full branch of at least as new rows. */
  lemma {:induction false} CutOff(parts: seq<seq<Msg>>, db: set<Msg>, folders: seq<nat>, unread: bool,
                                  cursor: Option<int>, limit: int, x: Msg)
      returns (i: nat)
    requires AreBranches(parts, db, folders, unread, cursor, limit)
    requires x in Flat(db, folders, unread, cursor) && x !in Pooled(parts)
    ensures i < |parts| && |parts[i]| == |Elems(parts[i])| == limit
    ensures Elems(parts[i]) <= Pooled(parts)
    ensures forall z :: z in parts[i] ==> x.date <= z.date
  {
    i :| 0 <= i < |folders| && folders[i] == x.folder;
    var pool := Branch(db, folders[i], unread, cursor);
    assert x in pool && x !in parts[i];
    TopCard(parts[i], pool, limit);
    assert x !in Elems(parts[i]);
  }

  /** Nothing the merge dropped is newer than what it kept. */
  lemma {:induction false} MergeDominates(db: set<Msg>, folders: seq<nat>, unread: bool, cursor: Option<int>,
                                          limit: int, parts: seq<seq<Msg>>, r: seq<Msg>, x: Msg, y: Msg)
    requires AreBranches(parts, db, folders, unread, cursor, limit)
    requires IsTop(r, Pooled(parts), limit)
    requires x in Flat(db, folders, unread, cursor) && x !in r && y in r
    ensures x.date <= y.date
  {
    if x !in Pooled(parts) && y.date < x.date {
      var i := CutOff(parts, db, folders, unread, cursor, limit, x);
      assert y in Elems(r);
      assert Elems(parts[i]) <= Elems(r) - {y};
      SubsetCard(Elems(parts[i]), Elems(r) - {y});
      DistinctCard(r);
      assert false;
    }
  }

  /** Taking the newest `limit` rows of every folder, and the newest `limit` of those,
      answers the flat query over all folders, however ties fall. */
  lemma {:induction false} MergeRefinesFlat(db: set<Msg>, folders: seq<nat>, unread: bool, cursor: Option<int>,
                                            limit: int, parts: seq<seq<Msg>>, r: seq<Msg>)
    requires AreBranches(parts, db, folders, unread, cursor, limit)
    requires IsTop(r, Pooled(parts), limit)
    ensures IsTop(r, Flat(db, folders, unread, cursor), limit)
  {
    var flat, pooled := Flat(db, folders, unread, cursor), Pooled(parts);
    PooledInFlat(parts, db, folders, unread, cursor, limit);
    SubsetCard(pooled, flat);
    if pooled != flat {
      var x :| x in flat && x !in pooled;
      var i := CutOff(parts, db, folders, unread, cursor, limit, x);
      SubsetCard(Elems(parts[i]), pooled);
    }
    forall x, y | x in flat && x !in r && y in r ensures x.date <= y.date {
      MergeDominates(db, folders, unread, cursor, limit, parts, r, x, y);
    }
  }

  /** `view_total`: per-folder counts, summed. */
  method ViewTotal(db: set<Msg>, folders: seq<nat>, unread: bool) returns (total: nat)
    requires Distinct(folders)
    ensures total == |Flat(db, folders, unread, None)|
  {
    total := 0;
    for i := 0 to |folders|
      invariant total == |Flat(db, folders[..i], unread, None)|
    {
      var before, branch := Flat(db, folders[..i], unread, None), Branch(db, folders[i], unread, None);
      assert Flat(db, folders[..i + 1], unread, None) == before + branch;
      assert before !! branch;
      total := total + |branch|;
    }
    assert folders[..|folders|] == folders;
  }

  /** `next_cursor`: the last row's date, when the page is full. */
  function Next(page: seq<Msg>, limit: int): Option<int> {
    if page != [] && |page| == limit then Some(page[|page| - 1].date) else None
  }

  lemma {:induction false} WhatIsLeft(page: seq<Msg>, pool: set<Msg>, limit: int)
    requires IsTop(page, pool, limit)
    ensures Next(page, limit).None? && limit != 0 ==> Elems(page) == pool
    ensures Next(page, limit).Some? ==> forall x :: x in pool && x !in page ==> x.date <= Next(page, limit).value
    ensures Next(page, limit).Some? ==> forall y :: y in page ==> Next(page, limit).value <= y.date
  {
    TopCard(page, pool, limit);
    if page != [] { assert page[|page| - 1] in page; }
  }

  datatype Page = Page(items: seq<Msg>, total: nat, next: Option<int>)

  /** The message belongs to the view, and is older than the cursor. */
  ghost predicate Belongs(m: Msg, db: set<Msg>, folders: seq<nat>, unread: bool, cursor: Option<int>) {
    && m in db && m.folder in folders && !m.deleted && !(unread && m.read)
    && match cursor case None => true case Some(date) => m.date < date
  }

  lemma {:induction false} FlatIsTheView(db: set<Msg>, folders: seq<nat>, unread: bool, cursor: Option<int>)
    ensures forall m :: m in Flat(db, folders, unread, cursor) <==> Belongs(m, db, folders, unread, cursor)
    ensures Flat(db, folders, unread, cursor) == Below(Flat(db, folders, unread, None), cursor)
  {
    var pool := Flat(db, folders, unread, None);
    forall m ensures m in Below(pool, cursor) <==> Belongs(m, db, folders, unread, cursor) {}
  }

  /** `page` answers the view at a cursor: its newest rows, the size of the whole view and,
      when it is full, the date of its last row to go on from. */
  ghost predicate IsPage(page: Page, db: set<Msg>, folders: seq<nat>, unread: bool, cursor: Option<int>, limit: int) {
    && IsTop(page.items, Flat(db, folders, unread, cursor), limit)
    && page.total == |Flat(db, folders, unread, None)|
    && (page.next.Some? <==> page.items != [] && |page.items| == limit)
    && (page.next.Some? ==> page.next.value == page.items[|page.items| - 1].date)
  }

  /** `unified_page` on the rows the database returned. Without a next cursor nothing
      is left to list; with one, what is left is at most as new as it. */
  method UnifiedPage(db: set<Msg>, folders: seq<nat>, unread: bool, cursor: Option<int>, limit: int,
                     ghost parts: seq<seq<Msg>>, rows: seq<Msg>) returns (page: Page)
    requires Distinct(folders) && AreBranches(parts, db, folders, unread, cursor, limit)
    requires IsTop(rows, Pooled(parts), limit)
    ensures IsPage(page, db, folders, unread, cursor, limit)
    ensures forall m :: m in page.items ==> Belongs(m, db, folders, unread, cursor)
    ensures page.next.None? && limit != 0 ==> Elems(page.items) == Flat(db, folders, unread, cursor)
    ensures page.next.Some? ==>
      forall x :: x in Flat(db, folders, unread, cursor) && x !in page.items ==> x.date <= page.next.value
    ensures page.next.Some? ==> forall y :: y in page.items ==> page.next.value <= y.date
  {
    MergeRefinesFlat(db, folders, unread, cursor, limit, parts, rows);
    WhatIsLeft(rows, Flat(db, folders, unread, cursor), limit);
    FlatIsTheView(db, folders, unread, cursor);
    forall m | m in rows ensures Belongs(m, db, folders, unread, cursor) { assert m in Elems(rows); }
    var total := ViewTotal(db, folders, unread);
    page := Page(rows, total, Next(rows, limit));
  }

  // ---- pagination ---------------------------------------------------------

  function Below(pool: set<Msg>, cursor: Option<int>): set<Msg> {
    set m | m in pool && (cursor.Some? ==> m.date < cursor.value)
  }

  /** Pages fetched one after another, each with the cursor the one before gave;
      `done` says that the last one gave none. */
  ghost predicate Follows(pages: seq<seq<Msg>>, pool: set<Msg>, limit: int, cursor: Option<int>, done: bool)
    decreases |pages|
  {
    pages != [] && IsTop(pages[0], Below(pool, cursor), limit) &&
    match Next(pages[0], limit)
    case None => |pages| == 1 && done
    case Some(d) => if |pages| == 1 then !done else Follows(pages[1..], pool, limit, Some(d), done)
  }

  function Listed(pages: seq<seq<Msg>>): seq<Msg>
    decreases |pages|
  {
    if pages == [] then [] else pages[0] + Listed(pages[1..])
  }

  lemma {:induction false} ListedInBelow(pages: seq<seq<Msg>>, pool: set<Msg>, limit: int, cursor: Option<int>,
                                         done: bool)
    requires Follows(pages, pool, limit, cursor, done)
    ensures forall x :: x in Listed(pages) ==> x in Below(pool, cursor)
    decreases |pages|
  {
    forall x | x in pages[0] ensures x in Below(pool, cursor) { assert x in Elems(pages[0]); }
    var next := Next(pages[0], limit);
    if next.Some? && |pages| > 1 {
      assert pages[0][|pages[0]| - 1] in pages[0];
      ListedInBelow(pages[1..], pool, limit, next, done);
    } else {
      assert pages[1..] == [];
    }
  }

  /** Following the cursor ends: there are never more than one page per row, and one. */
  lemma {:induction false} PaginationEnds(pages: seq<seq<Msg>>, pool: set<Msg>, limit: int, cursor: Option<int>,
                                          done: bool)
    requires Follows(pages, pool, limit, cursor, done)
    ensures |pages| <= |Below(pool, cursor)| + 1
    decreases |pages|
  {
    var next := Next(pages[0], limit);
    if next.Some? && |pages| > 1 {
      PaginationEnds(pages[1..], pool, limit, next, done);
      var last := pages[0][|pages[0]| - 1];
      assert last in Elems(pages[0]);
      SubsetCard(Below(pool, next), Below(pool, cursor) - {last});
    }
  }

  /** No row twice, and dates never increase. */
  ghost predicate Ordered(s: seq<Msg>) {
    Distinct(s) && forall i, j :: 0 <= i < j < |s| ==> s[i].date >= s[j].date
  }

  lemma {:induction false} OrderedJoin(a: seq<Msg>, b: seq<Msg>)
    requires Ordered(a) && Ordered(b) && forall i, j :: 0 <= i < |a| && 0 <= j < |b| ==> b[j].date < a[i].date
    ensures Ordered(a + b)
  {
  }

  /** What a page's cursor leaves for later is older than the page. */
  lemma {:induction false} PageIsNewer(page: seq<Msg>, rest: seq<Msg>, pool: set<Msg>, limit: int)
    requires Ordered(page) && Next(page, limit).Some? && forall x :: x in rest ==> x in Below(pool, Next(page, limit))
    ensures forall i, j :: 0 <= i < |page| && 0 <= j < |rest| ==> rest[j].date < page[i].date
  {
    forall i, j | 0 <= i < |page| && 0 <= j < |rest| ensures rest[j].date < page[i].date {
      assert rest[j] in rest && page[i].date >= page[|page| - 1].date;
    }
  }

  /** No row is listed twice, and dates never increase along the way. */
  lemma {:induction false} PaginationIsOrdered(pages: seq<seq<Msg>>, pool: set<Msg>, limit: int, cursor: Option<int>,
                                               done: bool)
    requires Follows(pages, pool, limit, cursor, done)
    ensures Ordered(Listed(pages))
    decreases |pages|
  {
    var next := Next(pages[0], limit);
    if next.Some? && |pages| > 1 {
      PaginationIsOrdered(pages[1..], pool, limit, next, done);
      ListedInBelow(pages[1..], pool, limit, next, done);
      PageIsNewer(pages[0], Listed(pages[1..]), pool, limit);
      OrderedJoin(pages[0], Listed(pages[1..]));
    } else {
      assert pages[1..] == [] && pages[0] + [] == pages[0];
    }
  }

  /** `x` ties with the last row of a full page that does not show it. */
  ghost predicate TiedOut(x: Msg, pages: seq<seq<Msg>>, limit: int) {
    exists i :: 0 <= i < |pages| && Next(pages[i], limit) == Some(x.date) && x !in pages[i]
  }

  /** The rows a complete pagination misses are exactly those tied with the last row
      of a full page and not on that page. */
  lemma {:induction false} MissedAreTiedOut(pages: seq<seq<Msg>>, pool: set<Msg>, limit: int, cursor: Option<int>,
                                            x: Msg)
    requires limit != 0 && Follows(pages, pool, limit, cursor, true) && x in Below(pool, cursor)
    ensures x !in Listed(pages) <==> TiedOut(x, pages, limit)
    decreases |pages|
  {
    var page, rest := pages[0], pages[1..];
    TopCard(page, Below(pool, cursor), limit);
    match Next(page, limit)
    case None =>
      assert Elems(page) == Below(pool, cursor) && Listed(rest) == [];
      assert x in page;
    case Some(d) =>
      var last := page[|page| - 1];
      ListedInBelow(rest, pool, limit, Some(d), true);
      TiedOutShifts(x, pages, limit);
      if x in page {
        TiedBelow(x, rest, pool, limit, Some(d), true);
      } else {
        assert x.date <= d by { assert last in page; }
        if x.date == d {
          assert TiedOut(x, pages, limit);
        } else {
          MissedAreTiedOut(rest, pool, limit, Some(d), x);
        }
      }
  }

  lemma {:induction false} TiedOutShifts(x: Msg, pages: seq<seq<Msg>>, limit: int)
    requires pages != []
    ensures TiedOut(x, pages, limit) <==>
              (Next(pages[0], limit) == Some(x.date) && x !in pages[0]) || TiedOut(x, pages[1..], limit)
  {
    if TiedOut(x, pages[1..], limit) {
      var i :| 0 <= i < |pages[1..]| && Next(pages[1..][i], limit) == Some(x.date) && x !in pages[1..][i];
      assert pages[i + 1] == pages[1..][i];
    }
    if TiedOut(x, pages, limit) {
      var i :| 0 <= i < |pages| && Next(pages[i], limit) == Some(x.date) && x !in pages[i];
      if i > 0 { assert pages[1..][i - 1] == pages[i]; }
    }
  }

  /** Later pages end below their cursor. */
  lemma {:induction false} TiedBelow(x: Msg, pages: seq<seq<Msg>>, pool: set<Msg>, limit: int, cursor: Option<int>,
                                     done: bool)
    requires Follows(pages, pool, limit, cursor, done) && cursor.Some? && cursor.value <= x.date
    ensures !TiedOut(x, pages, limit)
    decreases |pages|
  {
    TiedOutShifts(x, pages, limit);
    var next := Next(pages[0], limit);
    if next.Some? {
      assert pages[0][|pages[0]| - 1] in Elems(pages[0]);
      if |pages| > 1 { TiedBelow(x, pages[1..], pool, limit, next, done); }
    }
    if |pages| == 1 { assert pages[1..] == []; }
  }

  /** With distinct dates nothing ties: a complete pagination lists every row. */
  lemma {:induction false} DistinctDatesListAll(pages: seq<seq<Msg>>, pool: set<Msg>, limit: int)
    requires limit != 0 && Follows(pages, pool, limit, None, true)
    requires forall x, y :: x in pool && y in pool && x != y ==> x.date != y.date
    ensures Elems(Listed(pages)) == pool && |Listed(pages)| == |pool|
  {
    assert Below(pool, None) == pool;
    ListedInBelow(pages, pool, limit, None, true);
    forall x | x in pool ensures x in Listed(pages) {
      MissedAreTiedOut(pages, pool, limit, None, x);
      if TiedOut(x, pages, limit) {
        var i :| 0 <= i < |pages| && Next(pages[i], limit) == Some(x.date) && x !in pages[i];
        var last := pages[i][|pages[i]| - 1];
        ListedHas(pages, i, last);
        assert false;
      }
    }
    PaginationIsOrdered(pages, pool, limit, None, true);
    DistinctCard(Listed(pages));
  }

  /** Pages of a view fetched one after another, each at the cursor the one before gave. */
  ghost predicate Fetched(pages: seq<Page>, db: set<Msg>, folders: seq<nat>, unread: bool, cursor: Option<int>,
                          limit: int)
    decreases |pages|
  {
    pages != [] && IsPage(pages[0], db, folders, unread, cursor, limit) &&
    (|pages| > 1 ==> pages[0].next.Some? && Fetched(pages[1..], db, folders, unread, pages[0].next, limit))
  }

  function Items(pages: seq<Page>): seq<seq<Msg>> { seq(|pages|, i requires 0 <= i < |pages| => pages[i].items) }

  /** What `unified_page` answers along its own cursors is a pagination. */
  lemma {:induction false} FetchedFollow(pages: seq<Page>, db: set<Msg>, folders: seq<nat>, unread: bool,
                                         cursor: Option<int>, limit: int)
    requires Fetched(pages, db, folders, unread, cursor, limit)
    ensures Follows(Items(pages), Flat(db, folders, unread, None), limit, cursor, pages[|pages| - 1].next.None?)
    decreases |pages|
  {
    FlatIsTheView(db, folders, unread, cursor);
    assert Next(pages[0].items, limit) == pages[0].next;
    if |pages| > 1 {
      FetchedFollow(pages[1..], db, folders, unread, pages[0].next, limit);
      assert Items(pages)[1..] == Items(pages[1..]);
    }
  }

  /** Listing a view to its end shows each of its rows once, newest first, but for those
      tied with the last row of a full page that has no room for them. */
  lemma {:induction false} ViewIsListed(pages: seq<Page>, db: set<Msg>, folders: seq<nat>, unread: bool, limit: int)
    requires Fetched(pages, db, folders, unread, None, limit) && pages[|pages| - 1].next.None? && limit != 0
    ensures Ordered(Listed(Items(pages)))
    ensures forall m :: m in Listed(Items(pages)) <==>
              Belongs(m, db, folders, unread, None) && !TiedOut(m, Items(pages), limit)
  {
    var pool, items := Flat(db, folders, unread, None), Items(pages);
    FetchedFollow(pages, db, folders, unread, None, limit);
    FlatIsTheView(db, folders, unread, None);
    PaginationIsOrdered(items, pool, limit, None, true);
    ListedInBelow(items, pool, limit, None, true);
    forall m ensures m in Listed(items) <==> m in pool && !TiedOut(m, items, limit) {
      if m in pool { MissedAreTiedOut(items, pool, limit, None, m); }
    }
  }

  lemma {:induction false} ListedHas(pages: seq<seq<Msg>>, i: nat, x: Msg)
    requires i < |pages| && x in pages[i]
    ensures x in Listed(pages)
    decreases i
  {
    if i > 0 { ListedHas(pages[1..], i - 1, x); }
  }
}
