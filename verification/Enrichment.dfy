/** Thread details of a mail-list page: two queries over all threads of the page at
    once, spread over the rows, against a recomputation for each row alone. */
module Enrichment {
  import opened Basics

  /** A row of `messages`; `header` is its Message-ID. */
  datatype Mail = Mail(id: string, thread: Option<string>, folder: string, header: Option<string>,
                       from: string, date: int, read: bool, deleted: bool)

  datatype Key = Key(thread: string, folder: string)

  /** One record of the `GROUP BY thread_id, folder_id` query. */
  datatype Group = Group(key: Key, size: nat, unread: nat)

  datatype Details = Details(size: nat, unread: nat, participants: seq<string>)

  // ---- what the queries may answer ----------------------------------------

  ghost function Live(db: set<Mail>, key: Key): set<Mail> {
    set m | m in db && m.thread == Some(key.thread) && m.folder == key.folder && !m.deleted
  }

  function Identity(m: Mail): string { if m.header.Some? then m.header.value else m.id }

  ghost function Identities(pool: set<Mail>): set<string> { set m | m in pool :: Identity(m) }

  ghost function Unread(pool: set<Mail>): set<Mail> { set m | m in pool && !m.read }

  ghost predicate AreGroups(groups: seq<Group>, db: set<Mail>, threads: set<string>) {
    && (forall i, j :: 0 <= i < j < |groups| ==> groups[i].key != groups[j].key)
    && (forall g :: g in groups ==> IsGroup(g, db, threads))
    && (forall m :: m in db && !m.deleted && m.thread.Some? && m.thread.value in threads ==>
          HasGroup(groups, Key(m.thread.value, m.folder)))
  }

  ghost predicate IsGroup(g: Group, db: set<Mail>, threads: set<string>) {
    var live := Live(db, g.key);
    g.key.thread in threads && live != {} && g.size == |Identities(live)| && g.unread == |Unread(live)|
  }

  ghost predicate HasGroup(groups: seq<Group>, key: Key) {
    exists i :: 0 <= i < |groups| && groups[i].key == key
  }

  /** `rows` is `pool` ordered by date, ties in any order. */
  ghost predicate IsListing(rows: seq<Mail>, pool: set<Mail>) {
    && (forall i, j :: 0 <= i < j < |rows| ==> rows[i] != rows[j] && rows[i].date <= rows[j].date)
    && Elems(rows) == pool
  }

  ghost function Threaded(db: set<Mail>, threads: set<string>): set<Mail> {
    set m | m in db && m.thread.Some? && m.thread.value in threads && !m.deleted
  }

  // ---- the answer for one row on its own ----------------------------------

  /** The senders of `rows`, each at its first place. */
  function Senders(rows: seq<Mail>): (r: seq<string>) {
    if rows == [] then [] else
      var before := Senders(rows[..|rows| - 1]);
      var from := rows[|rows| - 1].from;
      if from in before then before else before + [from]
  }

  function Three<T>(s: seq<T>): seq<T> { if |s| <= 3 then s else s[..3] }

  function Alone(m: Mail): Details { Details(1, if m.read then 0 else 1, [m.from]) }

  /** Nothing is found for the row: it counts as a conversation of one. */
  ghost predicate OnItsOwn(d: Details, m: Mail) {
    d.size == 1 && d.participants == [m.from] && (m.read <==> d.unread == 0) && d.unread <= 1
  }

  /** `d` is what the row `m` gets when only its own conversation is looked up. */
  ghost predicate IsDetail(d: Details, db: set<Mail>, m: Mail) {
    if m.thread.None? || Live(db, Key(m.thread.value, m.folder)) == {} then OnItsOwn(d, m) else
      var live := Live(db, Key(m.thread.value, m.folder));
      d.size == |Identities(live)| && d.unread == |Unread(live)| && AreParticipants(d.participants, live)
  }

  ghost predicate AreParticipants(p: seq<string>, live: set<Mail>) {
    exists rows :: IsListing(rows, live) && p == Three(Senders(rows))
  }

  // ---- the rows of one conversation within the batch -----------------------

  function Own(rows: seq<Mail>, key: Key): seq<Mail> {
    if rows == [] then [] else
      var before, last := Own(rows[..|rows| - 1], key), rows[|rows| - 1];
      if last.thread == Some(key.thread) && last.folder == key.folder then before + [last] else before
  }

  lemma {:induction false} OwnHas(rows: seq<Mail>, key: Key, m: Mail)
    ensures m in Own(rows, key) <==> m in rows && m.thread == Some(key.thread) && m.folder == key.folder
  {
    if rows != [] {
      OwnHas(rows[..|rows| - 1], key, m);
      assert rows == rows[..|rows| - 1] + [rows[|rows| - 1]];
    }
  }

  /** Picking one conversation out of a dated listing leaves a dated listing. */
  lemma {:induction false} OwnIsListing(rows: seq<Mail>, pool: set<Mail>, key: Key)
    requires IsListing(rows, pool)
    ensures IsListing(Own(rows, key), set m | m in pool && m.thread == Some(key.thread) && m.folder == key.folder)
  {
    var own := Own(rows, key);
    forall m ensures m in own <==> m in pool && m.thread == Some(key.thread) && m.folder == key.folder {
      OwnHas(rows, key, m);
      assert m in rows <==> m in Elems(rows);
    }
    if rows != [] {
      var init, last := rows[..|rows| - 1], rows[|rows| - 1];
      OwnIsListing(init, Elems(init), key);
      forall m | m in Own(init, key) ensures m != last && m.date <= last.date { OwnHas(init, key, m); }
    }
  }

  lemma {:induction false} ConversationIsListed(rows: seq<Mail>, db: set<Mail>, threads: set<string>, key: Key)
    requires IsListing(rows, Threaded(db, threads)) && key.thread in threads
    ensures IsListing(Own(rows, key), Live(db, key))
  {
    OwnIsListing(rows, Threaded(db, threads), key);
    assert Live(db, key) ==
           set m | m in Threaded(db, threads) && m.thread == Some(key.thread) && m.folder == key.folder;
  }

  // ---- the batched form ---------------------------------------------------

  ghost function ThreadsOf(page: seq<Mail>): set<string> {
    set m | m in page && m.thread.Some? :: m.thread.value
  }

  /** The distinct thread ids of the page, in order of appearance. */
  method ThreadIds(page: seq<Mail>) returns (ids: seq<string>)
    ensures Elems(ids) == ThreadsOf(page)
    ensures forall i, j :: 0 <= i < j < |ids| ==> ids[i] != ids[j]
  {
    ids := [];
    var seen: set<string> := {};
    for i := 0 to |page|
      invariant Elems(ids) == seen == ThreadsOf(page[..i])
      invariant forall i, j :: 0 <= i < j < |ids| ==> ids[i] != ids[j]
    {
      var m := page[i];
      assert page[..i + 1] == page[..i] + [m];
      assert m.thread.None? ==> ThreadsOf(page[..i + 1]) == ThreadsOf(page[..i]);
      if m.thread.Some? {
        assert ThreadsOf(page[..i + 1]) == ThreadsOf(page[..i]) + {m.thread.value};
        if m.thread.value !in seen {
          assert m.thread.value !in Elems(ids);
          ids := ids + [m.thread.value];
        }
        seen := seen + {m.thread.value};
      }
    }
    assert page[..|page|] == page;
  }

  method CountsByKey(groups: seq<Group>) returns (counts: map<Key, (nat, nat)>)
    requires forall i, j :: 0 <= i < j < |groups| ==> groups[i].key != groups[j].key
    ensures forall key :: key in counts <==> HasGroup(groups, key)
    ensures forall g :: g in groups ==> g.key in counts && counts[g.key] == (g.size, g.unread)
  {
    counts := map[];
    for i := 0 to |groups|
      invariant forall j :: 0 <= j < i ==>
        groups[j].key in counts && counts[groups[j].key] == (groups[j].size, groups[j].unread)
      invariant forall key :: key in counts ==> HasGroup(groups, key)
    {
      counts := counts[groups[i].key := (groups[i].size, groups[i].unread)];
    }
  }

  /** For every conversation met in `rows`, its first three senders. */
  ghost predicate Tallied(participants: map<Key, seq<string>>, rows: seq<Mail>) {
    forall key :: TalliedAt(participants, rows, key)
  }

  predicate TalliedAt(participants: map<Key, seq<string>>, rows: seq<Mail>, key: Key) {
    && (key in participants <==> Own(rows, key) != [])
    && (key in participants ==> participants[key] == Three(Senders(Own(rows, key))))
  }

  lemma {:induction false} Tally(participants: map<Key, seq<string>>, rows: seq<Mail>, m: Mail)
    requires Tallied(participants, rows) && m.thread.Some?
    ensures var key := Key(m.thread.value, m.folder);
            var v := if key in participants then participants[key] else [];
            Tallied(participants[key := if |v| < 3 && m.from !in v then v + [m.from] else v], rows + [m])
  {
    var key := Key(m.thread.value, m.folder);
    var v := if key in participants then participants[key] else [];
    var now := participants[key := if |v| < 3 && m.from !in v then v + [m.from] else v];
    assert TalliedAt(participants, rows, key);
    SendersGrow(Own(rows, key), m);
    forall k ensures TalliedAt(now, rows + [m], k) {
      assert TalliedAt(participants, rows, k);
      OwnGrows(rows, m, k);
    }
  }

  lemma {:induction false} OwnGrows(rows: seq<Mail>, m: Mail, key: Key)
    ensures Own(rows + [m], key) ==
            if m.thread == Some(key.thread) && m.folder == key.folder then Own(rows, key) + [m] else Own(rows, key)
  {
    assert (rows + [m])[..|rows + [m]| - 1] == rows;
  }

  /** The senders of every conversation, capped at three while the listing is read. */
  method ParticipantsByKey(rows: seq<Mail>) returns (participants: map<Key, seq<string>>)
    requires forall m :: m in rows ==> m.thread.Some?
    ensures Tallied(participants, rows)
  {
    participants := map[];
    for i := 0 to |rows|
      invariant Tallied(participants, rows[..i])
    {
      var m := rows[i];
      var key := Key(m.thread.value, m.folder);
      var v := if key in participants then participants[key] else [];
      Tally(participants, rows[..i], m);
      assert rows[..i + 1] == rows[..i] + [m];
      if |v| < 3 && m.from !in v {
        v := v + [m.from];
      }
      participants := participants[key := v];
    }
    assert rows[..|rows|] == rows;
  }

  /** One more row: below three the newcomer joins if new, from three on nothing changes. */
  lemma {:induction false} SendersGrow(rows: seq<Mail>, m: Mail)
    ensures var v := Three(Senders(rows));
            Three(Senders(rows + [m])) == if |v| < 3 && m.from !in v then v + [m.from] else v
  {
    assert (rows + [m])[..|rows + [m]| - 1] == rows;
  }

  /** `enrich_threads`, given what its two queries answered on the snapshot `db`. */
  method EnrichThreads(page: seq<Mail>, groups: seq<Group>, listing: seq<Mail>, ghost db: set<Mail>)
      returns (items: seq<Details>)
    requires AreGroups(groups, db, ThreadsOf(page)) && IsListing(listing, Threaded(db, ThreadsOf(page)))
    ensures |items| == |page|
    ensures forall i :: 0 <= i < |page| ==> IsDetail(items[i], db, page[i])
    ensures forall i :: 0 <= i < |page| && page[i].thread.None? ==>
      items[i].size == 1 && items[i].participants == [page[i].from] && items[i].unread == if page[i].read then 0 else 1
  {
    forall m | m in listing ensures m.thread.Some? { assert m in Elems(listing); }
    var counts := CountsByKey(groups);
    var participants := ParticipantsByKey(listing);
    items := [];
    for i := 0 to |page|
      invariant |items| == i
      invariant forall j :: 0 <= j < i ==> IsDetail(items[j], db, page[j])
    {
      var m := page[i];
      var d := Alone(m);
      if m.thread.Some? {
        var key := Key(m.thread.value, m.folder);
        GroupIsThere(groups, db, ThreadsOf(page), key);
        ConversationIsListed(listing, db, ThreadsOf(page), key);
        OwnIsEmpty(Own(listing, key), Live(db, key));
        assert TalliedAt(participants, listing, key);
        if key in counts { d := d.(size := counts[key].0, unread := counts[key].1); }
        if key in participants { d := d.(participants := participants[key]); }
      }
      items := items + [d];
    }
  }

  lemma {:induction false} GroupIsThere(groups: seq<Group>, db: set<Mail>, threads: set<string>, key: Key)
    requires AreGroups(groups, db, threads) && key.thread in threads
    ensures HasGroup(groups, key) <==> Live(db, key) != {}
    ensures forall g :: g in groups && g.key == key ==>
              g.size == |Identities(Live(db, key))| && g.unread == |Unread(Live(db, key))|
  {
    if HasGroup(groups, key) {
      var i :| 0 <= i < |groups| && groups[i].key == key;
      assert groups[i] in groups;
    }
    if Live(db, key) != {} {
      var m :| m in Live(db, key);
      assert HasGroup(groups, Key(m.thread.value, m.folder));
    }
  }

  lemma {:induction false} OwnIsEmpty(rows: seq<Mail>, pool: set<Mail>)
    requires IsListing(rows, pool)
    ensures rows == [] <==> pool == {}
  {
    if rows != [] { assert rows[0] in Elems(rows); }
  }

  // ---- one answer only ----------------------------------------------------

  ghost predicate DistinctDates(pool: set<Mail>) {
    forall x, y :: x in pool && y in pool && x != y ==> x.date != y.date
  }

  /** The last row of a listing is the newest of its pool. */
  lemma {:induction false} LastIsNewest(rows: seq<Mail>, pool: set<Mail>)
    requires IsListing(rows, pool) && pool != {}
    ensures rows != [] && rows[|rows| - 1] in pool
    ensures forall x :: x in pool ==> x.date <= rows[|rows| - 1].date
  {
    OwnIsEmpty(rows, pool);
    assert rows[|rows| - 1] in Elems(rows);
    forall x | x in pool ensures x.date <= rows[|rows| - 1].date {
      assert x in Elems(rows);
    }
  }

  /** With distinct dates there is one listing. */
  lemma {:induction false} ListingIsUnique(a: seq<Mail>, b: seq<Mail>, pool: set<Mail>)
    requires IsListing(a, pool) && IsListing(b, pool) && DistinctDates(pool)
    ensures a == b
    decreases |a|
  {
    OwnIsEmpty(a, pool);
    OwnIsEmpty(b, pool);
    if pool != {} {
      LastIsNewest(a, pool);
      LastIsNewest(b, pool);
      var x := a[|a| - 1];
      assert b[|b| - 1] == x;
      ListingInit(a, pool);
      ListingInit(b, pool);
      ListingIsUnique(a[..|a| - 1], b[..|b| - 1], pool - {x});
      SameRows(a, b);
    }
  }

  lemma {:induction false} SameRows(a: seq<Mail>, b: seq<Mail>)
    requires a != [] && b != [] && a[..|a| - 1] == b[..|b| - 1] && a[|a| - 1] == b[|b| - 1]
    ensures a == b
  {
    assert a == a[..|a| - 1] + [a[|a| - 1]] && b == b[..|b| - 1] + [b[|b| - 1]];
  }

  lemma {:induction false} ListingInit(rows: seq<Mail>, pool: set<Mail>)
    requires IsListing(rows, pool) && rows != []
    ensures IsListing(rows[..|rows| - 1], pool - {rows[|rows| - 1]})
  {
    var init, last := rows[..|rows| - 1], rows[|rows| - 1];
    assert rows == init + [last];
    forall m ensures m in Elems(init) <==> m in pool - {last} { assert m in pool <==> m in Elems(rows); }
  }

  /** When no two messages share a date, a row has one answer: batched and row by row agree. */
  lemma {:induction false} DetailIsUnique(d: Details, e: Details, db: set<Mail>, m: Mail)
    requires IsDetail(d, db, m) && IsDetail(e, db, m)
    requires DistinctDates(db)
    ensures d == e
  {
    if m.thread.Some? && Live(db, Key(m.thread.value, m.folder)) != {} {
      var live := Live(db, Key(m.thread.value, m.folder));
      var a :| IsListing(a, live) && d.participants == Three(Senders(a));
      var b :| IsListing(b, live) && e.participants == Three(Senders(b));
      ListingIsUnique(a, b, live);
    }
  }

  /** Who a row shows: up to three different people, and everyone when there are no more. */
  lemma {:induction false} SendersAre(rows: seq<Mail>)
    ensures forall i, j :: 0 <= i < j < |Senders(rows)| ==> Senders(rows)[i] != Senders(rows)[j]
    ensures forall a :: a in Senders(rows) <==> exists m :: m in rows && m.from == a
    ensures rows != [] ==> Senders(rows) != [] && Senders(rows)[0] == rows[0].from
  {
    if rows != [] {
      var init, last := rows[..|rows| - 1], rows[|rows| - 1];
      SendersAre(init);
      assert rows == init + [last];
    }
  }
}
