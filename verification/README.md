# Mailquill: sync protocols, list queries, codecs and the rules compiler, in Dafny

Mailquill keeps local copies of remote mailboxes and address books in SQLite. This project
models the parts of its Rust backend where a mistake loses or invents data, and proves what
they keep. `dafny verify dfyconfig.toml` checks everything.

## How it is modelled

**Mail folder sync** (`Mailbox`, `FlagReconcile`, `UidWalk`, `SyncState`, `FlagSync`, `MailWalk`,
`FolderSync`, `MailTheorems`). `FolderSync.Folder` is one folder of one account: rows, `last_uid`,
UIDVALIDITY, the outbox `pending_flag_ops`, and the server's mailbox. Every await and every commit is a step
that consumes one `Turn` of a script. A turn may cut the sync there (the 30-minute timeout, an error) or let
the server add, expunge and re-flag mail and the user edit and delete, any number of times. A method's
postcondition therefore holds at whatever committed state the script stops it, and `Run` ranges over every
sequence of cycles and cuts. `others` says who acts meanwhile: everyone, the server only, or (`MailOnly`) the
server by adding and expunging mail only, with fetches answered in full; `willing` says that the server takes
every push. `at` counts the awaits, and every method states how far it went along the script (`Stepped`): what
it does not complete was cut, or the script ran out, and it takes no more awaits than its size allows
(`SyncAwaits`, `CycleAwaits`). Where it is cut it states what it may have left: the entries still to push, how
far the reconciliation came (`FlushingFrom`, `PassedFrom`), and that the walk touched nothing below its start
and notified only about new mail that the server showed unread (`InroadsFrom`). An invariant travels through
the methods as a ghost function value (`Stable`, `Keeps`), so each method only shows that its own commits keep
it; what a method achieves is a function value too (`PassedFrom(a, …)(b)`: from `a` to `b`).

The state carries histories: when the server last showed flags it no longer shows (`until`), how often and to
what the user set a flag (`edits`, `chosen`), what the user hid (`hid`), which messages were notified about
(recorded before the await that sends, which may be cut): from cursor 0 nobody, above it exactly the fetched
messages without a row before that are unseen and not deleted (`Announced`). They make "meanwhile" precise:
every answer is the server's (`Told`: it showed those flags on the way) and leaves out no message that was
there all along (`InFull`, `Complete`); a queue entry counts as edited only if the user edited it since
(`EditedSince`); and at every committed state no row is hidden unless the user hid it, the server marked the
message deleted or no longer has it (`Excused`), and every flag is one the server showed or the user chose
(`Grounded`).

The code does less than its comments say; each point has its exact statement:

- After a UIDVALIDITY change the stored cursor is NULL, but the call goes on with the old cursor
  it had read, and starts its walk above it. `Folder.base` records where an epoch's walk began:
  coverage is proved from `base` on, `CoverageExact` says when that is everything, and
  `EpochChangeSkips` shows what is skipped.
- The reconciliation reads the pending flags once, before its fetches. Edits made after that are
  recorded in `raced` and excepted from "pending edits are held"; `RacedEditFate` says exactly
  when such an edit survives, for every chunk, answer and pair of rows as read and as met at the
  commit; `EditDuringFetch` and `EditAfterRead` are its two timings. All other flags end as in the
  naive pass over the server's answers, and no other row is hidden or spared, whatever server and user do
  meanwhile (`Passed`, in the contract of `ReconcileFlags`).
- An edit of a queued flag keeps the entry's id (`ON CONFLICT … DO UPDATE`), so settling an older
  push, accepted or refused for the tenth time, drops it: `FlushForgetsNewerEdit` says exactly when,
  over everything server and user do between read and settling.
- A cut between a metadata transaction and `reapply_pending_flags` can leave rows above the cursor
  without their pending value; `CutBeforeReapply` says exactly when. Up to the cursor they are held.
- When an answer names a UID twice the diffed write need not be the naive pass: `DiffIsNaive` says
  exactly for which answers it is, `RepeatedUidBreaksDiff` is an instance.
- The outbox outlives a UIDVALIDITY change, and its entries then decide about other messages that
  have their UIDs: `OldEntryDecides`, `OldEntryIsPushed`.

**Contact sync** (`ContactStore`, `ContactReplay`, `ContactFallback`). The remote account is a log of changes,
a cursor is a position in it, and `ContactStore.Source` is driven by a script of answers and database
failures. The methods are proved against functions (`BookRun`, `Attempt`, `SyncOnce`) that also record which
requests were made with which cursor and which row operations were committed; the theorems are about those
functions. Providers are assumed honest: each reported state was the contact's at some moment since the cursor
(without one, since the book was asked), and a completed answer gives the final state of what changed. Which
answers are read, and how the last one decides the outcome, is stated on the script alone (`ContactFallback`).
A contact id belongs to one book. For full runs that finish, every known book is assumed to be listed again.

- After every history of runs and mutations, failing at any page, no remote contact is missing or
  outdated in a book with a cursor (`Replay`). Nor is a row too many, as long as `ExactAfter` says so:
  incremental runs add none, whatever fails; a full run that succeeds clears all but unnoticed
  leftovers, whatever was there before; a full run that fails must have completed no book with a stale
  row. For each full run this is an if and only if (`AttemptTracks`).
- Incremental runs stamp rows with the next generation and do not raise it, so a later full run can
  spare stale rows: `FullSyncExactIff` and `FullRunTracks` say exactly when,
  `ReusedStampLeavesContact` is an instance.
- A full run stores each book's new cursor with its last page, before the sweep. If it is cut in
  between, a contact deleted remotely stays for good: `EnumerationAlone` says exactly when for one
  book, `FailedFullTracks` for a whole run, `AbandonedRunLeavesContact` is an instance.

**List queries** (`ListPages`, `LiveCounts`, `Enrichment`). A query's answer is any sequence the
SQL allows, ties in any order; tables are sets and maps. The three SQLite triggers become methods of
`LiveCounts.Store`. The two queries of the thread enrichment are taken to see one snapshot, which may be
newer than the page's rows. Thread sizes are per folder, as the query groups, although its comment
(backend/db/src/queries.rs:323-325) speaks of messages that live in several.

**Codecs and compiler** (`Escapes`, `Utf7`, `SieveLanguage`, `SieveCompiler`). Replacement chains
are modelled as such (`str::replace`). The modified UTF-7 decoder is measured against an encoder
written from section 5.1.3 of RFC 3501 and section 4 of RFC 4648. Compiled Sieve scripts are lexed,
parsed and evaluated by a separate model of RFC 5228; a line feed or carriage return alone counts as a
line end there.

- A CDATA section is decoded like escaped text, so what it says literally can change: `CdataRoundTrip` says
  exactly when.
- `body` tests are emitted but `body` is not in the `require` line: `CompiledIsValid` shows that the
  script is valid exactly when no rule uses one. `CompiledMeans` assumes the extensions available.
- The lines of a rule's name are read as nothing if and only if each after the first is blank or a comment
  (`NameReads`); all theorems about scripts hold for such names. `SecondLineBreaks` shows one that is not.
- `setflag` replaces (section 3.1 of RFC 5232), so a rule that asks for both flags keeps one:
  `FlagsSurvive`.

All lemmas carry `{:induction false}`; inductions are spelled out.

## Model

| member | source | states |
|---|---|---|
| Mailbox.ReactAllStep | backend/api/src/routes/messages.rs:814-830 | Whatever happens while the sync waits: UIDs of arrivals only grow, what the server showed stays on record, only the user hides rows, and a flag is either untouched or row and outbox both hold the user's last edit with zero attempts |
| Mailbox.SmoothIsDone | backend/mail-sync/src/sync.rs:171-182 | Work that takes at most `n` awaits gets done wherever `n` awaits in a row go on |
| Mailbox.StepsOn | backend/mail-sync/src/sync.rs:171-182 | Work after work: what is not done was cut at its last await or the script ran out, and the awaits add up |
| FlagReconcile.DiffIsNaive | backend/mail-sync/src/sync.rs:1399-1429 | For any answer: writing only changed flags and hiding expunged rows equals overwriting every returned row's non-pending flags, OR-ing deletion in and hiding what was not returned, if and only if repeated pairs of a known UID fit its last one |
| FlagReconcile.DistinctDiffIsNaive | backend/mail-sync/src/sync.rs:1399-1429 | … and always when no UID is answered twice |
| FlagReconcile.WriteAt | backend/mail-sync/src/sync.rs:1364-1376 | What the write loop leaves in one row, whatever changed since the rows were read |
| FlagReconcile.NaivePassesJoin | backend/mail-sync/src/sync.rs:1326-1390 | Passes over adjacent chunks equal one pass over the whole range |
| FlagReconcile.RepeatedUidBreaksDiff | backend/mail-sync/src/sync.rs:1411-1429 | An instance of a repeated UID on which the diff and the naive pass differ |
| UidWalk.ChunkEnd | backend/mail-sync/src/sync.rs:736-739 | A window's end stays in a u32 and within `highest`, and windows are full except the last |
| UidWalk.WindowsPartition | backend/mail-sync/src/sync.rs:736-938 | The windows cover each UID of start..=highest, overlap nowhere and reach nowhere else, even at 2^32-1 |
| SyncState.WalkWindow | backend/mail-sync/src/sync.rs:678-739 | A walk takes its UIDs 200 at a time from the Gmail API and 500 from every other provider, the last time fewer |
| SyncState.ReconcileWindow | backend/mail-sync/src/sync.rs:1326-1334 | The reconciliation takes its UIDs by the thousand, from 1, the last time fewer |
| UidWalk.GapFreeIsGreatest | backend/mail-sync/src/sync.rs:1120-1133 | The reference cursor is the greatest gap-free extension: all stored up to it, the next one missing |
| UidWalk.ContiguousUid | backend/mail-sync/src/sync.rs:1120-1133 | The loop finds that extension from a window's ascending UIDs, and stays put at a gap before the window |
| UidWalk.WindowsAgreeWithOneCall | backend/mail-sync/src/sync.rs:888-901 | Window by window the API cursor ends where one call over all stored UIDs would put it |
| FlagSync.OutboxDrains | backend/mail-sync/src/sync.rs:1233-1316 | Along any sequence of completed flushes an entry only gains attempts and never has ten, so after ten flushes the outbox is empty, whatever the server answers |
| FlagSync.TenthRefusalDrops | backend/mail-sync/src/sync.rs:1233-1313 | Nine refused pushes leave a fresh entry queued with nine attempts, the tenth drops it; no other entry moves |
| FlagSync.PushKeepsEntries | backend/mail-sync/src/sync.rs:1290-1313 | Both waits of one push and its bookkeeping leave every other entry as it was, or edited meanwhile |
| FlagSync.PushTries | backend/mail-sync/src/sync.rs:1290-1313 | Whatever server and user do around a push: unless edited meanwhile, the entry has one more attempt, or is gone with its value shown by the server, its message gone, or its budget spent |
| FlagSync.FlushedOnceMore | backend/mail-sync/src/sync.rs:1233-1316 | One more completed flush, with any edits and answers: an entry the user did not touch has one more attempt, below ten, or is gone |
| FlagSync.FlushCut | backend/mail-sync/src/sync.rs:1281-1316 | A push that is cut, before it or after it, leaves its entry and all not yet pushed as they were or edited, the others as tried |
| FlagSync.ChunkIsPassed | backend/mail-sync/src/sync.rs:1334-1389 | With server and user acting at every await of a chunk: the answer is the server's, each flag ends as in the naive pass or was edited, and a row ends hidden as in the pass or by the user |
| FlagSync.PassedTrans | backend/mail-sync/src/sync.rs:1326-1390 | Two such chunks are one, with the answers joined |
| FlagSync.PassedWait | backend/mail-sync/src/sync.rs:1326-1390 | A reconciliation that is cut in a later chunk is the pass over the chunks before it |
| FlagSync.DiffIsKept | backend/mail-sync/src/sync.rs:1362-1384 | A reconciliation's transaction, computed from rows as read and met by others, keeps the pending edits it knew of, hides nothing without excuse and invents no flag |
| FlagSync.DiffIsExcused | backend/mail-sync/src/sync.rs:1362-1384 | … the part about hiding: only what the user hid, the server marked deleted or no longer has |
| FlagSync.DiffIsGrounded | backend/mail-sync/src/sync.rs:1362-1384 | … the part about flags: each is one the server showed for the message or the user chose |
| MailWalk.ImportIsWindow | backend/mail-sync/src/sync.rs:998-1078 | Batched upserts followed by the two restores give each fetched message the server's flags, or the pending value, and never un-hide |
| MailWalk.WindowsJoin | backend/mail-sync/src/sync.rs:736-938 | Importing adjacent windows equals importing their union |
| MailWalk.WalkedFurther | backend/mail-sync/src/sync.rs:736-938 | One more window, with server and user acting meanwhile: the fetches joined are the server's, over IMAP they lack no message of the windows, rows show them where nothing is queued, other rows keep their flags or are edited |
| MailWalk.ToNotifyIs | backend/mail-sync/src/sync.rs:849-868 | A fetched message is notified about if and only if it had no row, is unseen and not deleted, and the sync notifies |
| MailWalk.AnnouncedMore | backend/mail-sync/src/sync.rs:849-868 | Windows one after another notify about exactly the new unread messages of all of them, judged by the rows before the first |
| MailWalk.SyncAnnounces | backend/mail-sync/src/sync.rs:686-868 | A completed sync notifies about exactly the fetched messages that had no row before it, are unseen and not deleted, if the folder allows it and the old cursor was above 0, and about none otherwise |
| MailWalk.InroadsTrans | backend/mail-sync/src/sync.rs:736-938 | Pieces of windows, each cut anywhere, add up: outside the range rows keep their flags or are edited, and only new mail was notified about |
| MailWalk.InroadsNotify | backend/mail-sync/src/sync.rs:849-868 | Wherever the notifications of a window are cut, those sent were about messages without a row before that the server showed unseen and not deleted |
| MailWalk.BackfillIsQuiet | backend/mail-sync/src/sync.rs:686-689 | From cursor 0 a sync notifies nobody, wherever it is cut |
| MailWalk.AtMostOneEach | backend/mail-sync/src/sync.rs:738-748 | A window of fetched messages holds at most one for each UID, so a walk takes at most seven awaits for each |
| MailWalk.CursorAdvances | backend/mail-sync/src/sync.rs:888-932 | The new cursor never falls, stays within the window, and keeps coverage and pending edits for everything up to it |
| MailWalk.SyncedAlone | backend/mail-sync/src/sync.rs:621-940 | When at most mail comes and goes, the parts of a sync add up to its exact final rows and cursor |
| SyncState.StoredUids | backend/mail-sync/src/sync.rs:891-899 | The query lists exactly the stored UIDs of a window in ascending order |
| SyncState.Highest | backend/mail-sync/src/sync.rs:709-716 | The highest UID on the server, if any |
| FolderSync.Folder.constructor | backend/mail-sync/src/sync.rs:632-642 | A fresh folder satisfies everything a run keeps |
| FolderSync.Folder.Await | backend/mail-sync/src/sync.rs:171-182 | An await cuts, or lets those act that may: without the user only the server moves, in `MailOnly` no message shows other flags than its own; it consumes one turn, and cuts only where the script does or ends |
| FolderSync.Folder.PushOne | backend/mail-sync/src/sync.rs:1290-1313 | Whatever server and user do during the push: the server met it, the entry is gone or has one more attempt than it was read with, gone if accepted and otherwise only for a spent budget; others are as they were or edited meanwhile; not done only if one of its two awaits was cut |
| FolderSync.Folder.FlushPendingFlags | backend/mail-sync/src/sync.rs:1281-1316 | Each entry read was edited meanwhile, has one more attempt, or is gone with its value delivered or its budget spent, but those in `left`, which is empty unless an await was cut and are as they were or edited; without edits exactly so; with a willing server all are gone; when only mail comes and goes the server holds the user's values and changed in nothing else |
| FolderSync.Folder.FlushTenTimes | backend/mail-sync/src/sync.rs:1233-1316 | After ten flushes, completed unless cut, only entries that the user edited meanwhile are left, whatever the server answers |
| FolderSync.Folder.ReconcileFlags | backend/mail-sync/src/sync.rs:1318-1390 | The chunked loop is one naive pass over 1..=up_to, or 1..=`passed` if it was cut, with answers that are the server's and lack no message that was there all along; only edits made meanwhile and rows the user hid differ from it; every property that waits and commits keep is kept |
| FolderSync.Folder.ReconcileChunk | backend/mail-sync/src/sync.rs:1334-1389 | One chunk, done unless cut at one of three awaits: the answer is the server's mailbox in the state it was fetched from, reached from the start by one wait, and what follows is the naive pass up to edits and hiding meanwhile, exactly the pass without them; cut, it is a wait |
| FolderSync.Folder.WriteChunk | backend/mail-sync/src/sync.rs:1337-1384 | The differences to the rows as read are committed together to the rows as they are by then, or nothing is |
| FolderSync.Folder.PersistChunk | backend/mail-sync/src/sync.rs:949-1078 | On return every fetched message has a row that shows it wherever nothing is queued, other rows are untouched or edited, the window holds every pending edit, newness is right; cut, rows outside the window are untouched or edited and all invariants hold |
| FolderSync.Folder.WriteBatches | backend/mail-sync/src/sync.rs:996-1078 | The messages of a window are stored in order by transactions of a hundred, the last of fewer; cut between two, those before it stay |
| FolderSync.Folder.ReapplyPendingFlags | backend/mail-sync/src/sync.rs:1081-1118 | Afterwards the rows of the window hold the pending values of both flags |
| FolderSync.Folder.NotifyChunk | backend/mail-sync/src/sync.rs:849-868 | Exactly the new, unseen, live messages of a window are notified where `on`, each once, after their commit; cut, a prefix of them, the one whose await is cut included |
| FolderSync.Folder.Fetch | backend/mail-sync/src/sync.rs:738-748 | A fetch lists the server's window as it then is; over IMAP all of it, API providers may leave messages out |
| FolderSync.Folder.MoveCursor | backend/mail-sync/src/sync.rs:879-925 | The cursor goes to the window's end over IMAP, to the gap-free extension otherwise, in one commit |
| FolderSync.Folder.Walk | backend/mail-sync/src/sync.rs:686-938 | The walk imports what the server showed of start..=highest, over IMAP all of it, notifies about exactly the new unread mail in it if the folder allows it and the old cursor is not 0, and leaves the cursor where one call over the whole range would; whatever server and user do meanwhile; it completes unless cut |
| FolderSync.Folder.WalkNew | backend/mail-sync/src/sync.rs:707-938 | The walk takes place whenever the server has mail above the old cursor, up to the highest UID found; nothing else keeps it from completing than a cut |
| FolderSync.Folder.SettleEpoch | backend/mail-sync/src/sync.rs:644-670 | On a UIDVALIDITY change rows are purged and the stored cursor forgotten, while the caller's copy stays; otherwise flags are as they were or edited; done unless one of two awaits was cut |
| FolderSync.Folder.PurgeFolder | backend/mail-sync/src/sync.rs:644-663 | The purge leaves no row; cut before the new epoch is stored it keeps the old one |
| FolderSync.Folder.SyncFolder | backend/mail-sync/src/sync.rs:621-940 | From any committed state, cut anywhere: coverage, held edits, single notifications, no row un-hidden, none hidden without excuse, no flag invented; completed unless cut, and then, whoever acts meanwhile: one naive pass and one walk over answers that are the server's, and exactly the new unread mail above the old cursor notified about; cut, how far the pass came, rows above the old cursor alone imported into, and notifications about new unread mail only; none at all from cursor 0 |
| FolderSync.Folder.Cycle | backend/mail-sync/src/sync.rs:244-365 | Flush then sync, with the statements of both; completed unless one of a bounded number of awaits was cut |
| FolderSync.Folder.CycleAlone | backend/mail-sync/src/sync.rs:244-365 | A cycle during which mail comes and goes, with every push accepted, completes wherever enough awaits in a row go on, and then every message still on the server, up to the highest UID found, has a row that agrees with it on every flag, on the user's value where one was queued; what the server had dropped is hidden, the outbox is empty, and no message that was there is above the highest |
| FolderSync.Folder.Renumber | backend/mail-sync/src/sync.rs:644-663 | A new UIDVALIDITY on the server invalidates the promises of the old epoch and breaks no invariant |
| FolderSync.Folder.Run | backend/mail-sync/src/sync.rs:171-182 | Over every run of cycles, cuts, arrivals, expunges, edits and UIDVALIDITY changes the invariant holds; in an epoch whose walk began at UID 1 every server UID up to the cursor has a row; no row is hidden unless the user hid it, the server marked it deleted or lacks it; no flag is invented; within one epoch rows are only added and hidden rows stay hidden; every cycle of the plan takes place, with what a cycle states |
| MailTheorems.CoverageExact | backend/mail-sync/src/sync.rs:684-938 | Every server UID up to the cursor has a row if and only if nothing lies below the first UID this epoch's walk looked at; without a UIDVALIDITY change always |
| MailTheorems.EpochChangeSkips | backend/mail-sync/src/sync.rs:641-689 | After a UIDVALIDITY change the same call skips all mail up to the old cursor and stores a cursor beyond it |
| MailTheorems.ConvergedRow | backend/mail-sync/src/sync.rs:694-938 | One message still on the server after a cycle in which at most mail came and went: it has a row with the server's flags where none is pending, hidden exactly if the server says so or it was hidden before |
| MailTheorems.Converges | backend/mail-sync/src/sync.rs:694-938 | After a cycle in which at most mail came and went every message still on the server, up to the highest UID looked for, has a row that mirrors the server or the pending edit, and rows absent at the start or at the fetch are hidden |
| MailTheorems.PendingConverges | backend/mail-sync/src/sync.rs:1005-1118 | … the part about pending edits and vanished messages |
| MailTheorems.PushedAndConverged | backend/mail-sync/src/sync.rs:244-248 | With every push accepted, rows and server agree on every flag, on the user's value where one was queued |
| MailTheorems.AloneConverges | backend/mail-sync/src/sync.rs:244-938 | … from the invariant of a folder and the contracts of its flush and its sync |
| MailTheorems.RacedEditFate | backend/mail-sync/src/sync.rs:1330-1384 | For any rows as read and as met at the commit, any distinct answer and window: a flag survives the commit if and only if the answer does not name the row, changes nothing in it as read, or agrees |
| MailTheorems.EditAfterRead | backend/mail-sync/src/sync.rs:1337-1384 | An edit between read and commit, of a flag not pending at the snapshot |
| MailTheorems.EditDuringFetch | backend/mail-sync/src/sync.rs:1330-1352 | An edit during the fetch survives if and only if the answer does not name the message or agrees |
| MailTheorems.FlushForgetsNewerEdit | backend/mail-sync/src/sync.rs:1289-1313 | For all events during a push: the user's newest value is forgotten if and only if the push is accepted or the tenth refused one and the value differs from the one read |
| MailTheorems.EditInFlightFate | backend/mail-sync/src/sync.rs:1291-1311 | The same for any state at the moment of settling, and what a surviving entry holds |
| MailTheorems.CutBeforeReapply | backend/mail-sync/src/sync.rs:998-1073 | After any import without the restores the window holds its pending edits if and only if each queued value is the fetched one, or the row's own where nothing was fetched |
| MailTheorems.OldEntryDecides | backend/mail-sync/src/sync.rs:649-663 | After a UIDVALIDITY change a new message shows its own flag if and only if no old entry has its UID, or the entry agrees |
| MailTheorems.OldEntryIsPushed | backend/mail-sync/src/sync.rs:248-655 | … and with every push accepted the old entry is pushed to that message |
| ContactStore.PlayAppend | backend/contact-sync/src/repository.rs:140-177 | Row operations of successive pages compose |
| ContactStore.Source.ApplyChangePage | backend/contact-sync/src/repository.rs:140-177 | A page commits whole or not at all; it is refused exactly for both cursors at once, a foreign contact, or a tombstone without a book; the cursor is stored with its own final page |
| ContactStore.Source.UpsertContacts | backend/contact-sync/src/repository.rs:153-161 | Upserts in order, stamped, up to the first foreign one |
| ContactStore.Source.DeleteContacts | backend/contact-sync/src/repository.rs:388-406 | Tombstones reach only rows of the page's own book |
| ContactStore.Source.SyncBook | backend/contact-sync/src/orchestration.rs:336-369 | The page loop ends in the state of `BookRun`: after the first final page, or the first failure, whose kind is passed on |
| ContactReplay.RequestsFollow | backend/contact-sync/src/orchestration.rs:344-347 | All requests for a book carry the same cursor, and each the continuation of the page before it |
| ContactReplay.RequestsOfAttempt | backend/contact-sync/src/orchestration.rs:307-322 | Every request of a run asks a listed book, without a cursor in full mode and from the stored one otherwise |
| ContactFallback.BookOutcome | backend/contact-sync/src/orchestration.rs:336-369 | A book's run reads answers up to the first that is not a committed page followed by another: it is done if and only if that one is a committable final page with a cursor, and fails for an expired cursor if and only if that one says so |
| ContactFallback.BooksOutcome | backend/contact-sync/src/orchestration.rs:307-322 | A run over books fails for an expired cursor if and only if the last answer it read says so |
| ContactFallback.AttemptOutcome | backend/contact-sync/src/orchestration.rs:257-334 | An attempt reads the list, an answer to each request and one more if all books are complete; it fails for an expired cursor if and only if the last answer says so and was to the list or a request, and is done if and only if the sweep was |
| ContactFallback.ExpiredFallsBack | backend/contact-sync/src/orchestration.rs:66-75 | After an expired cursor, and only then, the account lists its books again, if there is an answer left, and no later request of that sync carries a cursor |
| ContactFallback.CursorsAreUsed | backend/contact-sync/src/orchestration.rs:279-322 | Requests carry cursors if and only if the run may use them and every listed book has one and reports changes since |
| ContactStore.Source.BookCursors | backend/contact-sync/src/repository.rs:488-502 | The stored cursors of the listed books, none for unknown ones |
| ContactStore.Source.SyncSourceAttempt | backend/contact-sync/src/orchestration.rs:257-334 | Full exactly when asked, or a listed book has no cursor or no change reporting; all books are then asked without cursor |
| ContactStore.Source.FinishFullSync | backend/contact-sync/src/repository.rs:408-439 | Rows and books with another stamp go, contacts with their book, and the generation is raised |
| ContactStore.Source.FinishBookDiscovery | backend/contact-sync/src/repository.rs:475-486 | Books with another stamp go with their contacts, the generation stays |
| ContactStore.Source.SyncSourceOnce | backend/contact-sync/src/orchestration.rs:57-77 | An expired cursor, and nothing else, leads to a second attempt in full mode |
| ContactStore.Source.PersistMutation | backend/contact-sync/src/orchestration.rs:226-255 | A mutation is written locally at the current generation, or else synced in |
| ContactReplay.BookRunRows | backend/contact-sync/src/orchestration.rs:336-369 | A book's run changes contacts by its committed operations only, all on that book |
| ContactReplay.BookRunSteps | backend/contact-sync/src/repository.rs:163-217 | A book's cursor changes only in a run that completes, with the commit of its final page; other books are untouched |
| ContactReplay.OpKeeps | backend/contact-sync/src/repository.rs:219-300 | An honest operation on any book leaves every tracked contact tracked |
| ContactReplay.SaidIs | backend/contact-sync/src/repository.rs:153-164 | After a book's operations a row is what was said about it last |
| ContactReplay.PlayIs | backend/contact-sync/src/repository.rs:219-406 | Operations leave the rows they write on an empty table plus the rows they never decided about |
| ContactReplay.CompletedTracks | backend/contact-sync/src/orchestration.rs:345-369 | A completed answer makes the book's rows the remote contacts at the new cursor |
| ContactReplay.BooksKeep | backend/contact-sync/src/orchestration.rs:307-322 | A run over all books, failing at any page: asked from their cursors they stay equal to the remote; enumerated they do if and only if no row of a completed book is stale |
| ContactReplay.UnsweptTracks | backend/contact-sync/src/orchestration.rs:307-322 | … the part about full runs |
| ContactReplay.FailedFullTracks | backend/contact-sync/src/orchestration.rs:307-326 | A full run that fails, at any page, misses nothing, and leaves nothing too many if and only if it completed no book with a stale row |
| ContactReplay.EnumerationIsRemote | backend/contact-sync/src/orchestration.rs:307-322 | What a full run writes about a book it completes is exactly the remote contacts at the new cursor, whatever becomes of the run |
| ContactReplay.FullSyncExact | backend/contact-sync/src/repository.rs:408-439 | After a successful full run the contacts are what the run wrote and did not take back, and the leftover rows that already had its stamp |
| ContactReplay.FullSyncExactIff | backend/contact-sync/src/repository.rs:408-439 | Exactly what the run wrote, if and only if there is no such leftover row |
| ContactReplay.FailingRunKeeps | backend/contact-sync/src/orchestration.rs:307-333 | A failing run removes no contact except by tombstone, forgets no book, leaves the generation |
| ContactReplay.FullRunTracks | backend/contact-sync/src/orchestration.rs:323-326 | A successful full run over all known books misses nothing, and equals the remote if and only if no leftover row goes unnoticed |
| ContactReplay.AttemptTracks | backend/contact-sync/src/orchestration.rs:257-334 | Whatever fails, a run misses nothing, and leaves nothing too many as long as `StillExact` says so; for a full run if and only if |
| ContactReplay.DiscoveryTracks | backend/contact-sync/src/repository.rs:475-486 | Dropping undiscovered books keeps the others tracked |
| ContactReplay.IncrementalReplay | backend/contact-sync/src/orchestration.rs:307-332 | After a successful incremental run every listed book has a cursor and its rows are the remote contacts; the generation is not raised |
| ContactReplay.MutationTracks | backend/contact-sync/src/orchestration.rs:226-242 | A local write of what was changed remotely keeps the remote tracked |
| ContactReplay.Replay | backend/contact-sync/src/orchestration.rs:57-77 | Over every history of syncs, fallbacks and mutations, failing anywhere: no remote contact is missing or outdated in a cursored book, and rows are exactly the remote contacts as long as `ExactAfter` says so |
| ContactReplay.BooksKept | backend/contact-sync/src/repository.rs:475-486 | A finished run keeps exactly the listed books and those already stamped alike |
| ContactReplay.EnumerationAlone | backend/contact-sync/src/repository.rs:165-176 | Before the sweep an enumerated book equals the remote if and only if no unmentioned row is stale |
| ContactReplay.ReusedStampLeavesContact | backend/contact-sync/src/orchestration.rs:279-332 | An instance: a full run after an incremental one leaves a contact that is gone remotely |
| ContactReplay.AbandonedRunLeavesContact | backend/contact-sync/src/orchestration.rs:307-327 | An instance: a full run cut before its sweep, then a successful run, leave a contact that is gone remotely |
| ListPages.MergeRefinesFlat | backend/db/src/queries.rs:153-183 | Newest `limit` per folder, then newest `limit` of those, answers the flat query over all folders, however ties fall |
| ListPages.MergeDominates | backend/db/src/queries.rs:85-89 | No row the merge dropped is newer than one it kept |
| ListPages.ViewTotal | backend/db/src/queries.rs:207-256 | Summed per-folder counts equal the number of eligible rows |
| ListPages.FlatIsTheView | backend/db/src/queries.rs:100-116 | A row is eligible if and only if it is in a listed folder, not deleted, unread when asked, and older than the cursor; the cursor only cuts the view off |
| ListPages.UnifiedPage | backend/db/src/queries.rs:153-197 | The page is the newest rows of the view below the cursor, each of them in a listed folder, not deleted, unread when asked, older than the cursor, with the size of the whole view; without next cursor nothing is left, with one what is left is at most as new |
| ListPages.FetchedFollow | backend/db/src/queries.rs:186-196 | Pages fetched along the cursors `unified_page` gives are a pagination of one view |
| ListPages.PaginationEnds | backend/db/src/queries.rs:186-196 | Following the cursor ends after at most one page per row and one |
| ListPages.PaginationIsOrdered | backend/db/src/queries.rs:108-112 | No row is listed twice, and dates never increase |
| ListPages.MissedAreTiedOut | backend/db/src/queries.rs:108-112 | A row is missed if and only if it ties with the last row of a full page that does not show it |
| ListPages.DistinctDatesListAll | backend/db/src/queries.rs:108-112 | With distinct dates every row is listed exactly once |
| ListPages.ViewIsListed | backend/db/src/queries.rs:108-196 | Fetched to the end they show each row of the view once, newest first, except exactly the rows tied with the last row of a full page that does not show them |
| LiveCounts.Recount | backend/db/migrations/mail/0038_folder_live_message_count.sql:16-49 | Replacing one message moves each folder's recount by that message's own contribution |
| LiveCounts.ClampNeverFires | backend/db/migrations/mail/0038_folder_live_message_count.sql:25-43 | A coherent counter is never below what the triggers take off |
| LiveCounts.SumIsRecount | backend/db/src/queries.rs:25-26 | Counters summed over any folders equal the live messages in them |
| LiveCounts.SyncedCountIsRecount | backend/db/src/queries.rs:25-26 | The progress number equals the live messages of the account's enabled folders |
| LiveCounts.Store.InsertMessage | backend/db/migrations/mail/0038_folder_live_message_count.sql:16-23 | The insert trigger keeps every counter equal to a recount |
| LiveCounts.Store.DeleteMessage | backend/db/migrations/mail/0038_folder_live_message_count.sql:25-32 | The delete trigger keeps every counter equal to a recount |
| LiveCounts.Store.UpdateMessage | backend/db/migrations/mail/0038_folder_live_message_count.sql:34-49 | The folder-and-visibility trigger keeps every counter equal to a recount, in both folders |
| LiveCounts.Store.DropFolder | backend/db/migrations/mail/0004_messages.sql:4 | Deleting a folder with its messages keeps the other counters |
| LiveCounts.Store.Execute | backend/db/migrations/mail/0038_folder_live_message_count.sql:16-49 | A statement is carried out as on tables without triggers, and every counter stays equal to a recount |
| LiveCounts.Store.Run | backend/db/migrations/mail/0038_folder_live_message_count.sql:16-49 | After any sequence of statements, all carried out, counters and progress sums equal recounts |
| Enrichment.ThreadIds | backend/db/src/queries.rs:304-310 | The distinct thread ids of the page |
| Enrichment.CountsByKey | backend/db/src/queries.rs:326-335 | The map holds each group's size and unread count |
| Enrichment.ParticipantsByKey | backend/db/src/queries.rs:344-349 | The capped accumulation gives each conversation the first three distinct senders of its own rows |
| Enrichment.ConversationIsListed | backend/db/src/queries.rs:337-344 | One conversation's rows within the batched listing are a dated listing of that conversation |
| Enrichment.EnrichThreads | backend/db/src/queries.rs:303-413 | Every row gets what a lookup of its own conversation would give: distinct identities, unread count, first three senders by date; without a thread or live messages in it one message, its sender, and unread 1 unless it is read |
| Enrichment.DetailIsUnique | backend/db/src/queries.rs:373-389 | With distinct dates that answer is unique, so batched and row by row agree |
| Enrichment.SendersAre | backend/db/src/queries.rs:344-349 | Senders are distinct, complete, and begin with the oldest message's |
| Escapes.EscapesAgree | backend/contact-sync/src/lib.rs:1402-1408 | Both escape chains equal escaping character by character |
| Escapes.UnescapeStage | backend/contact-sync/src/lib.rs:1410-1417 | What each replacement of the unescape chain takes back, including the half escapes it catches |
| Escapes.VcardRoundTrip | backend/contact-sync/src/lib.rs:1402-1417 | vCard unescape after escape is the identity if and only if no backslash is directly followed by `n` or `N` |
| Escapes.VcardRoundTripIs | backend/contact-sync/src/lib.rs:1402-1417 | What it is on every string |
| Escapes.IcalRoundTrip | backend/calendar-sync/src/lib.rs:921-926 | The same for iCalendar, with `n` only |
| Escapes.IcalRoundTripIs | backend/calendar-sync/src/lib.rs:1200-1205 | What it is on every string |
| Escapes.XmlRoundTrip | backend/contact-sync/src/adapters.rs:1250-1287 | Decoding the content of an element undoes `xml_escape` for every string, before the trim |
| Escapes.XmlRoundTripInCdata | backend/contact-sync/src/adapters.rs:1250-1287 | … and also within a CDATA section |
| Escapes.XmlEscapeIsSafe | backend/contact-sync/src/adapters.rs:1282-1287 | Escaped text holds no angle bracket |
| Escapes.CdataRoundTrip | backend/contact-sync/src/adapters.rs:1250-1262 | The content of a CDATA section is read as written if and only if none of the three entities occurs in it |
| Escapes.NotCdata | backend/contact-sync/src/adapters.rs:1250-1262 | What is not a whole CDATA section is decoded as it is |
| Utf7.Decode | backend/api/src/imap_utf7.rs:11-44 | The loop computes the decoding by fronts |
| Utf7.RunDecodesIffEncoded | backend/api/src/imap_utf7.rs:47-61 | A run decodes to `t` if and only if it is the encoding of `t`, up to `/` for `,` |
| Utf7.DecodedAtRun | backend/api/src/imap_utf7.rs:16-30 | A terminated run is replaced on its own, whatever follows |
| Utf7.DecodedAfterPlain | backend/api/src/imap_utf7.rs:37-41 | Characters outside runs pass through |
| Utf7.RoundTrip | backend/api/src/imap_utf7.rs:11-61 | Decoding the canonical encoding of any Unicode string returns it |
| Utf7.PlainIsKept | backend/api/src/imap_utf7.rs:37-41 | A name without `&` is unchanged |
| Utf7.DecodedAfter | backend/api/src/imap_utf7.rs:15-43 | After any prefix of plain text and terminated runs decoding starts afresh |
| Utf7.NameSplits | backend/api/src/imap_utf7.rs:15-43 | Every name is such a prefix, and possibly one unterminated run |
| Utf7.UnterminatedIsKept | backend/api/src/imap_utf7.rs:31-35 | An unterminated run is kept verbatim, after any such prefix |
| Utf7.UndecodableIsKept | backend/api/src/imap_utf7.rs:26-28 | A run that encodes nothing is kept verbatim, after any such prefix and before anything |
| SieveCompiler.UnquoteUndoesQuote | backend/api/src/sieve.rs:32-34 | Any value, quoted, is read back as itself |
| SieveCompiler.CondReads | backend/api/src/sieve.rs:45-60 | A condition's text is read as its test's tokens, whatever follows |
| SieveCompiler.ActionReads | backend/api/src/sieve.rs:61-73 | A supported action's line is read as its command, an unsupported one has no line |
| SieveCompiler.CompiledParses | backend/api/src/sieve.rs:76-94 | The script parses to one `require` and one `if` per rule, in order |
| SieveCompiler.CompiledMeans | backend/api/src/sieve.rs:76-94 | On every message the script performs exactly the supported actions of the first matching rule |
| SieveCompiler.CompiledIsValid | backend/api/src/sieve.rs:46-77 | Every extension used is declared if and only if no rule has a body condition |
| SieveCompiler.NameReads | backend/api/src/sieve.rs:86-88 | The lines of a rule's name are read as nothing if and only if each after the first is blank or a comment |
| SieveCompiler.SecondLineBreaks | backend/api/src/sieve.rs:86-88 | A rule name with a second line of one word makes a script that does not parse, whichever line break it has |
| SieveCompiler.FlagsSurvive | backend/api/src/sieve.rs:67-68 | A rule leaves all flags it asks for if and only if it does not ask for both |
| SieveCompiler.CompileSieve | backend/api/src/sieve.rs:76-94 | The loop over rules and actions produces the compiled text |
| SieveCompiler.CompiledKeepsMeaning | backend/api/src/sieve.rs:76-94 | Both statements together, for every list of rules whose names have only blank or comment lines after the first |

## Left out

- Mail sync: message metadata, bodies, search index, phishing scores, threading, unread counters and progress reports; one folder of one account, entries of the outbox pushed in any order.
- A NULL cursor is the cursor 0; the cursor 2^32-1, from which `prev_last_uid + 1` would overflow, is excluded.
- In the folder sync, answers to a fetch are taken to have distinct UIDs within the asked range; flag fetches of API providers are taken to be complete.
- A failing database write in `flush_pending_flags`, which the code ignores, is not modelled; a cut at the same place is.
- Enqueueing a flag change and updating the row are one step here, two statements in the API routes.
- FolderSync.Folder.Run: histories of notifications and of what the user hid are per UIDVALIDITY epoch; rows are hard-deleted only by the purge, and un-hidden by nobody: `mark_not_spam` (backend/api/src/routes/messages.rs:582), which sets `is_deleted = 0` on an inbox row, is not among the modelled writers.
- MailWalk.ImportIsWindow: of a message only the three flags are modelled.
- Contact groups, photos, account states and error texts; contacts without a book; selection of books by the account's metadata.
- ContactReplay.Replay: two runs, or a run and a mutation, do not overlap; books that a successful full run does not list again are excluded.
- SieveCompiler.SecondLineBreaks: of names that are read as something only those with a second line of one word are followed into the parser.
- SieveLanguage: comments in brackets, multi-line texts, numbers, `elsif` and `else`, which compiled scripts never contain; comparators other than the default.
- Escapes.XmlRoundTrip: finding the element in the document, and the trim after decoding.
- The starred view and the single-folder page, which are the flat query itself; SQL planning, indexes and the errors of queries, which `view_total` counts as zero.
- Network clients (IMAP, DAV, Graph, Google, SMTP, ManageSieve), provider error mapping, folder classification, recurrence rules, retry delays and the frontend.
