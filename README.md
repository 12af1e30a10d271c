# Resumable IMAP mailbox migration, modelled in Dafny

This project models the core of `imap_move_resume.py`. That program copies
every mailbox of a source IMAP account to a destination account. For each
message it:

- APPENDs the message to the destination mailbox;
- MOVEs the original into the archive mailbox `Migrated/<name>` at the source;
- records the transfer in a SQLite ledger keyed by (source mailbox, source UID).

A second run skips every key the ledger already has.

The model covers:

- the ledger (`open_db`, `record_transfer`, `already_transferred_by_src`);
- `ensure_mailbox` and the reconnect helper;
- `safe_search`;
- the whole of `migrate_mailbox`: connects, early exits, the batch loop, the FETCH and APPEND retry loops, the MOVE, the commit and the `finally` logouts;
- the mailbox loop of `main`.

## How the model is built

- **Servers.** The two servers are an `Oracle`. It says how each protocol call ends (`Ok`, `Aborted` for `imaplib.IMAP4.abort`, `Failed` for any other exception), and what SEARCH and FETCH return. It is consulted with the position of the call in the history.
- **History.** The history is a sequence of events. Every call, every requested sleep and every ledger commit (`Record`) is an event, so ordering properties such as "a commit follows a successful MOVE" can be stated.
- **Sessions.** A session handle is the position of the Connect event that opened it. `src = reconnect_imap(...)` therefore yields a fresh handle. Module `Lifecycle` follows which sessions are still open: a reconnect logs the stale session out before opening the new one, so at any point only the sessions in use are open, and the `finally` logouts close those.
- **Exceptions.** A propagating exception is a `raised` flag.
- **Imperative code.** The imperative code stays imperative: class `World` holds the history, and class `TransferLedger` holds the table. Every loop of the program is a method with a loop. Each method is proved equal to a function of the old state: `FetchWithRetry` to `FetchFrom`, `ProcessBatches` to `RunFrom`, `MigrateMailbox` to `Migrate`, `MigrateAll` to `RunAll` over `Plan`. The properties are then proved about those functions.
- **Batch slicing.** The slicing `uids[i:i+batch]` is the pure function `Batches`. `Pipeline.RunFromBatches` proves that the offset loop runs exactly those batches.
- **The ledger.** The table is a sequence of rows, and `INSERT OR REPLACE` deletes the row with the same key and then appends (`Replace`). `str(uid)` is written out as `Decimal`, with a parse round trip. `dst_uid` is stored only when truthy.

Where the program's own description of its behaviour and its code disagree, the model follows the code:

- **Dry run.** A dry run issues no APPEND and no MOVE, but it still writes a ledger row for every fetched key that is not yet recorded (`Effects.DryRunOnlyRecords`). It is not read-only on the servers either: `ensure_mailbox(dst, dst_mailbox)` (line 112) and `ensure_mailbox(src, archive_mailbox)` (line 118) run before the dry-run flag is looked at, so a dry run can CREATE the destination mailbox and `Migrated/<src>` (`Exits.EnsuresEvenInDryRun`).
- **Exhausted APPEND.** Running out of APPEND attempts raises nothing. The MOVE is still issued, so a message whose APPENDs all aborted is MOVEd to the archive and recorded when the MOVE succeeds (`Retries.AppendExhausted`, `Retries.ExhaustedAppendStillMoves`).
- **Escaping exceptions.** Some exceptions escape `migrate_mailbox` and end the loop of `main` (`Orchestrator.RunAll` stops at the first mailbox that raises):
  - from `connect_imap`;
  - from the reconnect or re-SELECT inside the FETCH loop;
  - from a FETCH or APPEND that fails with anything other than an abort;
  - from the reconnect inside the APPEND loop;
  - from a failed `logout`, on the early returns and in the `finally` block (a failed source logout also skips the destination logout);
  - from `range(0, len(uids), 0)`.

  When `main` ends this way, the remaining mailboxes are not migrated and the ledger is not closed.
- **Failed destination connect.** A failed destination connect leaves the already open source session without a logout (`Exits.ConnectFailure`).
- **Negative search backoff.** `time.sleep` raises on a negative length, so a negative `base_delay` makes the first aborted SEARCH escape `safe_search` without a sleep (`Search.StatusFrom`). `migrate_mailbox` always passes 5.
- **`ensure_mailbox` after a create.** `ensure_mailbox` reports success after a CREATE without selecting the mailbox again (`Session.EnsureSpec`).

## Model

| member | source | states |
|---|---|---|
| Ledger.Decimal | imap_move_resume.py:38 | `str(uid)` of a non-negative UID: a non-empty string of decimal digits, a single digit exactly for UIDs below 10, and no leading zero for a positive UID |
| Ledger.DecimalRoundTrip | imap_move_resume.py:38 | parsing the stored text of a UID gives back the UID |
| Ledger.DecimalInjective | imap_move_resume.py:42-44 | two UIDs with the same text key are the same UID, so the key identifies the message |
| Ledger.TransferRow | imap_move_resume.py:35-39 | the written row has key (mailbox, text of the UID); a destination UID is stored, as text, exactly when it is present and non-zero; mailbox and Message-ID are stored as given |
| Ledger.Without | imap_move_resume.py:37 | the conflict resolution of REPLACE keeps exactly the rows whose key differs from the written key |
| Ledger.Find | imap_move_resume.py:42-45 | a row the lookup returns is in the table with the asked key; no row returned means no row has that key |
| Ledger.HasIsMembership | imap_move_resume.py:42-45 | `already_transferred_by_src` is true exactly when the key has a row |
| Ledger.WithoutUnique | imap_move_resume.py:23 | deleting a key keeps the UNIQUE constraint and leaves no row of that key |
| Ledger.ReplaceKeepsUnique | imap_move_resume.py:35-40 | INSERT OR REPLACE keeps UNIQUE(src_mailbox, src_uid) |
| Ledger.ReplaceKeys | imap_move_resume.py:35-40 | after a write the keys are the old keys plus the written one: no key is lost |
| Ledger.ReplaceFind | imap_move_resume.py:35-45 | after a write the written key looks up the new row (last write wins) and every other key looks up what it did before |
| Ledger.ReplaceSize | imap_move_resume.py:35-40 | a write grows the table by one row for a new key and keeps its size for a recorded key |
| Ledger.WithoutSize | imap_move_resume.py:37 | under the UNIQUE constraint the deletion removes one row when the key is present and none otherwise |
| Ledger.TransferLedger.Open | imap_move_resume.py:28-33 | opening an existing store keeps its rows, and the constraint holds |
| Ledger.TransferLedger.RecordTransfer | imap_move_resume.py:35-40 | the table becomes the INSERT OR REPLACE of the row `record_transfer` builds, and stays unique |
| Ledger.TransferLedger.AlreadyTransferred | imap_move_resume.py:42-45 | the answer is true exactly when the key (mailbox, text of the UID) is recorded |
| Session.ConnectSpec | imap_move_resume.py:48-52 | one Connect call; a session exactly when it succeeded, named by its position; nothing is transferred |
| Session.ConnectSession | imap_move_resume.py:48-52 | the method leaves the history and returns the session that `ConnectSpec` gives |
| Session.EnsureSpec | imap_move_resume.py:66-76 | SELECT first; a CREATE exactly when the SELECT raised anything; true exactly when the last call succeeded; no second SELECT after a CREATE; nothing escapes and nothing is transferred |
| Session.EnsureMailbox | imap_move_resume.py:66-76 | the method's calls and answer are those of `EnsureSpec` |
| Session.ReconnectSpec | imap_move_resume.py:54-60 | a logout of the stale session whose errors are ignored, a 3-second sleep, then a connect; a new session exactly when the connect succeeded |
| Session.Reconnect | imap_move_resume.py:54-60 | the method's calls and new session are those of `ReconnectSpec` |
| Search.SafeSearch | imap_move_resume.py:93-101 | the retry loop's calls and reply are those of `SafeSearchSpec` |
| Search.LayoutFrom | imap_move_resume.py:94-101 | from attempt k on, the calls alternate SEARCH and a sleep of `base_delay * attempt`, an odd number of them, at most two per remaining attempt |
| Search.StatusFrom | imap_move_resume.py:94-101 | every SEARCH before the final one aborted; the reply is the UIDs exactly when the final SEARCH succeeded (and then its reply); it raises exactly when the final SEARCH failed, or aborted on the last attempt or with a negative `base_delay` (the sleep raises); with a negative `base_delay` there is exactly one SEARCH |
| Search.QuietSearch | imap_move_resume.py:93-101 | searching transfers nothing |
| Exits.SearchUnfetched | imap_move_resume.py:93-101 | searching makes no FETCH |
| Search.SafeSearchSchedule | imap_move_resume.py:93-101 | at most `max_retries` SEARCH calls with linear backoff between them, none when `max_retries < 1` (then `None` is returned); UIDs exactly when the last SEARCH succeeded, an exception otherwise; with a negative `base_delay` exactly one SEARCH, whose abort escapes |
| Batching.BatchesCover | imap_move_resume.py:141-142 | the batches, concatenated in order, are the UID list |
| Batching.BatchesContiguous | imap_move_resume.py:141-142 | batch j is the slice from `j*batch` to `(j+1)*batch`, clamped at the end |
| Batching.BatchSizes | imap_move_resume.py:141-142 | every batch is non-empty and at most `batch` long; all but the last are exactly `batch` long |
| Pipeline.ArchiveName | imap_move_resume.py:117 | the archive mailbox is `Migrated/` followed by the source mailbox's name |
| Pipeline.FetchWithRetry | imap_move_resume.py:145-154 | the FETCH loop's calls, session, data and exception are those of `FetchFrom` |
| Pipeline.AppendWithRetry | imap_move_resume.py:168-177 | the APPEND loop's calls, session and exception are those of `AppendFrom` |
| Pipeline.TransferOne | imap_move_resume.py:156-185 | one key: the calls, ledger table and destination session are those of `Transfer`, and the table stays unique |
| Pipeline.TransferBatch | imap_move_resume.py:156-185 | the keys of a batch in order until one raises, as `TransferAll` |
| Pipeline.TransferAllConcat | imap_move_resume.py:156-185 | transferring two runs of keys one after the other is transferring their concatenation, a run that raised leaving the rest untouched |
| Pipeline.ProcessBatch | imap_move_resume.py:143-188 | a batch as `RunBatch`: no data skips it, pause included |
| Pipeline.RunFromBatches | imap_move_resume.py:141-142 | the loop over offsets `range(0, len(uids), batch)` runs exactly the batches of `Batches` |
| Pipeline.ProcessTurn | imap_move_resume.py:141-188 | one turn of the batch loop runs the batch at offset `i`, so the rest of the loop is `RunFrom` from the next offset |
| Pipeline.ProcessBatches | imap_move_resume.py:140-188 | the batch loop's calls, table and sessions are those of `RunFrom` |
| Pipeline.CloseSessions | imap_move_resume.py:189-193 | the `finally` logouts are those of `CloseSpec` |
| Pipeline.MigrateMailbox | imap_move_resume.py:104-193 | the whole method's calls, table, exit path and exception are those of `Migrate` |
| Effects.QuietBehaves | imap_move_resume.py:109-134 | a piece of the run that issues no APPEND, MOVE or commit keeps the ledger and satisfies every transfer rule |
| Effects.QuietFed | imap_move_resume.py:109-134 | a piece of the run that issues no APPEND, MOVE or commit acts on no data it did not fetch itself |
| Effects.AppendOnlyUid | imap_move_resume.py:168-177 | the APPEND loop, with its reconnects, only APPENDs the one UID, with the message it was given, to the destination mailbox |
| Effects.OnlyUidActs | imap_move_resume.py:156-177 | APPENDs of the reply's message for a UID of the batch that the reply has, and MOVEs of that UID, act on that batch and reply only |
| Effects.CommitActs | imap_move_resume.py:185 | the commit of a UID of the batch that the reply has records the key of that UID |
| Effects.CommitBehaves | imap_move_resume.py:185 | a commit of a new key right after a successful MOVE of its UID (or in dry-run) adds exactly that key, with a source-mailbox row to the destination and no destination UID |
| Effects.TransferBehaves | imap_move_resume.py:150-185 | one key obeys the transfer rules: APPEND only to the destination mailbox, MOVE only to the archive, neither in dry-run, no action on a recorded key, a commit outside dry-run only directly after an OK MOVE of that UID; a raised state, a recorded key or a UID the FETCH reply lacks changes nothing; every APPEND, MOVE and commit is of this UID, which the reply has, and an APPEND sends the reply's message for it; the only row it adds is this UID's, with the Message-ID of the reply's message |
| Effects.TransferActs | imap_move_resume.py:156-185 | a key of the batch acts only on its own UID, which the reply `items` has: its APPENDs send `items[uid]`, and its MOVE and commit are of that UID |
| Effects.TransferAllBehaves | imap_move_resume.py:156-185 | the keys of a batch together obey the transfer rules, with each key committed at most once; every APPEND, MOVE and commit is of one of the keys that the reply `items` has, and an APPEND sends the reply's message for it; every row it adds is the row of one of those keys, with the Message-ID of the reply's message for it |
| Effects.TransferAllActs | imap_move_resume.py:156-185 | the keys of a batch act only on UIDs of the batch that the reply has, with the reply's messages |
| Effects.FetchQuiet | imap_move_resume.py:145-152 | the FETCH loop issues no APPEND, MOVE or commit |
| Effects.RunBatchBehaves | imap_move_resume.py:143-188 | one batch obeys the transfer rules; when its FETCH loop hands on data, every APPEND, MOVE and commit is of a UID of the batch that this data has, and an APPEND sends its message; every one follows a successful FETCH made within the batch; every row it adds is that of a UID of the batch that this data has, with the Message-ID of its message; a batch whose FETCH loop gives no data or raises keeps the ledger and transfers nothing |
| Effects.RunBatchFed | imap_move_resume.py:143-188 | when the batch's FETCH loop hands on data (the reply of its final, successful FETCH), every APPEND, MOVE and commit is of a UID of the batch that this data has, and an APPEND sends its message; each follows a successful FETCH made within the batch that returned the UID |
| Effects.FetchedFed | imap_move_resume.py:153-188 | after a quiet FETCH loop whose data is the reply of a final successful FETCH of the batch, the transfers and the pause act only on UIDs of the batch with that reply, and so on data that FETCH returned |
| Effects.ActsFed | imap_move_resume.py:145-185 | effects that act on the reply of a successful FETCH of the batch, after nothing but quiet events since a given point, act only on data fetched since that point |
| Effects.RunFromBehaves | imap_move_resume.py:141-188 | the batch loop obeys the transfer rules, and every APPEND, MOVE and commit is of a UID that a successful FETCH made by the loop returned, with that reply's message |
| Effects.RunFromFed | imap_move_resume.py:141-188 | every APPEND, MOVE and commit of the batch loop is of a UID that a successful FETCH made by the loop returned, with that reply's message |
| Effects.FinishBehaves | imap_move_resume.py:189-193 | the logouts change nothing in the ledger |
| Effects.AfterSearchFed | imap_move_resume.py:128-193 | after the search, every APPEND, MOVE and commit is of a UID that a successful FETCH made after the search returned, with that reply's message |
| Effects.TransferringBehaves | imap_move_resume.py:140-193 | after the search, the batches and logouts obey the transfer rules and act only on UIDs and messages that a FETCH made after the search returned |
| Effects.MigrateBehaves | imap_move_resume.py:104-193 | `migrate_mailbox` obeys the transfer rules; the ledger keys grow by exactly the keys committed, each once; recorded keys are untouched; old rows stay; new rows go from the source mailbox to the destination with no destination UID; UNIQUE is kept; every APPEND, MOVE and commit is of a UID that a successful FETCH of this same call returned, and an APPEND sends that reply's message |
| Effects.MigrateObeys | imap_move_resume.py:104-193 | `migrate_mailbox` obeys the rules of `Behaves`: destinations of APPEND and MOVE, commits after a successful MOVE, the ledger's keys and rows and UNIQUE |
| Effects.MigrateFed | imap_move_resume.py:104-193 | in the whole of `migrate_mailbox`, every APPEND, MOVE and commit is of a UID that a successful FETCH of this same call returned, and an APPEND sends that reply's message; a FETCH of an earlier mailbox never counts |
| Effects.UniqueFind | imap_move_resume.py:23 | with the UNIQUE constraint, the lookup of a row's key finds that row |
| Effects.RerunSkipsRecorded | imap_move_resume.py:156-158 | a run over a ledger that has a key issues no APPEND, MOVE or commit for it and leaves its row as it was |
| Effects.DryRunOnlyRecords | imap_move_resume.py:167-185 | a dry run issues no APPEND and no MOVE, but its commits still add their keys to the ledger |
| Effects.DryRunCommits | imap_move_resume.py:156-185 | in a dry run, a UID the FETCH reply has ends up in the ledger: it is committed, with no other call, unless its key is recorded already, and nothing raises |
| Effects.DryRunTransferAll | imap_move_resume.py:156-185 | in a dry run, the keys of a fetched batch add to the ledger exactly the keys of the batch's UIDs that the reply has, and nothing raises |
| Effects.DryRunBatch | imap_move_resume.py:143-188 | a dry-run batch raises exactly when its FETCH loop raises, and otherwise adds exactly the keys of the batch's UIDs that the FETCH reply has (none without data) |
| Exits.CloseShape | imap_move_resume.py:189-193 | the logout of the given source session comes first; when it raises, the destination logout is skipped and the exception propagates; otherwise the logout of the given destination session follows; a pending exception stays pending |
| Exits.FinishShape | imap_move_resume.py:189-193 | every exit through the logouts ends with the logouts of the sessions in use, keeps the ledger and transfers nothing; when the sessions in use were the only ones open, every session is logged out afterwards, except the destination's when the source logout raised |
| Exits.ConnectFailure | imap_move_resume.py:109-110 | the two connects come first; the run ends unconnected exactly when one of them fails, and then it raises, logs nothing out, keeps the ledger and transfers nothing |
| Exits.ConnectedExits | imap_move_resume.py:109-193 | once both sessions are open, every way out ends with the logouts; every session the call opens, the first two and every reconnect's, is logged out later in the call, except one destination session when the final source logout raised; the destination is unavailable exactly when both its SELECT and its CREATE fail |
| Exits.EnsuresEvenInDryRun | imap_move_resume.py:112-118 | once both sessions are open, whatever the dry-run flag, the destination mailbox is SELECTed and CREATEd when that fails, and once that succeeded the archive is SELECTed and CREATEd when that fails |
| Exits.EarlyExits | imap_move_resume.py:112-134 | once both sessions are open, the early exits (destination unavailable, source unselectable, search raised) keep the ledger, make no APPEND, MOVE or ledger commit and no FETCH; an unavailable destination leaves before any SELECT of the source, SEARCH or FETCH |
| Exits.EarlyQuiet | imap_move_resume.py:112-134 | once both sessions are open, the early exits keep the ledger and make no APPEND, MOVE or commit |
| Exits.EarlyUnread | imap_move_resume.py:112-134 | once both sessions are open, no early exit makes a FETCH, and an unavailable destination leaves before any SELECT of the source, SEARCH or FETCH |
| Exits.AfterSearchShape | imap_move_resume.py:128-193 | after the search every path ends with the logouts, and when the sessions in use were the only ones open, every session is logged out by the end, except one destination session when the final source logout raised; a search that raised takes the search-failure exit, which keeps the ledger, transfers nothing and fetches nothing; every other reply takes the transfer path |
| Lifecycle.ReconnectRetires | imap_move_resume.py:54-60 | a reconnect logs the stale session out, so afterwards only the new session, or the stale one when the connect failed, is open on that server; it opens nothing on the other |
| Lifecycle.EnsureNoOpens | imap_move_resume.py:66-76 | `ensure_mailbox` opens no session |
| Lifecycle.SearchNoOpens | imap_move_resume.py:93-101 | `safe_search` opens no session |
| Lifecycle.FetchRetires | imap_move_resume.py:145-154 | the FETCH loop, reconnects included, leaves open on the source only the session it hands on, and opens no destination session |
| Lifecycle.AppendRetires | imap_move_resume.py:168-177 | the APPEND loop, reconnects included, leaves open on the destination only the session it hands on, and opens no source session |
| Lifecycle.TransferRetires | imap_move_resume.py:156-185 | one key keeps the sessions in use the only open ones |
| Lifecycle.RunBatchRetires | imap_move_resume.py:143-188 | one batch keeps the sessions in use the only open ones |
| Lifecycle.RunFromRetires | imap_move_resume.py:141-188 | the batch loop keeps the sessions it hands on the only open ones |
| Lifecycle.FinishCloses | imap_move_resume.py:189-193 | when the sessions in use are the only open ones, the `finally` logouts close every session, except the destination's when the source logout raised |
| Lifecycle.AfterSearchCloses | imap_move_resume.py:128-193 | when the sessions in use are the only open ones after the search, every session is logged out by the end of the call, except one destination session when the final source logout raised |
| Lifecycle.MigrateCloses | imap_move_resume.py:104-193 | once both connects succeeded, every session `migrate_mailbox` opens, the first two and every reconnect's, is logged out later in the call, except one destination session when the final source logout raised |
| Effects.CommitRows | imap_move_resume.py:35-40 | the commit of a UID the reply has adds only that UID's row, with the Message-ID of the reply's message |
| Effects.TransferRows | imap_move_resume.py:156-185 | a key adds at most its own row, with the Message-ID of the reply's message |
| Effects.TransferAllRows | imap_move_resume.py:156-185 | the keys of a batch add only rows of UIDs of the batch that the reply has, each with the Message-ID of its message |
| Effects.RunBatchRows | imap_move_resume.py:143-188 | a batch adds only rows of UIDs of the batch that its own FETCH reply has, each with the Message-ID of its message |
| Exits.BatchSizeEdges | imap_move_resume.py:141 | with a batch size of zero or less no batch runs: the ledger is kept, nothing is transferred, and a batch size of zero raises after the search |
| Retries.FetchCount | imap_move_resume.py:145-154 | at most 3 FETCH calls, every one but a final one aborted; when the loop ends with no data and nothing raised, it made all 3 |
| Retries.FetchOutcome | imap_move_resume.py:145-154 | a FETCH is made exactly when attempts remain; data exactly when the last FETCH succeeded (its reply); an exception exactly when the last FETCH failed otherwise than by an abort, or the reconnect or re-SELECT raised |
| Retries.FetchData | imap_move_resume.py:145-154 | the data the FETCH loop hands on is the reply of its last call, a successful FETCH of the batch |
| Retries.FetchRecoveries | imap_move_resume.py:145-152 | the first FETCH is of the batch on the given session; every aborted FETCH is followed by a logout of its session, the 3-second cooldown and a connect; once connected by a SELECT of the mailbox on the new session; the loop ends where the connect or that SELECT fails, and otherwise the next FETCH, if any, is of the same batch on the new session |
| Retries.AppendCount | imap_move_resume.py:168-177 | at most 3 APPEND calls, every one but a final one aborted; when the loop neither raises nor ends on a successful APPEND, it made all 3 |
| Retries.AppendOutcome | imap_move_resume.py:168-177 | an APPEND is made exactly when attempts remain; the loop raises exactly when the last APPEND failed otherwise than by an abort, or the reconnect raised; running out of attempts raises nothing |
| Retries.AppendRecoveries | imap_move_resume.py:168-177 | the first APPEND is of the message on the given session; every aborted APPEND is followed by a logout of its session, the 3-second cooldown and a connect; once connected by `ensure_mailbox` on the new session (a SELECT, and a CREATE when it fails); the loop ends where the connect fails, and otherwise the next APPEND, if any, is of the same message on the new session |
| Retries.AppendExhausted | imap_move_resume.py:168-177 | an APPEND loop that neither raises nor ends on a successful APPEND made all 3 APPEND calls, and every one of them aborted |
| Retries.ExhaustedAppendStillMoves | imap_move_resume.py:168-185 | outside dry-run, a new key whose APPEND loop neither raised nor ended on a successful APPEND is still MOVEd to the archive right after the loop, and it is recorded exactly when that MOVE succeeds |
| Orchestrator.Plan | imap_move_resume.py:246-250 | at most one `migrate_mailbox` call per listed mailbox |
| Orchestrator.Destination | imap_move_resume.py:250 | the destination is the mapped name when the mapping lists the source, and the source's own name with no mapping or a name the mapping lacks; it is the source name or a value of the mapping |
| Orchestrator.JobFor | imap_move_resume.py:250-251 | the call for a mailbox has that source, its mapped destination, the run's dry-run flag and the defaults of line 104: batch 50 and pause 2, both positive |
| Orchestrator.PlanConcat | imap_move_resume.py:246-251 | the calls for a concatenated listing are the calls for each part, in order: listing order is kept |
| Orchestrator.PlanSingle | imap_move_resume.py:246-250 | an excluded mailbox gets no call; any other gets exactly its own |
| Orchestrator.PlanSound | imap_move_resume.py:246-251 | every call is for a listed mailbox outside the exclude set, to `mapping.get(src, src)` (or `src` with no mapping), with batch 50, pause 2 and the run's dry-run flag |
| Orchestrator.PlanComplete | imap_move_resume.py:246-251 | every listed mailbox outside the exclude set gets its call |
| Orchestrator.MigrateAll | imap_move_resume.py:246-251 | the loop's calls, ledger and exception are those of `RunAll` over the planned calls: it stops at the first mailbox that raises |
| Orchestrator.RunAllBehaves | imap_move_resume.py:246-251 | over all mailboxes: old rows stay; every new row is a transfer of one of the calls; the keys grow by the keys committed; no recorded key is committed again, and no key twice; UNIQUE is kept |
| Orchestrator.PlanRows | imap_move_resume.py:246-251 | `main` adds rows only for listed, non-excluded mailboxes, each naming the destination the mapping gives |

## Left out

- IMAP transport: `IMAPClient`, `imaplib`, login, TLS and ports, and RFC 3501 wire formats. Every call is an abstract event whose outcome and reply come from the oracle. The oracle depends only on the position of the call, so the model does not tie a SEARCH or FETCH reply to earlier APPENDs or MOVEs.
- `connect_imap`'s host, credentials and SSL arguments: a connect is only `Connect(endpoint)`.
- `list_mailboxes` and the listing connection of `main` (lines 242-244): the mailbox list is an input of `Orchestrator.MigrateAll`.
- Message parsing (`BytesParser`, the Message-ID lookup): the Message-ID is an opaque optional field of the fetched item.
- A FETCH reply entry that is present but empty (`if not raw_msg`): only a missing UID is skipped.
- The spinner thread (lines 136-138, 190-191): concurrency with a cosmetic effect only.
- Time: sleeps are events carrying the requested delay, and no clock is modelled.
- SQLite internals: WAL mode, schema creation, the `id` and `transferred_at` columns, the Message-ID index, and failures of `execute` or `commit`. `conn_db.close()` at line 253 is not modelled.
- `select_folder`'s `readonly=False` argument and FETCH's list of data items are not modelled: the item carries body, flags, internal date and Message-ID.
- CLI parsing, configuration and mapping loaders, and logging: the mapping, exclude set and dry-run flag are inputs.
- Ledger.TransferLedger.Open: requires the stored rows to satisfy the UNIQUE constraint. SQLite guarantees this for any existing table, but the model takes it as given.
- Orchestrator.Plan: its own contract only bounds the number of calls. What the calls are is stated by `Orchestrator.PlanSound`, `Orchestrator.PlanComplete`, `Orchestrator.PlanSingle` and `Orchestrator.PlanConcat`.
