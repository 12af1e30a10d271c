/**
 * `migrate_mailbox`: the per-mailbox batch pipeline.  Each piece is given
 * twice: a function that states what the piece does to the history, the
 * ledger and the session handles, and the imperative method, proved to do
 * exactly that.  A state whose `raised` is true stands for an exception that
 * is propagating out of the piece.
 */
module Pipeline {
  import opened Wrappers
  import opened Ledger
  import opened Session
  import opened Search
  import opened Batching

  const ArchivePrefix: string := "Migrated/"
  const FetchAttempts: nat := 3
  const AppendAttempts: nat := 3
  const SearchRetries: int := 5
  const SearchBaseDelay: int := 5

  /** The archive mailbox at the source for `srcMailbox`. */
  function ArchiveName(srcMailbox: string): (r: string)
    ensures |r| == |ArchivePrefix| + |srcMailbox|
    ensures r[..|ArchivePrefix|] == ArchivePrefix && r[|ArchivePrefix|..] == srcMailbox
  {
    ArchivePrefix + srcMailbox
  }

  /** The arguments of one `migrate_mailbox` call that the model uses. */
  datatype Params = Params(srcMailbox: string, dstMailbox: string, batch: int,
                           sleepBetween: int, dryRun: bool)

  /** The pipeline's state: history, ledger rows, the `src` and `dst` handles,
      and whether an exception is propagating. */
  datatype State = State(history: seq<Event>, table: Table, src: SessionId, dst: SessionId, raised: bool)

  // ---------------------------------------------------------------- fetch

  datatype Fetched = Fetched(history: seq<Event>, src: SessionId, data: Option<map<Uid, Item>>, raised: bool)

  /**
   * The FETCH loop from attempt `attempt` on: an abort reconnects the source
   * and selects the mailbox again (on the last attempt too); any other
   * exception, and an exception from the reconnect or the select, escapes.
   */
  function FetchFrom(o: Oracle, h: seq<Event>, src: SessionId, mailbox: string,
                     batch: seq<Uid>, attempt: nat): (r: Fetched)
    ensures h <= r.history
    decreases FetchAttempts - attempt, |h|
  {
    if attempt >= FetchAttempts then Fetched(h, src, None, false)
    else
      var h1 := Issue(o, h, Fetch(src, batch));
      match o.status(|h|)
      case Ok => Fetched(h1, src, Some(o.fetchReply(|h|)), false)
      case Failed => Fetched(h1, src, None, true)
      case Aborted =>
        var rc := ReconnectSpec(o, h1, Source, src);
        if rc.session.None? then Fetched(rc.history, src, None, true)
        else
          var s := rc.session.value;
          var h2 := Issue(o, rc.history, Select(Source, s, mailbox));
          if o.status(|rc.history|) != Ok then Fetched(h2, s, None, true)
          else FetchFrom(o, h2, s, mailbox, batch, attempt + 1)
  }

  method FetchWithRetry(w: World, src: SessionId, mailbox: string, batch: seq<Uid>)
    returns (s: SessionId, data: Option<map<Uid, Item>>, raised: bool)
    modifies w
    ensures Fetched(w.history, s, data, raised) == FetchFrom(w.oracle, old(w.history), src, mailbox, batch, 0)
  {
    s, data, raised := src, None, false;
    for attempt := 0 to FetchAttempts
      invariant FetchFrom(w.oracle, old(w.history), src, mailbox, batch, 0)
             == FetchFrom(w.oracle, w.history, s, mailbox, batch, attempt)
    {
      var st := w.Request(Fetch(s, batch));
      if st == Ok {
        data := Some(w.oracle.fetchReply(|w.history| - 1));
        return;
      }
      if st == Failed {
        raised := true;
        return;
      }
      var next := Reconnect(w, Source, s);
      if next.None? {
        raised := true;
        return;
      }
      s := next.value;
      st := w.Request(Select(Source, s, mailbox));
      if st != Ok {
        raised := true;
        return;
      }
    }
  }

  // ---------------------------------------------------------------- append

  datatype Appended = Appended(history: seq<Event>, dst: SessionId, raised: bool)

  /**
   * The APPEND loop from attempt `attempt` on: an abort reconnects the
   * destination and ensures the mailbox again; running out of attempts does
   * not raise.
   */
  function AppendFrom(o: Oracle, h: seq<Event>, dst: SessionId, mailbox: string,
                      uid: Uid, item: Item, attempt: nat): (r: Appended)
    ensures h <= r.history
    decreases AppendAttempts - attempt, |h|
  {
    if attempt >= AppendAttempts then Appended(h, dst, false)
    else
      var h1 := Issue(o, h, Append(dst, mailbox, uid, item));
      match o.status(|h|)
      case Ok => Appended(h1, dst, false)
      case Failed => Appended(h1, dst, true)
      case Aborted =>
        var rc := ReconnectSpec(o, h1, Destination, dst);
        if rc.session.None? then Appended(rc.history, dst, true)
        else
          var d := rc.session.value;
          var en := EnsureSpec(o, rc.history, Destination, d, mailbox);
          AppendFrom(o, en.history, d, mailbox, uid, item, attempt + 1)
  }

  method AppendWithRetry(w: World, dst: SessionId, mailbox: string, uid: Uid, item: Item)
    returns (d: SessionId, raised: bool)
    modifies w
    ensures Appended(w.history, d, raised) == AppendFrom(w.oracle, old(w.history), dst, mailbox, uid, item, 0)
  {
    d, raised := dst, false;
    for attempt := 0 to AppendAttempts
      invariant AppendFrom(w.oracle, old(w.history), dst, mailbox, uid, item, 0)
             == AppendFrom(w.oracle, w.history, d, mailbox, uid, item, attempt)
    {
      var st := w.Request(Append(d, mailbox, uid, item));
      if st == Ok {
        return;
      }
      if st == Failed {
        raised := true;
        return;
      }
      var next := Reconnect(w, Destination, d);
      if next.None? {
        raised := true;
        return;
      }
      d := next.value;
      var _ := EnsureMailbox(w, Destination, d, mailbox);
    }
  }

  // ---------------------------------------------------------------- one key

  /** The ledger write of `uid` and its commit event. */
  function Commit(st: State, p: Params, uid: Uid, item: Item): State {
    st.(table := Replace(st.table, TransferRow(p.srcMailbox, uid, Some(p.dstMailbox), None, item.messageId)),
        history := Note(st.history, Record(TransferKey(p.srcMailbox, uid))))
  }

  /**
   * One key of a fetched batch: skipped when the ledger has it or the fetch
   * has no data for it; otherwise (unless dry-run) appended and moved to the
   * archive, and recorded unless the move raised.
   */
  function Transfer(o: Oracle, st: State, p: Params, uid: Uid, items: map<Uid, Item>): (r: State)
    ensures st.history <= r.history && r.src == st.src
  {
    if st.raised || Has(st.table, TransferKey(p.srcMailbox, uid)) || uid !in items then st
    else if p.dryRun then Commit(st, p, uid, items[uid])
    else
      var a := AppendFrom(o, st.history, st.dst, p.dstMailbox, uid, items[uid], 0);
      if a.raised then st.(history := a.history, dst := a.dst, raised := true)
      else
        var moved := st.(history := Issue(o, a.history, Move(st.src, uid, ArchiveName(p.srcMailbox))), dst := a.dst);
        if o.status(|a.history|) != Ok then moved else Commit(moved, p, uid, items[uid])
  }

  method TransferOne(w: World, db: TransferLedger, p: Params, src: SessionId, dst: SessionId,
                     uid: Uid, items: map<Uid, Item>) returns (d: SessionId, raised: bool)
    requires db.Valid()
    modifies w, db
    ensures db.Valid()
    ensures State(w.history, db.table, src, d, raised)
         == Transfer(w.oracle, State(old(w.history), old(db.table), src, dst, false), p, uid, items)
  {
    d, raised := dst, false;
    var done := db.AlreadyTransferred(p.srcMailbox, uid);
    if done || uid !in items {
      return;
    }
    var item := items[uid];
    if !p.dryRun {
      d, raised := AppendWithRetry(w, dst, p.dstMailbox, uid, item);
      if raised {
        return;
      }
      var st := w.Request(Move(src, uid, ArchiveName(p.srcMailbox)));
      if st != Ok {
        return;
      }
    }
    db.RecordTransfer(p.srcMailbox, uid, Some(p.dstMailbox), None, item.messageId);
    w.Perform(Record(TransferKey(p.srcMailbox, uid)));
  }

  // ---------------------------------------------------------------- one batch

  /** The keys of a fetched batch, in order, until one raises. */
  function TransferAll(o: Oracle, st: State, p: Params, keys: seq<Uid>, items: map<Uid, Item>): (r: State)
    ensures st.history <= r.history && r.src == st.src
    decreases |keys|
  {
    if keys == [] || st.raised then st
    else TransferAll(o, Transfer(o, st, p, keys[0], items), p, keys[1..], items)
  }

  /**
   * Transferring two runs of keys one after the other is transferring their
   * concatenation: the loop over a batch can be split anywhere, and a run
   * that raised leaves the rest untouched.
   */
  lemma {:induction false} TransferAllConcat(o: Oracle, st: State, p: Params, keys1: seq<Uid>, keys2: seq<Uid>,
                                             items: map<Uid, Item>)
    ensures TransferAll(o, st, p, keys1 + keys2, items) == TransferAll(o, TransferAll(o, st, p, keys1, items), p, keys2, items)
    decreases |keys1|
  {
    if keys1 == [] {
      assert keys1 + keys2 == keys2;
    } else if st.raised {
      assert keys1 + keys2 != [];
    } else {
      assert (keys1 + keys2)[0] == keys1[0];
      assert (keys1 + keys2)[1..] == keys1[1..] + keys2;
      TransferAllConcat(o, Transfer(o, st, p, keys1[0], items), p, keys1[1..], keys2, items);
    }
  }

  method TransferBatch(w: World, db: TransferLedger, p: Params, src: SessionId, dst: SessionId,
                       keys: seq<Uid>, items: map<Uid, Item>) returns (d: SessionId, raised: bool)
    requires db.Valid()
    modifies w, db
    ensures db.Valid()
    ensures State(w.history, db.table, src, d, raised)
         == TransferAll(w.oracle, State(old(w.history), old(db.table), src, dst, false), p, keys, items)
  {
    d, raised := dst, false;
    for i := 0 to |keys|
      invariant db.Valid()
      invariant TransferAll(w.oracle, State(old(w.history), old(db.table), src, dst, false), p, keys, items)
             == TransferAll(w.oracle, State(w.history, db.table, src, d, false), p, keys[i..], items)
    {
      d, raised := TransferOne(w, db, p, src, d, keys[i], items);
      if raised {
        return;
      }
    }
  }

  /**
   * One batch: a fetch that gives no data skips the batch (and the pause
   * after it); otherwise its keys in order, then the pause.
   */
  function RunBatch(o: Oracle, st: State, p: Params, batch: seq<Uid>): (r: State)
    ensures st.history <= r.history
  {
    var f := FetchFrom(o, st.history, st.src, p.srcMailbox, batch, 0);
    var fetched := st.(history := f.history, src := f.src, raised := f.raised);
    if f.raised || f.data.None? then fetched
    else
      var k := TransferAll(o, fetched, p, batch, f.data.value);
      if !k.raised && p.sleepBetween > 0 then k.(history := Note(k.history, Sleep(p.sleepBetween))) else k
  }

  method ProcessBatch(w: World, db: TransferLedger, p: Params, src: SessionId, dst: SessionId, batch: seq<Uid>)
    returns (s: SessionId, d: SessionId, raised: bool)
    requires db.Valid()
    modifies w, db
    ensures db.Valid()
    ensures State(w.history, db.table, s, d, raised)
         == RunBatch(w.oracle, State(old(w.history), old(db.table), src, dst, false), p, batch)
  {
    var data;
    s, data, raised := FetchWithRetry(w, src, p.srcMailbox, batch);
    d := dst;
    if raised || data.None? {
      return;
    }
    d, raised := TransferBatch(w, db, p, s, d, batch, data.value);
    if !raised && p.sleepBetween > 0 {
      w.Perform(Sleep(p.sleepBetween));
    }
  }

  /** One batch as a function value: the step that the batch loop repeats. */
  function BatchStep(o: Oracle, p: Params): (State, seq<Uid>) -> State {
    (st: State, batch: seq<Uid>) => RunBatch(o, st, p, batch)
  }

  /**
   * `step` on the slices `uids[i:i+size]`, `uids[i+size:i+2*size]`, … in
   * order, until one raises: the loop `for i in range(0, len(uids), size)`.
   */
  function Slices(step: (State, seq<Uid>) -> State, st: State, size: nat, uids: seq<Uid>, i: nat): State
    requires size > 0
    decreases |uids| - i
  {
    if i >= |uids| || st.raised then st
    else Slices(step, step(st, uids[i .. Min(i + size, |uids|)]), size, uids, i + size)
  }

  /** `step` on the batches `bs` in order, until one raises. */
  function Fold(step: (State, seq<Uid>) -> State, st: State, bs: seq<seq<Uid>>): State
    decreases |bs|
  {
    if bs == [] || st.raised then st else Fold(step, step(st, bs[0]), bs[1..])
  }

  /** The batch loop of `migrate_mailbox`, from offset `i`. */
  function RunFrom(o: Oracle, st: State, p: Params, uids: seq<Uid>, i: nat): State
    requires p.batch > 0
  {
    Slices(BatchStep(o, p), st, p.batch, uids, i)
  }

  /** The slices the loop takes from offset `i` on are exactly the batches `BatchesFrom` cuts. */
  lemma {:induction false} SlicesFold(step: (State, seq<Uid>) -> State, st: State, size: nat, uids: seq<Uid>, i: nat)
    requires size > 0
    ensures Slices(step, st, size, uids, i) == Fold(step, st, BatchesFrom(uids, size, i))
    decreases |uids| - i
  {
    if i < |uids| && !st.raised {
      var bs := BatchesFrom(uids, size, i);
      assert bs[0] == uids[i .. Min(i + size, |uids|)];
      assert bs[1..] == BatchesFrom(uids, size, i + size);
      SlicesFold(step, step(st, bs[0]), size, uids, i + size);
    }
  }

  /** A step that only extends the history gives a loop that only extends it. */
  lemma {:induction false} SlicesPrefix(step: (State, seq<Uid>) -> State, st: State, size: nat, uids: seq<Uid>, i: nat)
    requires size > 0
    requires forall s: State, b: seq<Uid> :: s.history <= step(s, b).history
    ensures st.history <= Slices(step, st, size, uids, i).history
    decreases |uids| - i
  {
    if i < |uids| && !st.raised {
      SlicesPrefix(step, step(st, uids[i .. Min(i + size, |uids|)]), size, uids, i + size);
    }
  }

  /** The batch loop runs one batch of `Batches` after the other. */
  lemma RunFromBatches(o: Oracle, st: State, p: Params, uids: seq<Uid>)
    requires p.batch > 0
    ensures RunFrom(o, st, p, uids, 0) == Fold(BatchStep(o, p), st, Batches(uids, p.batch))
  {
    SlicesFold(BatchStep(o, p), st, p.batch, uids, 0);
  }

  /** One turn of the batch loop. */
  lemma RunFromStep(o: Oracle, st: State, p: Params, uids: seq<Uid>, i: nat)
    requires p.batch > 0 && i < |uids| && !st.raised
    ensures RunFrom(o, st, p, uids, i) == RunFrom(o, RunBatch(o, st, p, uids[i .. Min(i + p.batch, |uids|)]), p, uids, i + p.batch)
  {
  }

  lemma RunFromPrefix(o: Oracle, st: State, p: Params, uids: seq<Uid>, i: nat)
    requires p.batch > 0
    ensures st.history <= RunFrom(o, st, p, uids, i).history
  {
    SlicesPrefix(BatchStep(o, p), st, p.batch, uids, i);
  }

  /** One turn of the `for i in range(0, len(uids), batch)` loop: the batch at offset `i`. */
  method ProcessTurn(w: World, db: TransferLedger, p: Params, src: SessionId, dst: SessionId, uids: seq<Uid>, i: nat)
    returns (s: SessionId, d: SessionId, raised: bool)
    requires db.Valid() && p.batch > 0 && i < |uids|
    modifies w, db
    ensures db.Valid()
    ensures RunFrom(w.oracle, State(w.history, db.table, s, d, raised), p, uids, i + p.batch)
         == RunFrom(w.oracle, State(old(w.history), old(db.table), src, dst, false), p, uids, i)
  {
    var batch := uids[i .. Min(i + p.batch, |uids|)];
    RunFromStep(w.oracle, State(w.history, db.table, src, dst, false), p, uids, i);
    s, d, raised := ProcessBatch(w, db, p, src, dst, batch);
  }

  /** The `for i in range(0, len(uids), batch)` loop. */
  method ProcessBatches(w: World, db: TransferLedger, p: Params, src: SessionId, dst: SessionId, uids: seq<Uid>)
    returns (s: SessionId, d: SessionId, raised: bool)
    requires db.Valid() && p.batch > 0
    modifies w, db
    ensures db.Valid()
    ensures State(w.history, db.table, s, d, raised)
         == RunFrom(w.oracle, State(old(w.history), old(db.table), src, dst, false), p, uids, 0)
  {
    ghost var goal := RunFrom(w.oracle, State(w.history, db.table, src, dst, false), p, uids, 0);
    s, d, raised := src, dst, false;
    ghost var cur := State(w.history, db.table, s, d, raised);
    var i: nat := 0;
    while i < |uids| && !raised
      invariant db.Valid() && cur == State(w.history, db.table, s, d, raised)
      invariant goal == RunFrom(w.oracle, cur, p, uids, i)
      decreases |uids| - i
    {
      s, d, raised := ProcessTurn(w, db, p, s, d, uids, i);
      cur := State(w.history, db.table, s, d, raised);
      i := i + p.batch;
    }
  }

  // ---------------------------------------------------------------- the mailbox

  datatype Closed = Closed(history: seq<Event>, raised: bool)

  /** Logging out `src` then `dst`; an exception from the first logout skips the second. */
  function CloseSpec(o: Oracle, h: seq<Event>, src: SessionId, dst: SessionId, raised: bool): (r: Closed)
    ensures h <= r.history && QuietFrom(r.history, |h|)
  {
    var h1 := Issue(o, h, Logout(Source, src));
    if o.status(|h|) != Ok then Closed(h1, true)
    else Closed(Issue(o, h1, Logout(Destination, dst)), raised || o.status(|h1|) != Ok)
  }

  method CloseSessions(w: World, src: SessionId, dst: SessionId, raised: bool) returns (r: bool)
    modifies w
    ensures Closed(w.history, r) == CloseSpec(w.oracle, old(w.history), src, dst, raised)
  {
    var st := w.Request(Logout(Source, src));
    if st != Ok {
      return true;
    }
    st := w.Request(Logout(Destination, dst));
    r := raised || st != Ok;
  }

  /** Which way control left `migrate_mailbox`. */
  datatype Path = Unconnected | DestinationUnavailable | SourceUnselectable | SearchFailed | Transferring

  datatype Migrated = Migrated(history: seq<Event>, table: Table, path: Path, raised: bool)

  function Finish(o: Oracle, st: State, path: Path): Migrated {
    var c := CloseSpec(o, st.history, st.src, st.dst, st.raised);
    Migrated(c.history, st.table, path, c.raised)
  }

  /** The whole of `migrate_mailbox` on history `h` and ledger rows `t`. */
  function Migrate(o: Oracle, h: seq<Event>, t: Table, p: Params): (r: Migrated)
    ensures h <= r.history
  {
    var cs := ConnectSpec(o, h, Source);
    if cs.session.None? then Migrated(cs.history, t, Unconnected, true)
    else
      var cd := ConnectSpec(o, cs.history, Destination);
      if cd.session.None? then Migrated(cd.history, t, Unconnected, true)
      else
        var st := State(cd.history, t, cs.session.value, cd.session.value, false);
        var en := EnsureSpec(o, st.history, Destination, st.dst, p.dstMailbox);
        if !en.ok then Finish(o, st.(history := en.history), DestinationUnavailable)
        else
          var ar := EnsureSpec(o, en.history, Source, st.src, ArchiveName(p.srcMailbox));
          var h1 := Issue(o, ar.history, Select(Source, st.src, p.srcMailbox));
          if o.status(|ar.history|) != Ok then Finish(o, st.(history := h1), SourceUnselectable)
          else
            var se := SafeSearchSpec(o, h1, st.src, "ALL", SearchRetries, SearchBaseDelay);
            AfterSearch(o, st.(history := se.history), p, se.reply)
  }

  /** What follows the search: the failure exit, or the batches and the logouts. */
  function AfterSearch(o: Oracle, searched: State, p: Params, reply: Reply): (r: Migrated)
    ensures searched.history <= r.history
  {
    match reply
    case Raised => Finish(o, searched, SearchFailed)
    case NoAttempt => Finish(o, searched.(raised := true), Transferring)
    case Found(uids) =>
      if p.batch == 0 then Finish(o, searched.(raised := true), Transferring)
      else if p.batch < 0 then Finish(o, searched, Transferring)
      else RunFromPrefix(o, searched, p, uids, 0); Finish(o, RunFrom(o, searched, p, uids, 0), Transferring)
  }

  method MigrateMailbox(w: World, db: TransferLedger, p: Params) returns (path: Path, raised: bool)
    requires db.Valid()
    modifies w, db
    ensures db.Valid()
    ensures Migrated(w.history, db.table, path, raised) == Migrate(w.oracle, old(w.history), old(db.table), p)
  {
    var conn := ConnectSession(w, Source);
    if conn.None? {
      return Unconnected, true;
    }
    var src := conn.value;
    conn := ConnectSession(w, Destination);
    if conn.None? {
      return Unconnected, true;
    }
    var dst := conn.value;
    var ok := EnsureMailbox(w, Destination, dst, p.dstMailbox);
    if !ok {
      raised := CloseSessions(w, src, dst, false);
      return DestinationUnavailable, raised;
    }
    var _ := EnsureMailbox(w, Source, src, ArchiveName(p.srcMailbox));
    var st := w.Request(Select(Source, src, p.srcMailbox));
    if st != Ok {
      raised := CloseSessions(w, src, dst, false);
      return SourceUnselectable, raised;
    }
    var reply := SafeSearch(w, src, "ALL", SearchRetries, SearchBaseDelay);
    if reply.Raised? {
      raised := CloseSessions(w, src, dst, false);
      return SearchFailed, raised;
    }
    path, raised := Transferring, false;
    if reply.NoAttempt? || p.batch == 0 {
      raised := true;
    } else if p.batch > 0 {
      src, dst, raised := ProcessBatches(w, db, p, src, dst, reply.uids);
    }
    raised := CloseSessions(w, src, dst, raised);
  }
}
