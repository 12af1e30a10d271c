/**
 * What `migrate_mailbox` does to the mailboxes and to the ledger, as a
 * relation between the state before and after a piece of the pipeline:
 * which keys can get an APPEND, a MOVE or a commit, that a commit outside
 * dry-run follows a successful MOVE of the same UID, and how the ledger's
 * keys grow.
 */
module Effects {
  import opened Wrappers
  import opened Ledger
  import opened Session
  import opened Search
  import opened Batching
  import opened Pipeline
  import opened Retries

  /** Event `e` acts on ledger key `k` of source mailbox `m`: an APPEND or MOVE of its UID, or its commit. */
  predicate Touches(e: Event, m: string, k: Key) {
    match e.call
    case Append(_, _, uid, _) => TransferKey(m, uid) == k
    case Move(_, uid, _) => TransferKey(m, uid) == k
    case Record(key) => key == k
    case _ => false
  }

  /** No event from `from` on acts on key `k`. */
  ghost predicate Untouched(h: seq<Event>, from: nat, m: string, k: Key) {
    forall i | from <= i < |h| :: !Touches(h[i], m, k)
  }

  /** Event `i` is a commit right after a successful MOVE of the UID it commits. */
  predicate MovedBefore(h: seq<Event>, i: nat, m: string)
    requires i < |h|
  {
    && 0 < i
    && h[i - 1].call.Move? && h[i - 1].status == Ok
    && h[i].call.Record? && TransferKey(m, h[i - 1].call.uid) == h[i].call.key
  }

  /**
   * Event `i` is one `migrate_mailbox` may emit for `p`: APPENDs go to the
   * destination mailbox and MOVEs to the archive, neither in dry-run; commits
   * are for the source mailbox and, outside dry-run, follow a successful MOVE.
   */
  predicate Allowed(h: seq<Event>, i: nat, p: Params)
    requires i < |h|
  {
    match h[i].call
    case Append(_, mailbox, _, _) => !p.dryRun && mailbox == p.dstMailbox
    case Move(_, _, archive) => !p.dryRun && archive == ArchiveName(p.srcMailbox)
    case Record(key) => key.mailbox == p.srcMailbox && (!p.dryRun ==> MovedBefore(h, i, p.srcMailbox))
    case _ => true
  }

  ghost predicate Disciplined(h: seq<Event>, from: nat, p: Params) {
    forall i | from <= i < |h| :: Allowed(h, i, p)
  }

  /** The keys committed from position `from` on. */
  ghost function Recorded(h: seq<Event>, from: nat): set<Key> {
    set i | from <= i < |h| && h[i].call.Record? :: h[i].call.key
  }

  /** No key is committed twice from position `from` on. */
  ghost predicate DistinctRecords(h: seq<Event>, from: nat) {
    forall i, j | from <= j < i < |h| && h[i].call.Record? && h[j].call.Record? :: h[j].call.key != h[i].call.key
  }

  /** Old rows stay; every new row is a transfer from the source to the destination mailbox with no destination UID. */
  ghost predicate RowsGrow(t0: Table, t1: Table, p: Params) {
    && (forall row | row in t0 :: row in t1)
    && (forall row | row in t1 && row !in t0 ::
          row.srcMailbox == p.srcMailbox && row.dstMailbox == Some(p.dstMailbox) && row.dstUid.None?)
  }

  /** Every new row is the row of a UID of `keys` that the reply `items` has, with the Message-ID of its message. */
  ghost predicate RowsFetched(t0: Table, t1: Table, p: Params, keys: seq<Uid>, items: map<Uid, Item>) {
    forall row | row in t1 && row !in t0 ::
      exists uid | uid in keys && uid in items ::
        row == TransferRow(p.srcMailbox, uid, Some(p.dstMailbox), None, items[uid].messageId)
  }

  /** The effect of a piece of the pipeline that took history `h0` to `h1` and rows `t0` to `t1`. */
  ghost predicate Behaves(h0: seq<Event>, t0: Table, h1: seq<Event>, t1: Table, p: Params) {
    && h0 <= h1
    && Disciplined(h1, |h0|, p)
    && Keys(t1) == Keys(t0) + Recorded(h1, |h0|)
    && (forall k | k in Keys(t0) :: Untouched(h1, |h0|, p.srcMailbox, k))
    && DistinctRecords(h1, |h0|)
    && RowsGrow(t0, t1, p)
    && (Unique(t0) ==> Unique(t1))
  }

  // ---------------------------------------------------------------- composition

  lemma RecordedSplit(h0: seq<Event>, h1: seq<Event>, h2: seq<Event>)
    requires h0 <= h1 <= h2
    ensures Recorded(h2, |h0|) == Recorded(h1, |h0|) + Recorded(h2, |h1|)
  {
    forall k | k in Recorded(h1, |h0|) ensures k in Recorded(h2, |h0|) {
      var i :| |h0| <= i < |h1| && h1[i].call.Record? && h1[i].call.key == k;
      assert h2[i] == h1[i];
    }
    forall k | k in Recorded(h2, |h0|) ensures k in Recorded(h1, |h0|) + Recorded(h2, |h1|) {
      var i :| |h0| <= i < |h2| && h2[i].call.Record? && h2[i].call.key == k;
      if i < |h1| {
        assert h2[i] == h1[i];
      }
    }
  }

  lemma {:induction false} BehavesTrans(h0: seq<Event>, t0: Table, h1: seq<Event>, t1: Table,
                                        h2: seq<Event>, t2: Table, p: Params)
    requires Behaves(h0, t0, h1, t1, p) && Behaves(h1, t1, h2, t2, p)
    ensures Behaves(h0, t0, h2, t2, p)
  {
    RecordedSplit(h0, h1, h2);
    forall i | |h0| <= i < |h1| ensures Allowed(h2, i, p) {
      assert h2[i] == h1[i];
      assert Allowed(h1, i, p);
      if 0 < i {
        assert h2[i - 1] == h1[i - 1];
      }
    }
    forall k | k in Keys(t0) ensures Untouched(h2, |h0|, p.srcMailbox, k) {
      forall i | |h0| <= i < |h2| ensures !Touches(h2[i], p.srcMailbox, k) {
        if i < |h1| {
          assert h2[i] == h1[i];
        }
      }
    }
    forall i, j | |h0| <= j < i < |h2| && h2[i].call.Record? && h2[j].call.Record?
      ensures h2[j].call.key != h2[i].call.key
    {
      if i < |h1| {
        assert h2[i] == h1[i] && h2[j] == h1[j];
      } else if j < |h1| {
        assert h2[j] == h1[j];
        assert h2[j].call.key in Recorded(h1, |h0|);
        assert !Touches(h2[i], p.srcMailbox, h2[j].call.key);
      }
    }
  }

  /** A piece that commits nothing adds no key. */
  lemma NoRecords(h0: seq<Event>, h1: seq<Event>)
    requires forall i | |h0| <= i < |h1| :: !h1[i].call.Record?
    ensures Recorded(h1, |h0|) == {} && DistinctRecords(h1, |h0|)
  {
  }

  /** A piece that transfers nothing leaves the ledger as it is. */
  lemma QuietBehaves(h0: seq<Event>, h1: seq<Event>, t: Table, p: Params)
    requires h0 <= h1 && QuietFrom(h1, |h0|)
    ensures Behaves(h0, t, h1, t, p)
  {
    forall i | |h0| <= i < |h1| ensures !h1[i].call.Record? && Allowed(h1, i, p) {
      assert Quiet(h1[i]);
    }
    NoRecords(h0, h1);
    forall k | k in Keys(t) ensures Untouched(h1, |h0|, p.srcMailbox, k) {
      forall i | |h0| <= i < |h1| ensures !Touches(h1[i], p.srcMailbox, k) {
        assert Quiet(h1[i]);
      }
    }
  }

  // ---------------------------------------------------------------- fetched data

  /** Position `j` of `h` is a successful FETCH whose UIDs contain `uid` and whose reply has it. */
  predicate FetchedAt(o: Oracle, h: seq<Event>, j: nat, uid: Uid) {
    && j < |h| && h[j].call.Fetch? && h[j].status == Ok
    && uid in h[j].call.uids && uid in o.fetchReply(j)
  }

  /**
   * Event `i` acts on fetched data only: an APPEND or a MOVE of a UID, and the
   * commit of its key, come after a successful FETCH of that UID made at `lo`
   * or later whose reply has it, and an APPEND sends the message of that reply.
   */
  ghost predicate FedAt(o: Oracle, h: seq<Event>, lo: nat, i: nat, m: string)
    requires i < |h|
  {
    match h[i].call
    case Append(_, _, uid, message) => exists j: nat | lo <= j < i :: FetchedAt(o, h, j, uid) && message == o.fetchReply(j)[uid]
    case Move(_, uid, _) => exists j: nat | lo <= j < i :: FetchedAt(o, h, j, uid)
    case Record(key) => exists j: nat, uid: Uid | lo <= j < i :: FetchedAt(o, h, j, uid) && key == TransferKey(m, uid)
    case _ => true
  }

  /** Every event from `from` on acts only on data that a FETCH made from `from` on returned. */
  ghost predicate Fed(o: Oracle, h: seq<Event>, from: nat, m: string) {
    forall i | from <= i < |h| :: FedAt(o, h, from, i, m)
  }

  lemma FedAtPrefix(o: Oracle, h1: seq<Event>, h2: seq<Event>, lo: nat, i: nat, m: string)
    requires h1 <= h2 && i < |h1| && FedAt(o, h1, lo, i, m)
    ensures FedAt(o, h2, lo, i, m)
  {
    assert h2[i] == h1[i];
    match h1[i].call
    case Append(_, _, uid, message) =>
      var j: nat :| lo <= j < i && FetchedAt(o, h1, j, uid) && message == o.fetchReply(j)[uid];
      assert h2[j] == h1[j] && FetchedAt(o, h2, j, uid);
    case Move(_, uid, _) =>
      var j: nat :| lo <= j < i && FetchedAt(o, h1, j, uid);
      assert h2[j] == h1[j] && FetchedAt(o, h2, j, uid);
    case Record(key) =>
      var j: nat, uid: Uid :| lo <= j < i && FetchedAt(o, h1, j, uid) && key == TransferKey(m, uid);
      assert h2[j] == h1[j] && FetchedAt(o, h2, j, uid);
    case _ =>
  }

  lemma FedAtLower(o: Oracle, h: seq<Event>, lo: nat, lo2: nat, i: nat, m: string)
    requires lo2 <= lo && i < |h| && FedAt(o, h, lo, i, m)
    ensures FedAt(o, h, lo2, i, m)
  {
    match h[i].call
    case Append(_, _, uid, message) =>
      var j: nat :| lo <= j < i && FetchedAt(o, h, j, uid) && message == o.fetchReply(j)[uid];
    case Move(_, uid, _) =>
      var j: nat :| lo <= j < i && FetchedAt(o, h, j, uid);
    case Record(key) =>
      var j: nat, uid: Uid :| lo <= j < i && FetchedAt(o, h, j, uid) && key == TransferKey(m, uid);
    case _ =>
  }

  lemma FedTrans(o: Oracle, h0: seq<Event>, h1: seq<Event>, h2: seq<Event>, m: string)
    requires h0 <= h1 <= h2 && Fed(o, h1, |h0|, m) && Fed(o, h2, |h1|, m)
    ensures Fed(o, h2, |h0|, m)
  {
    forall i | |h0| <= i < |h2| ensures FedAt(o, h2, |h0|, i, m) {
      if i < |h1| {
        FedAtPrefix(o, h1, h2, |h0|, i, m);
      } else {
        FedAtLower(o, h2, |h1|, |h0|, i, m);
      }
    }
  }

  lemma QuietFed(o: Oracle, h0: seq<Event>, h1: seq<Event>, m: string)
    requires h0 <= h1 && QuietFrom(h1, |h0|)
    ensures Fed(o, h1, |h0|, m)
  {
    forall i | |h0| <= i < |h1| ensures FedAt(o, h1, |h0|, i, m) {
      assert Quiet(h1[i]);
    }
  }

  /**
   * Event `e` is quiet, or it acts on a UID of `keys` that the reply `items`
   * has: an APPEND of the reply's message for it, a MOVE of it, or the commit
   * of its key.
   */
  ghost predicate ActsOnAt(e: Event, keys: seq<Uid>, items: map<Uid, Item>, m: string) {
    match e.call
    case Append(_, _, uid, message) => uid in keys && uid in items && message == items[uid]
    case Move(_, uid, _) => uid in keys && uid in items
    case Record(key) => key in FetchedKeys(m, keys, items)
    case _ => true
  }

  /** Every event from `from` on acts on the UIDs of `keys` with the reply `items` only. */
  ghost predicate ActsOn(h: seq<Event>, from: nat, keys: seq<Uid>, items: map<Uid, Item>, m: string) {
    forall i | from <= i < |h| :: ActsOnAt(h[i], keys, items, m)
  }

  lemma ActsOnTrans(h0: seq<Event>, h1: seq<Event>, h2: seq<Event>, keys: seq<Uid>, items: map<Uid, Item>, m: string)
    requires h0 <= h1 <= h2 && ActsOn(h1, |h0|, keys, items, m) && ActsOn(h2, |h1|, keys, items, m)
    ensures ActsOn(h2, |h0|, keys, items, m)
  {
    forall i | |h0| <= i < |h1| ensures h2[i] == h1[i] {
    }
  }

  lemma QuietActs(h0: seq<Event>, h1: seq<Event>, keys: seq<Uid>, items: map<Uid, Item>, m: string)
    requires h0 <= h1 && QuietFrom(h1, |h0|)
    ensures ActsOn(h1, |h0|, keys, items, m)
  {
    forall i | |h0| <= i < |h1| ensures ActsOnAt(h1[i], keys, items, m) {
      assert Quiet(h1[i]);
    }
  }

  /**
   * Effects that act on the reply of a successful FETCH at `j` of UIDs
   * including `keys`, after nothing but quiet events since `from`, act on
   * data fetched since `from`.
   */
  lemma ActsFed(o: Oracle, h: seq<Event>, from: nat, j: nat, keys: seq<Uid>, m: string)
    requires from <= j < |h| && h[j].call.Fetch? && h[j].status == Ok && forall u | u in keys :: u in h[j].call.uids
    requires forall i | from <= i <= j :: Quiet(h[i])
    requires ActsOn(h, from, keys, o.fetchReply(j), m)
    ensures Fed(o, h, from, m)
  {
    var items := o.fetchReply(j);
    forall i | from <= i < |h| ensures FedAt(o, h, from, i, m) {
      assert ActsOnAt(h[i], keys, items, m);
      match h[i].call
      case Append(_, _, uid, message) =>
        assert FetchedAt(o, h, j, uid);
      case Move(_, uid, _) =>
        assert FetchedAt(o, h, j, uid);
      case Record(key) =>
        var uid :| uid in keys && uid in items && key == TransferKey(m, uid);
        assert FetchedAt(o, h, j, uid);
      case _ =>
    }
  }

  // ---------------------------------------------------------------- one key

  /**
   * Every event is quiet, or an APPEND of message `item` under `uid` to
   * `mailbox`, or a MOVE of `uid` to `archive`.
   */
  ghost predicate OnlyUid(h: seq<Event>, from: nat, uid: Uid, mailbox: string, archive: string, item: Item) {
    forall i | from <= i < |h| ::
      || Quiet(h[i])
      || (h[i].call.Append? && h[i].call.uid == uid && h[i].call.mailbox == mailbox && h[i].call.message == item)
      || (h[i].call.Move? && h[i].call.uid == uid && h[i].call.archive == archive)
  }

  lemma OnlyUidTrans(h0: seq<Event>, h1: seq<Event>, h2: seq<Event>, uid: Uid, mailbox: string, archive: string, item: Item)
    requires h0 <= h1 <= h2 && OnlyUid(h1, |h0|, uid, mailbox, archive, item) && OnlyUid(h2, |h1|, uid, mailbox, archive, item)
    ensures OnlyUid(h2, |h0|, uid, mailbox, archive, item)
  {
    forall i | |h0| <= i < |h1| ensures h2[i] == h1[i] {
    }
  }

  lemma QuietOnlyUid(h0: seq<Event>, h1: seq<Event>, uid: Uid, mailbox: string, archive: string, item: Item)
    requires h0 <= h1 && QuietFrom(h1, |h0|)
    ensures OnlyUid(h1, |h0|, uid, mailbox, archive, item)
  {
  }

  /** The APPEND loop appends `item` under `uid` to `mailbox` and does nothing else that transfers. */
  lemma {:induction false} AppendOnlyUid(o: Oracle, h: seq<Event>, dst: SessionId, mailbox: string,
                                         uid: Uid, item: Item, attempt: nat, archive: string)
    ensures OnlyUid(AppendFrom(o, h, dst, mailbox, uid, item, attempt).history, |h|, uid, mailbox, archive, item)
    decreases AppendAttempts - attempt, 1
  {
    if attempt < AppendAttempts {
      var h1 := Issue(o, h, Append(dst, mailbox, uid, item));
      assert OnlyUid(h1, |h|, uid, mailbox, archive, item);
      if o.status(|h|) == Aborted {
        ReconnectOnlyUid(o, h, h1, dst, mailbox, uid, item, attempt, archive);
      }
    }
  }

  /** An aborted APPEND attempt: the reconnect and the ensure transfer nothing. */
  lemma {:induction false} ReconnectOnlyUid(o: Oracle, h: seq<Event>, h1: seq<Event>, dst: SessionId, mailbox: string,
                                            uid: Uid, item: Item, attempt: nat, archive: string)
    requires attempt < AppendAttempts && o.status(|h|) == Aborted
    requires h1 == Issue(o, h, Append(dst, mailbox, uid, item)) && OnlyUid(h1, |h|, uid, mailbox, archive, item)
    ensures OnlyUid(AppendFrom(o, h, dst, mailbox, uid, item, attempt).history, |h|, uid, mailbox, archive, item)
    decreases AppendAttempts - attempt, 0
  {
    var rc := ReconnectSpec(o, h1, Destination, dst);
    QuietOnlyUid(h1, rc.history, uid, mailbox, archive, item);
    OnlyUidTrans(h, h1, rc.history, uid, mailbox, archive, item);
    if rc.session.Some? {
      var d := rc.session.value;
      var en := EnsureSpec(o, rc.history, Destination, d, mailbox);
      assert AppendFrom(o, h, dst, mailbox, uid, item, attempt) == AppendFrom(o, en.history, d, mailbox, uid, item, attempt + 1);
      QuietOnlyUid(rc.history, en.history, uid, mailbox, archive, item);
      OnlyUidTrans(h, rc.history, en.history, uid, mailbox, archive, item);
      AppendOnlyUid(o, en.history, d, mailbox, uid, item, attempt + 1, archive);
      OnlyUidTrans(h, en.history, AppendFrom(o, en.history, d, mailbox, uid, item, attempt + 1).history,
                   uid, mailbox, archive, item);
    } else {
      assert AppendFrom(o, h, dst, mailbox, uid, item, attempt).history == rc.history;
    }
  }

  lemma RowsFetchedTrans(t0: Table, t1: Table, t2: Table, p: Params, keys: seq<Uid>, items: map<Uid, Item>)
    requires (forall row | row in t0 :: row in t1) && RowsFetched(t0, t1, p, keys, items) && RowsFetched(t1, t2, p, keys, items)
    ensures RowsFetched(t0, t2, p, keys, items)
  {
  }

  /** A commit of a UID of `keys` that the reply has adds its own row only. */
  lemma CommitRows(st: State, p: Params, uid: Uid, keys: seq<Uid>, items: map<Uid, Item>)
    requires uid in keys && uid in items
    ensures RowsFetched(st.table, Commit(st, p, uid, items[uid]).table, p, keys, items)
  {
    var row := TransferRow(p.srcMailbox, uid, Some(p.dstMailbox), None, items[uid].messageId);
    forall row' | row' in Replace(st.table, row) && row' !in st.table
      ensures exists u | u in keys && u in items ::
                row' == TransferRow(p.srcMailbox, u, Some(p.dstMailbox), None, items[u].messageId)
    {
      assert row' == row;
    }
  }

  /** A key of `keys` adds at most its own row, with the Message-ID of the reply's message. */
  lemma TransferRows(o: Oracle, st: State, p: Params, uid: Uid, items: map<Uid, Item>, keys: seq<Uid>)
    requires uid in keys
    ensures RowsFetched(st.table, Transfer(o, st, p, uid, items).table, p, keys, items)
  {
    if st.raised || Has(st.table, TransferKey(p.srcMailbox, uid)) || uid !in items {
    } else if p.dryRun {
      CommitRows(st, p, uid, keys, items);
    } else {
      var a := AppendFrom(o, st.history, st.dst, p.dstMailbox, uid, items[uid], 0);
      if !a.raised && o.status(|a.history|) == Ok {
        var moved := st.(history := Issue(o, a.history, Move(st.src, uid, ArchiveName(p.srcMailbox))), dst := a.dst);
        CommitRows(moved, p, uid, keys, items);
      }
    }
  }

  /** The keys, all of `batch`, add only rows of UIDs of `batch` that the reply has. */
  lemma {:induction false} TransferAllRows(o: Oracle, st: State, p: Params, keys: seq<Uid>, items: map<Uid, Item>, batch: seq<Uid>)
    requires forall u | u in keys :: u in batch
    ensures RowsFetched(st.table, TransferAll(o, st, p, keys, items).table, p, batch, items)
    decreases |keys|
  {
    if keys != [] && !st.raised {
      var next := Transfer(o, st, p, keys[0], items);
      TransferRows(o, st, p, keys[0], items, batch);
      TransferBehaves(o, st, p, keys[0], items);
      forall u | u in keys[1..] ensures u in batch {
        assert u in keys;
      }
      TransferAllRows(o, next, p, keys[1..], items, batch);
      RowsFetchedTrans(st.table, next.table, TransferAll(o, st, p, keys, items).table, p, batch, items);
    }
  }

  /** A batch adds only rows of UIDs of the batch that its own FETCH reply has. */
  lemma RunBatchRows(o: Oracle, st: State, p: Params, batch: seq<Uid>)
    ensures var f := FetchFrom(o, st.history, st.src, p.srcMailbox, batch, 0);
            f.data.Some? ==> RowsFetched(st.table, RunBatch(o, st, p, batch).table, p, batch, f.data.value)
  {
    var f := FetchFrom(o, st.history, st.src, p.srcMailbox, batch, 0);
    if !f.raised && f.data.Some? {
      var fetched := st.(history := f.history, src := f.src, raised := f.raised);
      TransferAllRows(o, fetched, p, batch, f.data.value, batch);
    }
  }

  /** APPENDs of the reply's message for a UID of `keys` the reply has, and MOVEs of it, act on that reply only. */
  lemma OnlyUidActs(h: seq<Event>, from: nat, uid: Uid, mailbox: string, archive: string,
                    keys: seq<Uid>, items: map<Uid, Item>, m: string)
    requires uid in keys && uid in items && OnlyUid(h, from, uid, mailbox, archive, items[uid])
    ensures ActsOn(h, from, keys, items, m)
  {
  }

  /** The commit of a UID of `keys` that the reply has acts on that reply only. */
  lemma CommitActs(st: State, p: Params, uid: Uid, keys: seq<Uid>, items: map<Uid, Item>)
    requires uid in keys && uid in items
    ensures ActsOn(Commit(st, p, uid, items[uid]).history, |st.history|, keys, items, p.srcMailbox)
  {
    var c := Commit(st, p, uid, items[uid]);
    assert c.history[|st.history|].call == Record(TransferKey(p.srcMailbox, uid));
    assert TransferKey(p.srcMailbox, uid) in FetchedKeys(p.srcMailbox, keys, items);
  }

  /** APPENDs and MOVEs of one new UID, outside dry-run, leave the ledger as it is. */
  lemma UidBehaves(h0: seq<Event>, h1: seq<Event>, t: Table, p: Params, uid: Uid, item: Item)
    requires h0 <= h1 && !p.dryRun && !Has(t, TransferKey(p.srcMailbox, uid))
    requires OnlyUid(h1, |h0|, uid, p.dstMailbox, ArchiveName(p.srcMailbox), item)
    ensures Behaves(h0, t, h1, t, p)
  {
    HasIsMembership(t, TransferKey(p.srcMailbox, uid));
    forall i | |h0| <= i < |h1| ensures !h1[i].call.Record? && Allowed(h1, i, p) {
    }
    NoRecords(h0, h1);
    forall k | k in Keys(t) ensures Untouched(h1, |h0|, p.srcMailbox, k) {
      forall i | |h0| <= i < |h1| ensures !Touches(h1[i], p.srcMailbox, k) {
      }
    }
  }

  /** A commit of a key the ledger lacks; outside dry-run, right after an OK MOVE of its UID. */
  lemma CommitBehaves(st: State, p: Params, uid: Uid, item: Item)
    requires !Has(st.table, TransferKey(p.srcMailbox, uid))
    requires !p.dryRun ==> && 0 < |st.history|
                           && st.history[|st.history| - 1] .call == Move(st.src, uid, ArchiveName(p.srcMailbox))
                           && st.history[|st.history| - 1].status == Ok
    ensures Behaves(st.history, st.table, Commit(st, p, uid, item).history, Commit(st, p, uid, item).table, p)
  {
    var key := TransferKey(p.srcMailbox, uid);
    var row := TransferRow(p.srcMailbox, uid, Some(p.dstMailbox), None, item.messageId);
    var c := Commit(st, p, uid, item);
    HasIsMembership(st.table, key);
    ReplaceKeys(st.table, row);
    assert Recorded(c.history, |st.history|) == {key} by {
      assert c.history[|st.history|].call == Record(key);
    }
    assert Allowed(c.history, |st.history|, p);
    forall row' | row' in st.table ensures row' in c.table {
      assert KeyOf(row') in Keys(st.table);
    }
    forall row' | row' in c.table && row' !in st.table
      ensures row'.srcMailbox == p.srcMailbox && row'.dstMailbox == Some(p.dstMailbox) && row'.dstUid.None?
    {
      assert row' == row;
    }
    if Unique(st.table) {
      ReplaceKeepsUnique(st.table, row);
    }
  }

  /**
   * One key of a fetched batch: a raised state, a key the ledger has and a
   * UID the FETCH reply lacks are skipped; otherwise the effects obey the
   * rules, and act on that UID only, with the message of the reply.
   */
  lemma TransferBehaves(o: Oracle, st: State, p: Params, uid: Uid, items: map<Uid, Item>)
    ensures Behaves(st.history, st.table, Transfer(o, st, p, uid, items).history, Transfer(o, st, p, uid, items).table, p)
    ensures st.raised || Has(st.table, TransferKey(p.srcMailbox, uid)) || uid !in items ==> Transfer(o, st, p, uid, items) == st
    ensures ActsOn(Transfer(o, st, p, uid, items).history, |st.history|, [uid], items, p.srcMailbox)
    ensures RowsFetched(st.table, Transfer(o, st, p, uid, items).table, p, [uid], items)
  {
    TransferActs(o, st, p, uid, items, [uid]);
    TransferRows(o, st, p, uid, items, [uid]);
    var key := TransferKey(p.srcMailbox, uid);
    if st.raised || Has(st.table, key) || uid !in items {
      QuietBehaves(st.history, st.history, st.table, p);
    } else if p.dryRun {
      CommitBehaves(st, p, uid, items[uid]);
    } else {
      var archive := ArchiveName(p.srcMailbox);
      var a := AppendFrom(o, st.history, st.dst, p.dstMailbox, uid, items[uid], 0);
      AppendOnlyUid(o, st.history, st.dst, p.dstMailbox, uid, items[uid], 0, archive);
      if a.raised {
        UidBehaves(st.history, a.history, st.table, p, uid, items[uid]);
      } else {
        var h1 := Issue(o, a.history, Move(st.src, uid, archive));
        assert OnlyUid(h1, |a.history|, uid, p.dstMailbox, archive, items[uid]);
        OnlyUidTrans(st.history, a.history, h1, uid, p.dstMailbox, archive, items[uid]);
        UidBehaves(st.history, h1, st.table, p, uid, items[uid]);
        if o.status(|a.history|) == Ok {
          var moved := st.(history := h1, dst := a.dst);
          CommitBehaves(moved, p, uid, items[uid]);
          BehavesTrans(st.history, st.table, h1, st.table,
                       Commit(moved, p, uid, items[uid]).history, Commit(moved, p, uid, items[uid]).table, p);
        }
      }
    }
  }

  /** A key of `keys` acts on its own UID only, with the message of the reply `items`. */
  lemma TransferActs(o: Oracle, st: State, p: Params, uid: Uid, items: map<Uid, Item>, keys: seq<Uid>)
    requires uid in keys
    ensures st.history <= Transfer(o, st, p, uid, items).history
    ensures ActsOn(Transfer(o, st, p, uid, items).history, |st.history|, keys, items, p.srcMailbox)
  {
    var m := p.srcMailbox;
    if st.raised || Has(st.table, TransferKey(m, uid)) || uid !in items {
    } else if p.dryRun {
      CommitActs(st, p, uid, keys, items);
    } else {
      var archive := ArchiveName(m);
      var a := AppendFrom(o, st.history, st.dst, p.dstMailbox, uid, items[uid], 0);
      AppendOnlyUid(o, st.history, st.dst, p.dstMailbox, uid, items[uid], 0, archive);
      if a.raised {
        OnlyUidActs(a.history, |st.history|, uid, p.dstMailbox, archive, keys, items, m);
      } else {
        var h1 := Issue(o, a.history, Move(st.src, uid, archive));
        assert OnlyUid(h1, |a.history|, uid, p.dstMailbox, archive, items[uid]);
        OnlyUidTrans(st.history, a.history, h1, uid, p.dstMailbox, archive, items[uid]);
        OnlyUidActs(h1, |st.history|, uid, p.dstMailbox, archive, keys, items, m);
        if o.status(|a.history|) == Ok {
          var moved := st.(history := h1, dst := a.dst);
          CommitActs(moved, p, uid, keys, items);
          ActsOnTrans(st.history, h1, Commit(moved, p, uid, items[uid]).history, keys, items, m);
        }
      }
    }
  }

  // ---------------------------------------------------------------- batches

  /** The keys of a batch, all of `batch`, act on UIDs of `batch` only, with the messages of the reply `items`. */
  lemma {:induction false} TransferAllActs(o: Oracle, st: State, p: Params, keys: seq<Uid>, items: map<Uid, Item>, batch: seq<Uid>)
    requires forall u | u in keys :: u in batch
    ensures st.history <= TransferAll(o, st, p, keys, items).history
    ensures ActsOn(TransferAll(o, st, p, keys, items).history, |st.history|, batch, items, p.srcMailbox)
    decreases |keys|
  {
    if keys == [] || st.raised {
    } else {
      var next := Transfer(o, st, p, keys[0], items);
      TransferActs(o, st, p, keys[0], items, batch);
      forall u | u in keys[1..] ensures u in batch {
        assert u in keys;
      }
      TransferAllActs(o, next, p, keys[1..], items, batch);
      ActsOnTrans(st.history, next.history, TransferAll(o, st, p, keys, items).history, batch, items, p.srcMailbox);
    }
  }

  /** The keys of a fetched batch, in order, until one raises: they obey the rules and act on the keys and the reply only. */
  lemma {:induction false} TransferAllBehaves(o: Oracle, st: State, p: Params, keys: seq<Uid>, items: map<Uid, Item>)
    ensures Behaves(st.history, st.table, TransferAll(o, st, p, keys, items).history, TransferAll(o, st, p, keys, items).table, p)
    ensures ActsOn(TransferAll(o, st, p, keys, items).history, |st.history|, keys, items, p.srcMailbox)
    ensures RowsFetched(st.table, TransferAll(o, st, p, keys, items).table, p, keys, items)
    decreases |keys|
  {
    TransferAllActs(o, st, p, keys, items, keys);
    TransferAllRows(o, st, p, keys, items, keys);
    if keys == [] || st.raised {
      QuietBehaves(st.history, st.history, st.table, p);
    } else {
      TransferBehaves(o, st, p, keys[0], items);
      TransferAllBehaves(o, Transfer(o, st, p, keys[0], items), p, keys[1..], items);
      BehavesTrans(st.history, st.table,
                   Transfer(o, st, p, keys[0], items).history, Transfer(o, st, p, keys[0], items).table,
                   TransferAll(o, st, p, keys, items).history, TransferAll(o, st, p, keys, items).table, p);
    }
  }

  /** The FETCH loop, reconnects and selects included, transfers nothing. */
  lemma {:induction false} FetchQuiet(o: Oracle, h: seq<Event>, src: SessionId, mailbox: string,
                                      batch: seq<Uid>, attempt: nat)
    ensures QuietFrom(FetchFrom(o, h, src, mailbox, batch, attempt).history, |h|)
    decreases FetchAttempts - attempt, 1
  {
    if attempt < FetchAttempts && o.status(|h|) == Aborted {
      RefetchQuiet(o, h, src, mailbox, batch, attempt);
    }
  }

  lemma {:induction false} RefetchQuiet(o: Oracle, h: seq<Event>, src: SessionId, mailbox: string,
                                        batch: seq<Uid>, attempt: nat)
    requires attempt < FetchAttempts && o.status(|h|) == Aborted
    ensures QuietFrom(FetchFrom(o, h, src, mailbox, batch, attempt).history, |h|)
    decreases FetchAttempts - attempt, 0
  {
    var h1 := Issue(o, h, Fetch(src, batch));
    var rc := ReconnectSpec(o, h1, Source, src);
    QuietTrans(h, h1, rc.history);
    if rc.session.Some? {
      var h2 := Issue(o, rc.history, Select(Source, rc.session.value, mailbox));
      QuietTrans(h, rc.history, h2);
      if o.status(|rc.history|) == Ok {
        assert FetchFrom(o, h, src, mailbox, batch, attempt) == FetchFrom(o, h2, rc.session.value, mailbox, batch, attempt + 1);
        FetchQuiet(o, h2, rc.session.value, mailbox, batch, attempt + 1);
        QuietTrans(h, h2, FetchFrom(o, h2, rc.session.value, mailbox, batch, attempt + 1).history);
      }
    }
  }

  /**
   * A batch acts only on data fetched since it began; when its FETCH loop
   * hands on data, every APPEND, MOVE and commit is of a UID of the batch
   * that this data has, and an APPEND sends its message.
   */
  lemma RunBatchFed(o: Oracle, st: State, p: Params, batch: seq<Uid>)
    ensures st.history <= RunBatch(o, st, p, batch).history
    ensures Fed(o, RunBatch(o, st, p, batch).history, |st.history|, p.srcMailbox)
    ensures var f := FetchFrom(o, st.history, st.src, p.srcMailbox, batch, 0);
            f.data.Some? ==> ActsOn(RunBatch(o, st, p, batch).history, |st.history|, batch, f.data.value, p.srcMailbox)
  {
    var f := FetchFrom(o, st.history, st.src, p.srcMailbox, batch, 0);
    FetchQuiet(o, st.history, st.src, p.srcMailbox, batch, 0);
    FetchData(o, st.history, st.src, p.srcMailbox, batch, 0, f);
    FetchedFed(o, st, p, batch, f);
  }

  /**
   * What follows a quiet FETCH loop whose data, if any, is the reply of its
   * last call, a successful FETCH of the batch: the transfers and the pause
   * act on UIDs of the batch with that reply only, and so on data fetched
   * since the batch began.
   */
  lemma FetchedFed(o: Oracle, st: State, p: Params, batch: seq<Uid>, f: Fetched)
    requires st.history <= f.history && QuietFrom(f.history, |st.history|)
    requires f.data.Some? ==> && |st.history| < |f.history| && f.history[|f.history| - 1] == Event(Fetch(f.src, batch), Ok)
                              && f.data == Some(o.fetchReply(|f.history| - 1))
    ensures var fetched := st.(history := f.history, src := f.src, raised := f.raised);
            var r := if f.raised || f.data.None? then fetched
                     else var k := TransferAll(o, fetched, p, batch, f.data.value);
                          if !k.raised && p.sleepBetween > 0 then k.(history := Note(k.history, Sleep(p.sleepBetween))) else k;
            && st.history <= r.history && Fed(o, r.history, |st.history|, p.srcMailbox)
            && (f.data.Some? ==> ActsOn(r.history, |st.history|, batch, f.data.value, p.srcMailbox))
  {
    var m := p.srcMailbox;
    QuietFed(o, st.history, f.history, m);
    if f.data.Some? {
      QuietActs(st.history, f.history, batch, f.data.value, m);
    }
    if !f.raised && f.data.Some? {
      var fetched := st.(history := f.history, src := f.src, raised := f.raised);
      var items := f.data.value;
      var k := TransferAll(o, fetched, p, batch, items);
      TransferAllActs(o, fetched, p, batch, items, batch);
      ActsOnTrans(st.history, f.history, k.history, batch, items, m);
      var h2 := if !k.raised && p.sleepBetween > 0 then Note(k.history, Sleep(p.sleepBetween)) else k.history;
      QuietActs(k.history, h2, batch, items, m);
      ActsOnTrans(st.history, k.history, h2, batch, items, m);
      FetchedStart(st.history, f.history, h2);
      ActsFed(o, h2, |st.history|, |f.history| - 1, batch, m);
    }
  }

  /** The quiet FETCH loop stays quiet, and its last event in place, in what follows it. */
  lemma FetchedStart(h0: seq<Event>, h1: seq<Event>, h2: seq<Event>)
    requires h0 <= h1 <= h2 && |h0| < |h1| && QuietFrom(h1, |h0|)
    ensures h2[|h1| - 1] == h1[|h1| - 1] && forall i | |h0| <= i <= |h1| - 1 :: Quiet(h2[i])
  {
    forall i | |h0| <= i <= |h1| - 1 ensures Quiet(h2[i]) {
      assert h2[i] == h1[i];
    }
  }

  /**
   * One batch: its effects obey the rules and act on the data of its own
   * FETCH only, the UIDs of the batch that its reply has with their
   * messages; a batch whose FETCH loop gives no data, or raises, transfers
   * nothing and leaves the ledger as it is.
   */
  lemma RunBatchBehaves(o: Oracle, st: State, p: Params, batch: seq<Uid>)
    ensures Behaves(st.history, st.table, RunBatch(o, st, p, batch).history, RunBatch(o, st, p, batch).table, p)
    ensures Fed(o, RunBatch(o, st, p, batch).history, |st.history|, p.srcMailbox)
    ensures var f := FetchFrom(o, st.history, st.src, p.srcMailbox, batch, 0);
            f.data.Some? ==> ActsOn(RunBatch(o, st, p, batch).history, |st.history|, batch, f.data.value, p.srcMailbox)
    ensures var f := FetchFrom(o, st.history, st.src, p.srcMailbox, batch, 0);
            f.data.Some? ==> RowsFetched(st.table, RunBatch(o, st, p, batch).table, p, batch, f.data.value)
    ensures var f := FetchFrom(o, st.history, st.src, p.srcMailbox, batch, 0);
            f.raised || f.data.None? ==> && RunBatch(o, st, p, batch).table == st.table
                                         && QuietFrom(RunBatch(o, st, p, batch).history, |st.history|)
  {
    RunBatchFed(o, st, p, batch);
    RunBatchRows(o, st, p, batch);
    var f := FetchFrom(o, st.history, st.src, p.srcMailbox, batch, 0);
    FetchQuiet(o, st.history, st.src, p.srcMailbox, batch, 0);
    QuietBehaves(st.history, f.history, st.table, p);
    if !f.raised && f.data.Some? {
      var fetched := st.(history := f.history, src := f.src, raised := f.raised);
      var k := TransferAll(o, fetched, p, batch, f.data.value);
      TransferAllBehaves(o, fetched, p, batch, f.data.value);
      BehavesTrans(st.history, st.table, f.history, st.table, k.history, k.table, p);
      if !k.raised && p.sleepBetween > 0 {
        var h2 := Note(k.history, Sleep(p.sleepBetween));
        QuietBehaves(k.history, h2, k.table, p);
        BehavesTrans(st.history, st.table, k.history, k.table, h2, k.table, p);
      }
    }
  }

  /** `RunBatchBehaves` for every state and batch at once, as the loop lemma needs it. */
  lemma BatchStepBehaves(o: Oracle, p: Params)
    ensures forall s: State, b: seq<Uid> ::
              Behaves(s.history, s.table, BatchStep(o, p)(s, b).history, BatchStep(o, p)(s, b).table, p)
  {
    forall s: State, b: seq<Uid>
      ensures Behaves(s.history, s.table, BatchStep(o, p)(s, b).history, BatchStep(o, p)(s, b).table, p)
    {
      RunBatchBehaves(o, s, p, b);
    }
  }

  lemma StateTrans(a: State, b: State, c: State, p: Params)
    requires Behaves(a.history, a.table, b.history, b.table, p) && Behaves(b.history, b.table, c.history, c.table, p)
    ensures Behaves(a.history, a.table, c.history, c.table, p)
  {
    BehavesTrans(a.history, a.table, b.history, b.table, c.history, c.table, p);
  }

  /** A step that obeys the rules gives a loop that obeys them. */
  lemma {:induction false} SlicesBehave(step: (State, seq<Uid>) -> State, st: State, size: nat, uids: seq<Uid>, i: nat, p: Params)
    requires size > 0
    requires forall s: State, b: seq<Uid> :: Behaves(s.history, s.table, step(s, b).history, step(s, b).table, p)
    ensures Behaves(st.history, st.table, Slices(step, st, size, uids, i).history, Slices(step, st, size, uids, i).table, p)
    decreases |uids| - i
  {
    if i >= |uids| || st.raised {
      QuietBehaves(st.history, st.history, st.table, p);
    } else {
      var next := step(st, uids[i .. Min(i + size, |uids|)]);
      SlicesBehave(step, next, size, uids, i + size, p);
      StateTrans(st, next, Slices(step, st, size, uids, i), p);
    }
  }

  lemma RunFromBehaves(o: Oracle, st: State, p: Params, uids: seq<Uid>, i: nat)
    requires p.batch > 0
    ensures Behaves(st.history, st.table, RunFrom(o, st, p, uids, i).history, RunFrom(o, st, p, uids, i).table, p)
    ensures Fed(o, RunFrom(o, st, p, uids, i).history, |st.history|, p.srcMailbox)
  {
    RunFromFed(o, st, p, uids, i);
    BatchStepBehaves(o, p);
    SlicesBehave(BatchStep(o, p), st, p.batch, uids, i, p);
  }

  /** `RunBatchFed` for every state and batch at once. */
  lemma BatchStepFed(o: Oracle, p: Params)
    ensures forall s: State, b: seq<Uid> ::
              s.history <= BatchStep(o, p)(s, b).history && Fed(o, BatchStep(o, p)(s, b).history, |s.history|, p.srcMailbox)
  {
    forall s: State, b: seq<Uid>
      ensures s.history <= BatchStep(o, p)(s, b).history && Fed(o, BatchStep(o, p)(s, b).history, |s.history|, p.srcMailbox)
    {
      RunBatchFed(o, s, p, b);
    }
  }

  /** A step that acts only on data fetched within it gives a loop that acts only on data fetched within the loop. */
  lemma {:induction false} SlicesFed(step: (State, seq<Uid>) -> State, st: State, size: nat, uids: seq<Uid>, i: nat,
                                     o: Oracle, m: string)
    requires size > 0
    requires forall s: State, b: seq<Uid> :: s.history <= step(s, b).history && Fed(o, step(s, b).history, |s.history|, m)
    ensures st.history <= Slices(step, st, size, uids, i).history
    ensures Fed(o, Slices(step, st, size, uids, i).history, |st.history|, m)
    decreases |uids| - i
  {
    if i >= |uids| || st.raised {
      QuietFed(o, st.history, st.history, m);
    } else {
      var next := step(st, uids[i .. Min(i + size, |uids|)]);
      SlicesFed(step, next, size, uids, i + size, o, m);
      FedTrans(o, st.history, next.history, Slices(step, st, size, uids, i).history, m);
    }
  }

  lemma RunFromFed(o: Oracle, st: State, p: Params, uids: seq<Uid>, i: nat)
    requires p.batch > 0
    ensures st.history <= RunFrom(o, st, p, uids, i).history
    ensures Fed(o, RunFrom(o, st, p, uids, i).history, |st.history|, p.srcMailbox)
  {
    BatchStepFed(o, p);
    SlicesFed(BatchStep(o, p), st, p.batch, uids, i, o, p.srcMailbox);
  }

  // ---------------------------------------------------------------- the mailbox

  lemma FinishFed(o: Oracle, st: State, path: Path, m: string)
    ensures st.history <= Finish(o, st, path).history && Fed(o, Finish(o, st, path).history, |st.history|, m)
  {
    QuietFed(o, st.history, Finish(o, st, path).history, m);
  }

  /** After the search, every transfer acts on the data of a successful FETCH made after the search. */
  lemma AfterSearchFed(o: Oracle, st: State, p: Params, reply: Reply)
    ensures Fed(o, AfterSearch(o, st, p, reply).history, |st.history|, p.srcMailbox)
  {
    var m := p.srcMailbox;
    match reply
    case Raised =>
      FinishFed(o, st, SearchFailed, m);
    case NoAttempt =>
      FinishFed(o, st.(raised := true), Transferring, m);
    case Found(uids) =>
      if p.batch == 0 {
        FinishFed(o, st.(raised := true), Transferring, m);
      } else if p.batch < 0 {
        FinishFed(o, st, Transferring, m);
      } else {
        var run := RunFrom(o, st, p, uids, 0);
        RunFromFed(o, st, p, uids, 0);
        FinishFed(o, run, Transferring, m);
        FedTrans(o, st.history, run.history, Finish(o, run, Transferring).history, m);
      }
  }

  /** In the whole of `migrate_mailbox`, every transfer acts on the data of a successful FETCH of this call. */
  lemma MigrateFed(o: Oracle, h: seq<Event>, t: Table, p: Params)
    ensures Fed(o, Migrate(o, h, t, p).history, |h|, p.srcMailbox)
  {
    var m := p.srcMailbox;
    var cs := ConnectSpec(o, h, Source);
    if cs.session.None? {
      QuietFed(o, h, cs.history, m);
      return;
    }
    var cd := ConnectSpec(o, cs.history, Destination);
    QuietTrans(h, cs.history, cd.history);
    if cd.session.None? {
      QuietFed(o, h, cd.history, m);
      return;
    }
    var st := State(cd.history, t, cs.session.value, cd.session.value, false);
    var en := EnsureSpec(o, st.history, Destination, st.dst, p.dstMailbox);
    QuietTrans(h, cd.history, en.history);
    if !en.ok {
      FinishFed(o, st.(history := en.history), DestinationUnavailable, m);
      QuietFed(o, h, en.history, m);
      FedTrans(o, h, en.history, Migrate(o, h, t, p).history, m);
      return;
    }
    var ar := EnsureSpec(o, en.history, Source, st.src, ArchiveName(m));
    var h1 := Issue(o, ar.history, Select(Source, st.src, m));
    QuietTrans(h, en.history, ar.history);
    QuietTrans(h, ar.history, h1);
    if o.status(|ar.history|) != Ok {
      FinishFed(o, st.(history := h1), SourceUnselectable, m);
      QuietFed(o, h, h1, m);
      FedTrans(o, h, h1, Migrate(o, h, t, p).history, m);
      return;
    }
    var se := SafeSearchSpec(o, h1, st.src, "ALL", SearchRetries, SearchBaseDelay);
    QuietSearch(o, h1, st.src, "ALL", 1, SearchRetries, SearchBaseDelay);
    QuietTrans(h, h1, se.history);
    QuietFed(o, h, se.history, m);
    AfterSearchFed(o, st.(history := se.history), p, se.reply);
    FedTrans(o, h, se.history, Migrate(o, h, t, p).history, m);
  }

  lemma FinishBehaves(o: Oracle, st: State, path: Path, p: Params)
    ensures Behaves(st.history, st.table, Finish(o, st, path).history, Finish(o, st, path).table, p)
  {
    QuietBehaves(st.history, Finish(o, st, path).history, st.table, p);
  }

  /** What follows a successful SEARCH: the batches (if the batch size admits them), then the logouts. */
  lemma {:induction false} TransferringBehaves(o: Oracle, st: State, p: Params, uids: seq<Uid>)
    ensures var r := if p.batch == 0 then Finish(o, st.(raised := true), Transferring)
                     else if p.batch < 0 then Finish(o, st, Transferring)
                     else Finish(o, RunFrom(o, st, p, uids, 0), Transferring);
            Behaves(st.history, st.table, r.history, r.table, p) && Fed(o, r.history, |st.history|, p.srcMailbox)
  {
    AfterSearchFed(o, st, p, Found(uids));
    if p.batch == 0 {
      FinishBehaves(o, st.(raised := true), Transferring, p);
    } else if p.batch < 0 {
      FinishBehaves(o, st, Transferring, p);
    } else {
      RunFromBehaves(o, st, p, uids, 0);
      FinishBehaves(o, RunFrom(o, st, p, uids, 0), Transferring, p);
      BehavesTrans(st.history, st.table, RunFrom(o, st, p, uids, 0).history, RunFrom(o, st, p, uids, 0).table,
                   Finish(o, RunFrom(o, st, p, uids, 0), Transferring).history,
                   Finish(o, RunFrom(o, st, p, uids, 0), Transferring).table, p);
    }
  }

  /**
   * The whole of `migrate_mailbox`: only the destination mailbox gets
   * APPENDs and only the archive gets MOVEs (none in dry-run); a key the
   * ledger already has gets neither, nor a second commit; every commit is of
   * the source mailbox and, outside dry-run, directly follows a successful
   * MOVE of its UID; the ledger's keys grow by exactly the keys committed,
   * each committed once, old rows stay and the UNIQUE constraint is kept;
   * every APPEND, MOVE and commit is of a UID that a successful FETCH of
   * this same call returned, and an APPEND sends the message of that reply.
   */
  lemma MigrateBehaves(o: Oracle, h: seq<Event>, t: Table, p: Params)
    ensures Behaves(h, t, Migrate(o, h, t, p).history, Migrate(o, h, t, p).table, p)
    ensures Fed(o, Migrate(o, h, t, p).history, |h|, p.srcMailbox)
  {
    MigrateObeys(o, h, t, p);
    MigrateFed(o, h, t, p);
  }

  /** The rules of `Behaves` for the whole of `migrate_mailbox`, path by path. */
  lemma MigrateObeys(o: Oracle, h: seq<Event>, t: Table, p: Params)
    ensures Behaves(h, t, Migrate(o, h, t, p).history, Migrate(o, h, t, p).table, p)
  {
    var cs := ConnectSpec(o, h, Source);
    if cs.session.None? {
      QuietBehaves(h, cs.history, t, p);
      return;
    }
    var cd := ConnectSpec(o, cs.history, Destination);
    QuietTrans(h, cs.history, cd.history);
    if cd.session.None? {
      QuietBehaves(h, cd.history, t, p);
      return;
    }
    var st := State(cd.history, t, cs.session.value, cd.session.value, false);
    var en := EnsureSpec(o, st.history, Destination, st.dst, p.dstMailbox);
    QuietTrans(h, cd.history, en.history);
    QuietBehaves(h, en.history, t, p);
    if !en.ok {
      FinishBehaves(o, st.(history := en.history), DestinationUnavailable, p);
      BehavesTrans(h, t, en.history, t, Migrate(o, h, t, p).history, Migrate(o, h, t, p).table, p);
      return;
    }
    var ar := EnsureSpec(o, en.history, Source, st.src, ArchiveName(p.srcMailbox));
    var h1 := Issue(o, ar.history, Select(Source, st.src, p.srcMailbox));
    QuietTrans(h, en.history, ar.history);
    QuietTrans(h, ar.history, h1);
    QuietBehaves(h, h1, t, p);
    if o.status(|ar.history|) != Ok {
      FinishBehaves(o, st.(history := h1), SourceUnselectable, p);
      BehavesTrans(h, t, h1, t, Migrate(o, h, t, p).history, Migrate(o, h, t, p).table, p);
      return;
    }
    var se := SafeSearchSpec(o, h1, st.src, "ALL", SearchRetries, SearchBaseDelay);
    SafeSearchSchedule(o, h1, st.src, "ALL", SearchRetries, SearchBaseDelay);
    QuietTrans(h, h1, se.history);
    QuietBehaves(h, se.history, t, p);
    var searched := st.(history := se.history);
    match se.reply
    case Raised =>
      FinishBehaves(o, searched, SearchFailed, p);
      BehavesTrans(h, t, se.history, t, Migrate(o, h, t, p).history, Migrate(o, h, t, p).table, p);
    case NoAttempt =>
      FinishBehaves(o, searched.(raised := true), Transferring, p);
      BehavesTrans(h, t, se.history, t, Migrate(o, h, t, p).history, Migrate(o, h, t, p).table, p);
    case Found(uids) =>
      TransferringBehaves(o, searched, p, uids);
      BehavesTrans(h, t, se.history, t, Migrate(o, h, t, p).history, Migrate(o, h, t, p).table, p);
  }

  /** With the UNIQUE constraint, a key's row is what the existence query finds. */
  lemma UniqueFind(t: Table, row: Row)
    requires Unique(t) && row in t
    ensures Find(t, KeyOf(row)) == Some(row)
  {
    var r := Find(t, KeyOf(row));
    var i :| 0 <= i < |t| && t[i] == row;
    var j :| 0 <= j < |t| && t[j] == r.value;
    assert KeyOf(t[i]) == KeyOf(t[j]);
  }

  /**
   * Running `migrate_mailbox` again over a ledger that already records a
   * key: that UID gets no APPEND, no MOVE and no second commit, and its row
   * is left as it was.
   */
  lemma RerunSkipsRecorded(o: Oracle, h: seq<Event>, t: Table, p: Params, row: Row)
    requires Unique(t) && row in t
    ensures var r := Migrate(o, h, t, p);
            && Untouched(r.history, |h|, p.srcMailbox, KeyOf(row))
            && Find(r.table, KeyOf(row)) == Some(row)
  {
    var r := Migrate(o, h, t, p);
    MigrateBehaves(o, h, t, p);
    assert KeyOf(row) in Keys(t);
    UniqueFind(r.table, row);
  }

  /**
   * A dry run issues no APPEND and no MOVE, and still commits: the
   * ledger's keys grow by the keys it records.
   */
  lemma DryRunOnlyRecords(o: Oracle, h: seq<Event>, t: Table, p: Params)
    requires p.dryRun
    ensures var r := Migrate(o, h, t, p);
            && (forall i | |h| <= i < |r.history| :: !r.history[i].call.Append? && !r.history[i].call.Move?)
            && Keys(r.table) == Keys(t) + Recorded(r.history, |h|)
  {
    var r := Migrate(o, h, t, p);
    MigrateBehaves(o, h, t, p);
    forall i | |h| <= i < |r.history| ensures !r.history[i].call.Append? && !r.history[i].call.Move? {
      assert Allowed(r.history, i, p);
    }
  }

  /** The ledger keys of the UIDs of `keys` that the FETCH reply `items` has. */
  ghost function FetchedKeys(m: string, keys: seq<Uid>, items: map<Uid, Item>): set<Key> {
    set u | u in keys && u in items :: TransferKey(m, u)
  }

  /**
   * In a dry run, a UID the FETCH reply has is committed unless the ledger
   * has its key already, with nothing sent; either way the ledger then has
   * its key, and nothing raises.
   */
  lemma DryRunCommits(o: Oracle, st: State, p: Params, uid: Uid, items: map<Uid, Item>)
    requires p.dryRun && !st.raised && uid in items
    ensures var r := Transfer(o, st, p, uid, items);
            var key := TransferKey(p.srcMailbox, uid);
            && !r.raised
            && Keys(r.table) == Keys(st.table) + {key}
            && (if Has(st.table, key) then r.history == st.history else r.history == Note(st.history, Record(key)))
  {
    var key := TransferKey(p.srcMailbox, uid);
    HasIsMembership(st.table, key);
    if !Has(st.table, key) {
      ReplaceKeys(st.table, TransferRow(p.srcMailbox, uid, Some(p.dstMailbox), None, items[uid].messageId));
    }
  }

  /**
   * In a dry run, the keys of a fetched batch add to the ledger exactly the
   * keys of the UIDs the FETCH reply has, and nothing raises.
   */
  lemma {:induction false} DryRunTransferAll(o: Oracle, st: State, p: Params, keys: seq<Uid>, items: map<Uid, Item>)
    requires p.dryRun && !st.raised
    ensures var r := TransferAll(o, st, p, keys, items);
            !r.raised && Keys(r.table) == Keys(st.table) + FetchedKeys(p.srcMailbox, keys, items)
    decreases |keys|
  {
    var m := p.srcMailbox;
    if keys != [] {
      var next := Transfer(o, st, p, keys[0], items);
      var first: set<Key> := if keys[0] in items then {TransferKey(m, keys[0])} else {};
      if keys[0] in items {
        DryRunCommits(o, st, p, keys[0], items);
      }
      assert !next.raised && Keys(next.table) == Keys(st.table) + first;
      DryRunTransferAll(o, next, p, keys[1..], items);
      assert FetchedKeys(m, keys, items) == first + FetchedKeys(m, keys[1..], items) by {
        forall k | k in FetchedKeys(m, keys, items) ensures k in first + FetchedKeys(m, keys[1..], items) {
          var u :| u in keys && u in items && k == TransferKey(m, u);
          if u != keys[0] {
            assert u in keys[1..];
          }
        }
        forall k | k in FetchedKeys(m, keys[1..], items) ensures k in FetchedKeys(m, keys, items) {
          var u :| u in keys[1..] && u in items && k == TransferKey(m, u);
          assert u in keys;
        }
      }
    }
  }

  /**
   * A dry-run batch raises exactly when its FETCH loop raises; otherwise it
   * adds to the ledger exactly the keys of the batch's UIDs that the FETCH
   * reply has, and none when the FETCH loop gives no data.
   */
  lemma DryRunBatch(o: Oracle, st: State, p: Params, batch: seq<Uid>)
    requires p.dryRun && !st.raised
    ensures var f := FetchFrom(o, st.history, st.src, p.srcMailbox, batch, 0);
            var r := RunBatch(o, st, p, batch);
            && r.raised == f.raised
            && Keys(r.table) == Keys(st.table) + (if f.data.Some? then FetchedKeys(p.srcMailbox, batch, f.data.value) else {})
  {
    var f := FetchFrom(o, st.history, st.src, p.srcMailbox, batch, 0);
    FetchOutcome(o, st.history, st.src, p.srcMailbox, batch, 0);
    if !f.raised && f.data.Some? {
      DryRunTransferAll(o, st.(history := f.history, src := f.src, raised := f.raised), p, batch, f.data.value);
    }
  }
}
