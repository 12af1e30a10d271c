/**
 * Which sessions `migrate_mailbox` leaves open: every reconnect logs the
 * stale session out before it opens a new one, and the `finally` block logs
 * out the sessions in use at the end, so every session the call opens is
 * logged out, except the destination's when the source logout raised.
 */
module Lifecycle {
  import opened Wrappers
  import opened Ledger
  import opened Session
  import opened Search
  import opened Batching
  import opened Pipeline

  /** Event `e` opens a session on `ep`. */
  predicate Opens(e: Event, ep: Endpoint) {
    e.call == Connect(ep) && e.status == Ok
  }

  /** The session opened at `c` is logged out later in `h`. */
  ghost predicate LoggedOutAfter(h: seq<Event>, ep: Endpoint, c: nat) {
    exists k | c < k < |h| :: h[k].call == Logout(ep, c)
  }

  /** Every session opened on `ep` from `from` on is logged out later, except the one in use, `live`. */
  ghost predicate Retired(h: seq<Event>, from: nat, ep: Endpoint, live: SessionId) {
    forall c | from <= c < |h| && Opens(h[c], ep) && c != live :: LoggedOutAfter(h, ep, c)
  }

  /** Every session opened on `ep` from `from` on is logged out later. */
  ghost predicate AllClosed(h: seq<Event>, from: nat, ep: Endpoint) {
    forall c | from <= c < |h| && Opens(h[c], ep) :: LoggedOutAfter(h, ep, c)
  }

  /** No event from `from` on opens a session on `ep`. */
  ghost predicate NoOpens(h: seq<Event>, from: nat, ep: Endpoint) {
    forall i | from <= i < |h| :: !Opens(h[i], ep)
  }

  /** The sessions of `st` are the only ones opened since `from` that are not logged out yet. */
  ghost predicate Live(st: State, from: nat) {
    Retired(st.history, from, Source, st.src) && Retired(st.history, from, Destination, st.dst)
  }

  /** The history ends with a source logout that raised. */
  predicate SourceLogoutRaised(h: seq<Event>) {
    0 < |h| && h[|h| - 1].call.Logout? && h[|h| - 1].call.ep == Source && h[|h| - 1].status != Ok
  }

  /**
   * Every session opened from `from` on is logged out; when the source
   * logout of the `finally` block raised, at most one destination session,
   * the one in use, is not.
   */
  ghost predicate SessionsClosed(h: seq<Event>, from: nat) {
    && AllClosed(h, from, Source)
    && (if SourceLogoutRaised(h) then exists d: SessionId :: Retired(h, from, Destination, d)
        else AllClosed(h, from, Destination))
  }

  function Other(ep: Endpoint): Endpoint {
    if ep == Source then Destination else Source
  }

  // ---------------------------------------------------------------- plumbing

  lemma RetiredExtend(h1: seq<Event>, h2: seq<Event>, from: nat, ep: Endpoint, live: SessionId)
    requires h1 <= h2 && Retired(h1, from, ep, live) && NoOpens(h2, |h1|, ep)
    ensures Retired(h2, from, ep, live)
  {
    forall c | from <= c < |h2| && Opens(h2[c], ep) && c != live ensures LoggedOutAfter(h2, ep, c) {
      assert c < |h1| && h2[c] == h1[c];
      var k :| c < k < |h1| && h1[k].call == Logout(ep, c);
      assert h2[k] == h1[k];
    }
  }

  lemma LiveExtend(st: State, h2: seq<Event>, from: nat)
    requires st.history <= h2 && Live(st, from) && NoOpens(h2, |st.history|, Source) && NoOpens(h2, |st.history|, Destination)
    ensures Live(st.(history := h2), from)
  {
    RetiredExtend(st.history, h2, from, Source, st.src);
    RetiredExtend(st.history, h2, from, Destination, st.dst);
  }

  lemma NoOpensTrans(h0: seq<Event>, h1: seq<Event>, h2: seq<Event>, ep: Endpoint)
    requires h0 <= h1 <= h2 && NoOpens(h1, |h0|, ep) && NoOpens(h2, |h1|, ep)
    ensures NoOpens(h2, |h0|, ep)
  {
    forall i | |h0| <= i < |h1| ensures h2[i] == h1[i] {
    }
  }

  /** A reconnect logs the stale session out, so only the new session, if any, stays open. */
  lemma ReconnectRetires(o: Oracle, h: seq<Event>, from: nat, ep: Endpoint, stale: SessionId)
    requires Retired(h, from, ep, stale)
    ensures var rc := ReconnectSpec(o, h, ep, stale);
            && Retired(rc.history, from, ep, if rc.session.Some? then rc.session.value else stale)
            && NoOpens(rc.history, |h|, Other(ep))
  {
    var rc := ReconnectSpec(o, h, ep, stale);
    var live := if rc.session.Some? then rc.session.value else stale;
    forall c | from <= c < |rc.history| && Opens(rc.history[c], ep) && c != live
      ensures LoggedOutAfter(rc.history, ep, c)
    {
      assert c < |h| && rc.history[c] == h[c];
      if c == stale {
        assert rc.history[|h|].call == Logout(ep, c);
      } else {
        var k :| c < k < |h| && h[k].call == Logout(ep, c);
        assert rc.history[k] == h[k];
      }
    }
  }

  /** `ensure_mailbox` opens no session. */
  lemma EnsureNoOpens(o: Oracle, h: seq<Event>, ep: Endpoint, s: SessionId, mailbox: string, e: Endpoint)
    ensures NoOpens(EnsureSpec(o, h, ep, s, mailbox).history, |h|, e)
  {
  }

  /** `safe_search` opens no session. */
  lemma {:induction false} SearchNoOpens(o: Oracle, h: seq<Event>, s: SessionId, criteria: string,
                                         k: int, maxRetries: int, baseDelay: int, e: Endpoint)
    requires 1 <= k
    ensures NoOpens(SearchFrom(o, h, s, criteria, k, maxRetries, baseDelay).history, |h|, e)
    decreases maxRetries - k
  {
    if k <= maxRetries && o.status(|h|) == Aborted && k < maxRetries && Backoff(baseDelay, k) >= 0 {
      var h2 := Note(Issue(o, h, Search(s, criteria)), Sleep(Backoff(baseDelay, k)));
      SearchNoOpens(o, h2, s, criteria, k + 1, maxRetries, baseDelay, e);
      NoOpensTrans(h, h2, SearchFrom(o, h2, s, criteria, k + 1, maxRetries, baseDelay).history, e);
    }
  }

  // ---------------------------------------------------------------- retry loops

  /** The FETCH loop leaves open only the source session it hands on, and opens no destination session. */
  lemma {:induction false} FetchRetires(o: Oracle, h: seq<Event>, from: nat, src: SessionId, mailbox: string,
                                        batch: seq<Uid>, attempt: nat)
    requires Retired(h, from, Source, src)
    ensures var f := FetchFrom(o, h, src, mailbox, batch, attempt);
            Retired(f.history, from, Source, f.src) && NoOpens(f.history, |h|, Destination)
    decreases FetchAttempts - attempt, 1
  {
    if attempt < FetchAttempts {
      if o.status(|h|) == Aborted {
        RefetchRetires(o, h, from, src, mailbox, batch, attempt);
      } else {
        RetiredExtend(h, Issue(o, h, Fetch(src, batch)), from, Source, src);
      }
    }
  }

  lemma {:induction false} RefetchRetires(o: Oracle, h: seq<Event>, from: nat, src: SessionId, mailbox: string,
                                          batch: seq<Uid>, attempt: nat)
    requires Retired(h, from, Source, src) && attempt < FetchAttempts && o.status(|h|) == Aborted
    ensures var f := FetchFrom(o, h, src, mailbox, batch, attempt);
            Retired(f.history, from, Source, f.src) && NoOpens(f.history, |h|, Destination)
    decreases FetchAttempts - attempt, 0
  {
    var h1 := Issue(o, h, Fetch(src, batch));
    var rc := ReconnectSpec(o, h1, Source, src);
    ReselectRetires(o, h, from, src, mailbox, batch);
    if rc.session.Some? && o.status(|rc.history|) == Ok {
      var s := rc.session.value;
      var h2 := Issue(o, rc.history, Select(Source, s, mailbox));
      var rest := FetchFrom(o, h2, s, mailbox, batch, attempt + 1);
      assert FetchFrom(o, h, src, mailbox, batch, attempt) == rest;
      FetchRetires(o, h2, from, s, mailbox, batch, attempt + 1);
      NoOpensTrans(h, h2, rest.history, Destination);
    }
  }

  /** The aborted FETCH, the reconnect and the re-SELECT leave open only the session the loop goes on with. */
  lemma ReselectRetires(o: Oracle, h: seq<Event>, from: nat, src: SessionId, mailbox: string, batch: seq<Uid>)
    requires Retired(h, from, Source, src)
    ensures var h1 := Issue(o, h, Fetch(src, batch));
            var rc := ReconnectSpec(o, h1, Source, src);
            && Retired(rc.history, from, Source, if rc.session.Some? then rc.session.value else src)
            && NoOpens(rc.history, |h|, Destination)
            && (rc.session.Some? ==>
                  var h2 := Issue(o, rc.history, Select(Source, rc.session.value, mailbox));
                  Retired(h2, from, Source, rc.session.value) && NoOpens(h2, |h|, Destination))
  {
    var h1 := Issue(o, h, Fetch(src, batch));
    RetiredExtend(h, h1, from, Source, src);
    var rc := ReconnectSpec(o, h1, Source, src);
    ReconnectRetires(o, h1, from, Source, src);
    NoOpensTrans(h, h1, rc.history, Destination);
    if rc.session.Some? {
      var s := rc.session.value;
      var h2 := Issue(o, rc.history, Select(Source, s, mailbox));
      RetiredExtend(rc.history, h2, from, Source, s);
      NoOpensTrans(h, rc.history, h2, Destination);
    }
  }

  /** The APPEND loop leaves open only the destination session it hands on, and opens no source session. */
  lemma {:induction false} AppendRetires(o: Oracle, h: seq<Event>, from: nat, dst: SessionId, mailbox: string,
                                         uid: Uid, item: Item, attempt: nat)
    requires Retired(h, from, Destination, dst)
    ensures var a := AppendFrom(o, h, dst, mailbox, uid, item, attempt);
            Retired(a.history, from, Destination, a.dst) && NoOpens(a.history, |h|, Source)
    decreases AppendAttempts - attempt, 1
  {
    if attempt < AppendAttempts {
      if o.status(|h|) == Aborted {
        ReappendRetires(o, h, from, dst, mailbox, uid, item, attempt);
      } else {
        RetiredExtend(h, Issue(o, h, Append(dst, mailbox, uid, item)), from, Destination, dst);
      }
    }
  }

  lemma {:induction false} ReappendRetires(o: Oracle, h: seq<Event>, from: nat, dst: SessionId, mailbox: string,
                                           uid: Uid, item: Item, attempt: nat)
    requires Retired(h, from, Destination, dst) && attempt < AppendAttempts && o.status(|h|) == Aborted
    ensures var a := AppendFrom(o, h, dst, mailbox, uid, item, attempt);
            Retired(a.history, from, Destination, a.dst) && NoOpens(a.history, |h|, Source)
    decreases AppendAttempts - attempt, 0
  {
    var h1 := Issue(o, h, Append(dst, mailbox, uid, item));
    RetiredExtend(h, h1, from, Destination, dst);
    var rc := ReconnectSpec(o, h1, Destination, dst);
    ReconnectRetires(o, h1, from, Destination, dst);
    NoOpensTrans(h, h1, rc.history, Source);
    if rc.session.Some? {
      var d := rc.session.value;
      var en := EnsureSpec(o, rc.history, Destination, d, mailbox);
      EnsureNoOpens(o, rc.history, Destination, d, mailbox, Destination);
      EnsureNoOpens(o, rc.history, Destination, d, mailbox, Source);
      RetiredExtend(rc.history, en.history, from, Destination, d);
      NoOpensTrans(h, rc.history, en.history, Source);
      assert AppendFrom(o, h, dst, mailbox, uid, item, attempt) == AppendFrom(o, en.history, d, mailbox, uid, item, attempt + 1);
      AppendRetires(o, en.history, from, d, mailbox, uid, item, attempt + 1);
      NoOpensTrans(h, en.history, AppendFrom(o, en.history, d, mailbox, uid, item, attempt + 1).history, Source);
    }
  }

  // ---------------------------------------------------------------- keys and batches

  /** One key keeps the sessions in use the only open ones. */
  lemma TransferRetires(o: Oracle, st: State, p: Params, uid: Uid, items: map<Uid, Item>, from: nat)
    requires Live(st, from)
    ensures Live(Transfer(o, st, p, uid, items), from)
  {
    if st.raised || Has(st.table, TransferKey(p.srcMailbox, uid)) || uid !in items {
    } else if p.dryRun {
      LiveExtend(st, Commit(st, p, uid, items[uid]).history, from);
    } else {
      var a := AppendFrom(o, st.history, st.dst, p.dstMailbox, uid, items[uid], 0);
      AppendRetires(o, st.history, from, st.dst, p.dstMailbox, uid, items[uid], 0);
      RetiredExtend(st.history, a.history, from, Source, st.src);
      var appended := st.(history := a.history, dst := a.dst);
      assert Live(appended, from);
      if !a.raised {
        var moved := appended.(history := Issue(o, a.history, Move(st.src, uid, ArchiveName(p.srcMailbox))));
        LiveExtend(appended, moved.history, from);
        if o.status(|a.history|) == Ok {
          LiveExtend(moved, Commit(moved, p, uid, items[uid]).history, from);
        }
      }
    }
  }

  lemma {:induction false} TransferAllRetires(o: Oracle, st: State, p: Params, keys: seq<Uid>, items: map<Uid, Item>, from: nat)
    requires Live(st, from)
    ensures Live(TransferAll(o, st, p, keys, items), from)
    decreases |keys|
  {
    if keys != [] && !st.raised {
      TransferRetires(o, st, p, keys[0], items, from);
      TransferAllRetires(o, Transfer(o, st, p, keys[0], items), p, keys[1..], items, from);
    }
  }

  /** One batch keeps the sessions in use the only open ones. */
  lemma RunBatchRetires(o: Oracle, st: State, p: Params, batch: seq<Uid>, from: nat)
    requires Live(st, from)
    ensures Live(RunBatch(o, st, p, batch), from)
  {
    var f := FetchFrom(o, st.history, st.src, p.srcMailbox, batch, 0);
    FetchRetires(o, st.history, from, st.src, p.srcMailbox, batch, 0);
    RetiredExtend(st.history, f.history, from, Destination, st.dst);
    var fetched := st.(history := f.history, src := f.src, raised := f.raised);
    assert Live(fetched, from);
    if !f.raised && f.data.Some? {
      var k := TransferAll(o, fetched, p, batch, f.data.value);
      TransferAllRetires(o, fetched, p, batch, f.data.value, from);
      if !k.raised && p.sleepBetween > 0 {
        LiveExtend(k, Note(k.history, Sleep(p.sleepBetween)), from);
      }
    }
  }

  lemma BatchStepRetires(o: Oracle, p: Params, from: nat)
    ensures forall s: State, b: seq<Uid> | Live(s, from) :: Live(BatchStep(o, p)(s, b), from)
  {
    forall s: State, b: seq<Uid> | Live(s, from) ensures Live(BatchStep(o, p)(s, b), from) {
      RunBatchRetires(o, s, p, b, from);
    }
  }

  lemma {:induction false} SlicesRetire(step: (State, seq<Uid>) -> State, st: State, size: nat, uids: seq<Uid>, i: nat, from: nat)
    requires size > 0 && Live(st, from)
    requires forall s: State, b: seq<Uid> | Live(s, from) :: Live(step(s, b), from)
    ensures Live(Slices(step, st, size, uids, i), from)
    decreases |uids| - i
  {
    if i < |uids| && !st.raised {
      SlicesRetire(step, step(st, uids[i .. Min(i + size, |uids|)]), size, uids, i + size, from);
    }
  }

  /** The batch loop keeps the sessions it hands on the only open ones, reconnects included. */
  lemma RunFromRetires(o: Oracle, st: State, p: Params, uids: seq<Uid>, i: nat, from: nat)
    requires p.batch > 0 && Live(st, from)
    ensures Live(RunFrom(o, st, p, uids, i), from)
  {
    BatchStepRetires(o, p, from);
    SlicesRetire(BatchStep(o, p), st, p.batch, uids, i, from);
  }

  // ---------------------------------------------------------------- the mailbox

  /** The `finally` logouts of the sessions in use close every session opened since `from`. */
  lemma FinishCloses(o: Oracle, st: State, path: Path, from: nat)
    requires Live(st, from)
    ensures SessionsClosed(Finish(o, st, path).history, from)
  {
    var h := st.history;
    var c := CloseSpec(o, h, st.src, st.dst, st.raised);
    var h1 := Issue(o, h, Logout(Source, st.src));
    RetiredExtend(h, c.history, from, Source, st.src);
    RetiredExtend(h, c.history, from, Destination, st.dst);
    forall k | from <= k < |c.history| && Opens(c.history[k], Source) ensures LoggedOutAfter(c.history, Source, k) {
      if k == st.src {
        assert c.history[|h|].call == Logout(Source, k);
      }
    }
    if o.status(|h|) == Ok {
      forall k | from <= k < |c.history| && Opens(c.history[k], Destination)
        ensures LoggedOutAfter(c.history, Destination, k)
      {
        if k == st.dst {
          assert c.history[|h1|].call == Logout(Destination, k);
        }
      }
    }
  }

  /** After the search, every session opened since `from` is closed by the end of the call. */
  lemma AfterSearchCloses(o: Oracle, st: State, p: Params, reply: Reply, from: nat)
    requires Live(st, from)
    ensures SessionsClosed(AfterSearch(o, st, p, reply).history, from)
  {
    match reply
    case Raised =>
      FinishCloses(o, st, SearchFailed, from);
    case NoAttempt =>
      FinishCloses(o, st.(raised := true), Transferring, from);
    case Found(uids) =>
      if p.batch == 0 {
        FinishCloses(o, st.(raised := true), Transferring, from);
      } else if p.batch < 0 {
        FinishCloses(o, st, Transferring, from);
      } else {
        RunFromRetires(o, st, p, uids, 0, from);
        FinishCloses(o, RunFrom(o, st, p, uids, 0), Transferring, from);
      }
  }

  /**
   * Once both connects succeeded, `migrate_mailbox` logs out every session
   * it opened, the first ones and every reconnect's, except the destination
   * session in use when the final source logout raised.
   */
  lemma MigrateCloses(o: Oracle, h: seq<Event>, t: Table, p: Params)
    requires o.status(|h|) == Ok && o.status(|h| + 1) == Ok
    ensures SessionsClosed(Migrate(o, h, t, p).history, |h|)
  {
    var cs := ConnectSpec(o, h, Source);
    var cd := ConnectSpec(o, cs.history, Destination);
    var st := State(cd.history, t, |h|, |h| + 1, false);
    assert Live(st, |h|);
    var en := EnsureSpec(o, st.history, Destination, st.dst, p.dstMailbox);
    EnsureNoOpens(o, st.history, Destination, st.dst, p.dstMailbox, Source);
    EnsureNoOpens(o, st.history, Destination, st.dst, p.dstMailbox, Destination);
    LiveExtend(st, en.history, |h|);
    if !en.ok {
      FinishCloses(o, st.(history := en.history), DestinationUnavailable, |h|);
      return;
    }
    var ar := EnsureSpec(o, en.history, Source, st.src, ArchiveName(p.srcMailbox));
    EnsureNoOpens(o, en.history, Source, st.src, ArchiveName(p.srcMailbox), Source);
    EnsureNoOpens(o, en.history, Source, st.src, ArchiveName(p.srcMailbox), Destination);
    LiveExtend(st.(history := en.history), ar.history, |h|);
    var h1 := Issue(o, ar.history, Select(Source, st.src, p.srcMailbox));
    LiveExtend(st.(history := ar.history), h1, |h|);
    if o.status(|ar.history|) != Ok {
      FinishCloses(o, st.(history := h1), SourceUnselectable, |h|);
      return;
    }
    var se := SafeSearchSpec(o, h1, st.src, "ALL", SearchRetries, SearchBaseDelay);
    SearchNoOpens(o, h1, st.src, "ALL", 1, SearchRetries, SearchBaseDelay, Source);
    SearchNoOpens(o, h1, st.src, "ALL", 1, SearchRetries, SearchBaseDelay, Destination);
    LiveExtend(st.(history := h1), se.history, |h|);
    AfterSearchCloses(o, st.(history := se.history), p, se.reply, |h|);
  }
}
