/**
 * How `migrate_mailbox` leaves: the early returns transfer nothing and log
 * both sessions out, a failed connect leaves without any logout, and every
 * other way out ends with the logouts of the `finally` block.
 */
module Exits {
  import opened Wrappers
  import opened Ledger
  import opened Session
  import opened Search
  import opened Pipeline
  import opened Lifecycle

  /**
   * The history ends with the logouts of `src` and `dst`: the source's, which
   * raised (and then `raised` holds), or the source's and then the
   * destination's (and a failed destination logout raises).
   */
  ghost predicate ClosedAtEnd(h: seq<Event>, from: nat, raised: bool, src: SessionId, dst: SessionId) {
    || (&& from + 1 <= |h|
        && h[|h| - 1].call == Logout(Source, src) && h[|h| - 1].status != Ok
        && raised)
    || (&& from + 2 <= |h|
        && h[|h| - 2].call == Logout(Source, src) && h[|h| - 2].status == Ok
        && h[|h| - 1].call == Logout(Destination, dst)
        && (h[|h| - 1].status != Ok ==> raised))
  }

  /** The history ends with the logouts of some pair of sessions. */
  ghost predicate LoggedOutAtEnd(h: seq<Event>, from: nat, raised: bool) {
    exists src: SessionId, dst: SessionId :: ClosedAtEnd(h, from, raised, src, dst)
  }

  /** An event that is no logout. */
  predicate NoLogout(e: Event) {
    !e.call.Logout?
  }

  /** A call that reads the source mailbox: a SELECT on the source, a SEARCH or a FETCH. */
  predicate ReadsSource(c: Call) {
    c.Fetch? || c.Search? || (c.Select? && c.ep == Source)
  }

  /** No call from `from` on reads the source mailbox. */
  ghost predicate SourceUnread(h: seq<Event>, from: nat) {
    forall i | from <= i < |h| :: !ReadsSource(h[i].call)
  }

  /** No call from `from` on is a FETCH. */
  ghost predicate Unfetched(h: seq<Event>, from: nat) {
    forall i | from <= i < |h| :: !h[i].call.Fetch?
  }

  lemma UnreadTrans(h0: seq<Event>, h1: seq<Event>, h2: seq<Event>)
    requires h0 <= h1 <= h2 && SourceUnread(h1, |h0|) && SourceUnread(h2, |h1|)
    ensures SourceUnread(h2, |h0|) && Unfetched(h2, |h0|)
  {
    forall i | |h0| <= i < |h1| ensures !ReadsSource(h2[i].call) {
      assert h2[i] == h1[i];
    }
  }

  lemma UnfetchedTrans(h0: seq<Event>, h1: seq<Event>, h2: seq<Event>)
    requires h0 <= h1 <= h2 && Unfetched(h1, |h0|) && Unfetched(h2, |h1|)
    ensures Unfetched(h2, |h0|)
  {
    forall i | |h0| <= i < |h1| ensures !h2[i].call.Fetch? {
      assert h2[i] == h1[i];
    }
  }

  /** `safe_search` issues SEARCH calls and sleeps, and no FETCH. */
  lemma {:induction false} SearchUnfetched(o: Oracle, h: seq<Event>, s: SessionId, criteria: string,
                                           k: int, maxRetries: int, baseDelay: int)
    requires 1 <= k
    ensures Unfetched(SearchFrom(o, h, s, criteria, k, maxRetries, baseDelay).history, |h|)
    decreases maxRetries - k
  {
    if k <= maxRetries && o.status(|h|) == Aborted && k < maxRetries && Backoff(baseDelay, k) >= 0 {
      var h2 := Note(Issue(o, h, Search(s, criteria)), Sleep(Backoff(baseDelay, k)));
      SearchUnfetched(o, h2, s, criteria, k + 1, maxRetries, baseDelay);
      UnfetchedTrans(h, h2, SearchFrom(o, h2, s, criteria, k + 1, maxRetries, baseDelay).history);
    }
  }

  /** The logouts of `src` then `dst`; an exception already propagating keeps propagating. */
  lemma CloseShape(o: Oracle, h: seq<Event>, src: SessionId, dst: SessionId, raised: bool)
    ensures var c := CloseSpec(o, h, src, dst, raised);
            && ClosedAtEnd(c.history, |h|, c.raised, src, dst)
            && c.history[|h|].call == Logout(Source, src)
            && (|c.history| == |h| + 2 ==> c.history[|h| + 1].call == Logout(Destination, dst))
            && (raised ==> c.raised)
  {
  }

  /**
   * Every exit through the `finally` block ends with the logouts of the
   * sessions in use, and then every session opened since `from` is logged
   * out, when the sessions in use were the only open ones.
   */
  lemma FinishShape(o: Oracle, st: State, path: Path)
    ensures var r := Finish(o, st, path);
            && ClosedAtEnd(r.history, |st.history|, r.raised, st.src, st.dst)
            && (forall from: nat | Live(st, from) :: SessionsClosed(r.history, from))
            && r.path == path && r.table == st.table
            && (st.raised ==> r.raised)
            && st.history <= r.history && QuietFrom(r.history, |st.history|)
            && SourceUnread(r.history, |st.history|) && Unfetched(r.history, |st.history|)
  {
    CloseShape(o, st.history, st.src, st.dst, st.raised);
    forall from: nat | Live(st, from) ensures SessionsClosed(Finish(o, st, path).history, from) {
      FinishCloses(o, st, path, from);
    }
  }

  /**
   * The connects come first.  If either raises, `migrate_mailbox` raises
   * without logging anything out (the source session opened first stays
   * open), touches nothing and leaves the ledger as it is.
   */
  lemma ConnectFailure(o: Oracle, h: seq<Event>, t: Table, p: Params)
    ensures var r := Migrate(o, h, t, p);
            && |h| + 1 <= |r.history|
            && r.history[|h|].call == Connect(Source)
            && (o.status(|h|) == Ok ==> |h| + 2 <= |r.history| && r.history[|h| + 1].call == Connect(Destination))
            && (r.path.Unconnected? <==> o.status(|h|) != Ok || o.status(|h| + 1) != Ok)
            && (r.path.Unconnected? ==>
                  && r.raised && r.table == t && QuietFrom(r.history, |h|)
                  && |r.history| <= |h| + 2
                  && forall i | |h| <= i < |r.history| :: NoLogout(r.history[i]))
  {
    var cs := ConnectSpec(o, h, Source);
    if cs.session.Some? {
      var cd := ConnectSpec(o, cs.history, Destination);
      QuietTrans(h, cs.history, cd.history);
      if cd.session.Some? {
        ConnectedExits(o, h, t, p);
      }
    }
  }

  /**
   * Once both sessions are open, every way out of `migrate_mailbox` ends with
   * the logouts, and every session the call opened, reconnects included, is
   * logged out, except the destination session in use when the final source
   * logout raised.
   */
  lemma ConnectedExits(o: Oracle, h: seq<Event>, t: Table, p: Params)
    requires o.status(|h|) == Ok && o.status(|h| + 1) == Ok
    ensures var r := Migrate(o, h, t, p);
            && !r.path.Unconnected?
            && LoggedOutAtEnd(r.history, |h| + 2, r.raised) && SessionsClosed(r.history, |h|)
            && |h| + 2 <= |r.history| && r.history[|h|].call == Connect(Source)
            && r.history[|h| + 1].call == Connect(Destination)
            && (r.path == DestinationUnavailable <==> o.status(|h| + 2) != Ok && o.status(|h| + 3) != Ok)
  {
    var cs := ConnectSpec(o, h, Source);
    var cd := ConnectSpec(o, cs.history, Destination);
    var st := State(cd.history, t, cs.session.value, cd.session.value, false);
    var en := EnsureSpec(o, st.history, Destination, st.dst, p.dstMailbox);
    MigrateCloses(o, h, t, p);
    assert en.ok <==> o.status(|h| + 2) == Ok || o.status(|h| + 3) == Ok;
    if !en.ok {
      FinishShape(o, st.(history := en.history), DestinationUnavailable);
      LoggedOutAtEndWeaken(Migrate(o, h, t, p).history, |en.history|, |h| + 2, Migrate(o, h, t, p).raised);
      return;
    }
    var ar := EnsureSpec(o, en.history, Source, st.src, ArchiveName(p.srcMailbox));
    var h1 := Issue(o, ar.history, Select(Source, st.src, p.srcMailbox));
    if o.status(|ar.history|) != Ok {
      FinishShape(o, st.(history := h1), SourceUnselectable);
      LoggedOutAtEndWeaken(Migrate(o, h, t, p).history, |h1|, |h| + 2, Migrate(o, h, t, p).raised);
      return;
    }
    var se := SafeSearchSpec(o, h1, st.src, "ALL", SearchRetries, SearchBaseDelay);
    AfterSearchShape(o, st.(history := se.history), p, se.reply);
    LoggedOutAtEndWeaken(Migrate(o, h, t, p).history, |se.history|, |h| + 2, Migrate(o, h, t, p).raised);
  }

  /**
   * `ensure_mailbox` runs for the destination mailbox and, once that
   * succeeded, for the archive `Migrated/<src>`, whatever the dry-run flag:
   * a dry run too CREATEs either mailbox when its SELECT fails.
   */
  lemma EnsuresEvenInDryRun(o: Oracle, h: seq<Event>, t: Table, p: Params)
    requires o.status(|h|) == Ok && o.status(|h| + 1) == Ok
    ensures var r := Migrate(o, h, t, p);
            && |h| + 4 <= |r.history|
            && r.history[|h| + 2].call == Select(Destination, |h| + 1, p.dstMailbox)
            && (o.status(|h| + 2) != Ok ==> r.history[|h| + 3].call == Create(Destination, |h| + 1, p.dstMailbox))
            && (o.status(|h| + 2) == Ok ==>
                  && r.history[|h| + 3].call == Select(Source, |h|, ArchiveName(p.srcMailbox))
                  && (o.status(|h| + 3) != Ok ==> r.history[|h| + 4].call == Create(Source, |h|, ArchiveName(p.srcMailbox))))
  {
    var cs := ConnectSpec(o, h, Source);
    var cd := ConnectSpec(o, cs.history, Destination);
    var st := State(cd.history, t, cs.session.value, cd.session.value, false);
    var en := EnsureSpec(o, st.history, Destination, st.dst, p.dstMailbox);
    var r := Migrate(o, h, t, p);
    if !en.ok {
      assert en.history <= Finish(o, st.(history := en.history), DestinationUnavailable).history;
      return;
    }
    var ar := EnsureSpec(o, en.history, Source, st.src, ArchiveName(p.srcMailbox));
    var h1 := Issue(o, ar.history, Select(Source, st.src, p.srcMailbox));
    if o.status(|ar.history|) != Ok {
      assert h1 <= Finish(o, st.(history := h1), SourceUnselectable).history;
      return;
    }
    var se := SafeSearchSpec(o, h1, st.src, "ALL", SearchRetries, SearchBaseDelay);
    assert h1 <= se.history <= r.history;
  }

  /**
   * Once both sessions are open, the early exits keep the ledger and transfer
   * nothing; an unavailable destination leaves before anything reads the
   * source mailbox, and no early exit fetches a message.
   */
  lemma EarlyExits(o: Oracle, h: seq<Event>, t: Table, p: Params)
    requires o.status(|h|) == Ok && o.status(|h| + 1) == Ok
    ensures var r := Migrate(o, h, t, p);
            && (r.path != Transferring ==> r.table == t && QuietFrom(r.history, |h|) && Unfetched(r.history, |h|))
            && (r.path == DestinationUnavailable ==> SourceUnread(r.history, |h|))
  {
    EarlyQuiet(o, h, t, p);
    EarlyUnread(o, h, t, p);
  }

  /** The early exits keep the ledger and transfer nothing. */
  lemma EarlyQuiet(o: Oracle, h: seq<Event>, t: Table, p: Params)
    requires o.status(|h|) == Ok && o.status(|h| + 1) == Ok
    ensures var r := Migrate(o, h, t, p);
            r.path != Transferring ==> r.table == t && QuietFrom(r.history, |h|)
  {
    var cs := ConnectSpec(o, h, Source);
    var cd := ConnectSpec(o, cs.history, Destination);
    QuietTrans(h, cs.history, cd.history);
    var st := State(cd.history, t, cs.session.value, cd.session.value, false);
    var en := EnsureSpec(o, st.history, Destination, st.dst, p.dstMailbox);
    QuietTrans(h, cd.history, en.history);
    if !en.ok {
      FinishShape(o, st.(history := en.history), DestinationUnavailable);
      QuietTrans(h, en.history, Migrate(o, h, t, p).history);
      return;
    }
    var ar := EnsureSpec(o, en.history, Source, st.src, ArchiveName(p.srcMailbox));
    var h1 := Issue(o, ar.history, Select(Source, st.src, p.srcMailbox));
    QuietTrans(h, en.history, ar.history);
    QuietTrans(h, ar.history, h1);
    if o.status(|ar.history|) != Ok {
      FinishShape(o, st.(history := h1), SourceUnselectable);
      QuietTrans(h, h1, Migrate(o, h, t, p).history);
      return;
    }
    var se := SafeSearchSpec(o, h1, st.src, "ALL", SearchRetries, SearchBaseDelay);
    QuietSearch(o, h1, st.src, "ALL", 1, SearchRetries, SearchBaseDelay);
    QuietTrans(h, h1, se.history);
    AfterSearchShape(o, st.(history := se.history), p, se.reply);
    if se.reply.Raised? {
      QuietTrans(h, se.history, Migrate(o, h, t, p).history);
    }
  }

  /** No early exit fetches; an unavailable destination leaves before anything reads the source mailbox. */
  lemma EarlyUnread(o: Oracle, h: seq<Event>, t: Table, p: Params)
    requires o.status(|h|) == Ok && o.status(|h| + 1) == Ok
    ensures var r := Migrate(o, h, t, p);
            && (r.path != Transferring ==> Unfetched(r.history, |h|))
            && (r.path == DestinationUnavailable ==> SourceUnread(r.history, |h|))
  {
    var cs := ConnectSpec(o, h, Source);
    var cd := ConnectSpec(o, cs.history, Destination);
    UnreadTrans(h, cs.history, cd.history);
    var st := State(cd.history, t, cs.session.value, cd.session.value, false);
    var en := EnsureSpec(o, st.history, Destination, st.dst, p.dstMailbox);
    UnreadTrans(h, cd.history, en.history);
    if !en.ok {
      FinishShape(o, st.(history := en.history), DestinationUnavailable);
      UnreadTrans(h, en.history, Migrate(o, h, t, p).history);
      return;
    }
    var ar := EnsureSpec(o, en.history, Source, st.src, ArchiveName(p.srcMailbox));
    var h1 := Issue(o, ar.history, Select(Source, st.src, p.srcMailbox));
    UnfetchedTrans(h, en.history, ar.history);
    UnfetchedTrans(h, ar.history, h1);
    if o.status(|ar.history|) != Ok {
      FinishShape(o, st.(history := h1), SourceUnselectable);
      UnfetchedTrans(h, h1, Migrate(o, h, t, p).history);
      return;
    }
    var se := SafeSearchSpec(o, h1, st.src, "ALL", SearchRetries, SearchBaseDelay);
    SearchUnfetched(o, h1, st.src, "ALL", 1, SearchRetries, SearchBaseDelay);
    UnfetchedTrans(h, h1, se.history);
    AfterSearchShape(o, st.(history := se.history), p, se.reply);
    if se.reply.Raised? {
      UnfetchedTrans(h, se.history, Migrate(o, h, t, p).history);
    }
  }

  lemma LoggedOutAtEndWeaken(h: seq<Event>, a: nat, b: nat, raised: bool)
    requires b <= a && LoggedOutAtEnd(h, a, raised)
    ensures LoggedOutAtEnd(h, b, raised)
  {
    var src: SessionId, dst: SessionId :| ClosedAtEnd(h, a, raised, src, dst);
    assert ClosedAtEnd(h, b, raised, src, dst);
  }

  /**
   * After the search every path ends with the logouts, which close every
   * session opened since `from` when the sessions in use were the only open
   * ones; a failed search takes
   * the search-failure exit, which keeps the ledger, transfers nothing and
   * fetches nothing, and every other reply leads to the transfer.
   */
  lemma AfterSearchShape(o: Oracle, st: State, p: Params, reply: Reply)
    ensures var r := AfterSearch(o, st, p, reply);
            && LoggedOutAtEnd(r.history, |st.history|, r.raised) && st.history <= r.history
            && (forall from: nat | Live(st, from) :: SessionsClosed(r.history, from))
            && r.path == (if reply.Raised? then SearchFailed else Transferring)
            && (reply.Raised? ==> r.table == st.table && QuietFrom(r.history, |st.history|)
                                  && Unfetched(r.history, |st.history|))
  {
    forall from: nat | Live(st, from) ensures SessionsClosed(AfterSearch(o, st, p, reply).history, from) {
      AfterSearchCloses(o, st, p, reply, from);
    }
    match reply
    case Raised =>
      FinishShape(o, st, SearchFailed);
    case NoAttempt =>
      FinishShape(o, st.(raised := true), Transferring);
    case Found(uids) =>
      if p.batch == 0 {
        FinishShape(o, st.(raised := true), Transferring);
      } else if p.batch < 0 {
        FinishShape(o, st, Transferring);
      } else {
        var run := RunFrom(o, st, p, uids, 0);
        RunFromPrefix(o, st, p, uids, 0);
        FinishShape(o, run, Transferring);
        LoggedOutAtEndWeaken(Finish(o, run, Transferring).history, |run.history|, |st.history|, Finish(o, run, Transferring).raised);
      }
  }

  /**
   * `range(0, len(uids), 0)` raises: with a batch size of zero the run
   * raises after the search, and still logs both sessions out; a negative
   * batch size runs no batch at all.
   */
  lemma BatchSizeEdges(o: Oracle, h: seq<Event>, t: Table, p: Params)
    requires p.batch <= 0
    ensures var r := Migrate(o, h, t, p);
            && r.table == t && QuietFrom(r.history, |h|)
            && (r.path == Transferring && p.batch == 0 ==> r.raised)
  {
    var cs := ConnectSpec(o, h, Source);
    if cs.session.None? {
      return;
    }
    var cd := ConnectSpec(o, cs.history, Destination);
    QuietTrans(h, cs.history, cd.history);
    if cd.session.None? {
      return;
    }
    var st := State(cd.history, t, cs.session.value, cd.session.value, false);
    var en := EnsureSpec(o, st.history, Destination, st.dst, p.dstMailbox);
    QuietTrans(h, cd.history, en.history);
    if !en.ok {
      FinishShape(o, st.(history := en.history), DestinationUnavailable);
      QuietTrans(h, en.history, Migrate(o, h, t, p).history);
      return;
    }
    var ar := EnsureSpec(o, en.history, Source, st.src, ArchiveName(p.srcMailbox));
    var h1 := Issue(o, ar.history, Select(Source, st.src, p.srcMailbox));
    QuietTrans(h, en.history, ar.history);
    QuietTrans(h, ar.history, h1);
    if o.status(|ar.history|) != Ok {
      FinishShape(o, st.(history := h1), SourceUnselectable);
      QuietTrans(h, h1, Migrate(o, h, t, p).history);
      return;
    }
    var se := SafeSearchSpec(o, h1, st.src, "ALL", SearchRetries, SearchBaseDelay);
    SafeSearchSchedule(o, h1, st.src, "ALL", SearchRetries, SearchBaseDelay);
    QuietTrans(h, h1, se.history);
    var searched := st.(history := se.history);
    var fin := if se.reply.Raised? then Finish(o, searched, SearchFailed)
               else if se.reply.NoAttempt? || p.batch == 0 then Finish(o, searched.(raised := true), Transferring)
               else Finish(o, searched, Transferring);
    assert Migrate(o, h, t, p) == fin;
    FinishShape(o, if se.reply.Raised? || (!se.reply.NoAttempt? && p.batch < 0) then searched else searched.(raised := true),
                fin.path);
    QuietTrans(h, se.history, fin.history);
  }
}
