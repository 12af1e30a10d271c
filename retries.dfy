/**
 * The FETCH and APPEND retry loops of `migrate_mailbox`: how many attempts
 * they make, which outcomes end them, and what running out of attempts
 * means (a skipped batch; a MOVE of a message no APPEND delivered).
 */
module Retries {
  import opened Wrappers
  import opened Ledger
  import opened Session
  import opened Pipeline

  /** The calls that are retried. */
  datatype Kind = FetchKind | AppendKind

  predicate OfKind(c: Call, kind: Kind) {
    match kind
    case FetchKind => c.Fetch?
    case AppendKind => c.Append?
  }

  /** The number of events of `h` from position `lo` up to `hi` whose call is of the kind `kind`. */
  function CountIn(h: seq<Event>, lo: nat, hi: nat, kind: Kind): (n: nat)
    requires lo <= hi <= |h|
    ensures n <= hi - lo
    decreases hi
  {
    if lo == hi then 0 else CountIn(h, lo, hi - 1, kind) + (if OfKind(h[hi - 1].call, kind) then 1 else 0)
  }

  /** The last event of `h`, an event after position `from`, satisfies its kind and status. */
  predicate LastIs(h: seq<Event>, from: nat, kind: Kind, status: Status) {
    from < |h| && OfKind(h[|h| - 1].call, kind) && h[|h| - 1].status == status
  }

  /** The last event of `h`, after position `from`, is a reconnect (or, for FETCH, a re-select) that raised. */
  predicate LastRecoveryFailed(h: seq<Event>, from: nat, kind: Kind) {
    && from < |h| && h[|h| - 1].status != Ok
    && (h[|h| - 1].call.Connect? || (kind == FetchKind && h[|h| - 1].call.Select?))
  }

  /** Past a non-empty extension, what the last event is does not depend on where the segment starts. */
  lemma LastAfter(h: seq<Event>, a: nat, b: nat, kind: Kind)
    requires a <= b < |h|
    ensures forall st: Status :: LastIs(h, a, kind, st) == LastIs(h, b, kind, st)
    ensures LastRecoveryFailed(h, a, kind) == LastRecoveryFailed(h, b, kind)
  {
  }

  /** Extending the history does not change the count of a segment it already had. */
  lemma {:induction false} CountPrefix(h1: seq<Event>, h2: seq<Event>, lo: nat, hi: nat, kind: Kind)
    requires h1 <= h2 && lo <= hi <= |h1|
    ensures CountIn(h1, lo, hi, kind) == CountIn(h2, lo, hi, kind)
    decreases hi
  {
    if lo < hi {
      assert h1[hi - 1] == h2[hi - 1];
      CountPrefix(h1, h2, lo, hi - 1, kind);
    }
  }

  lemma {:induction false} CountConcat(h: seq<Event>, a: nat, b: nat, c: nat, kind: Kind)
    requires a <= b <= c <= |h|
    ensures CountIn(h, a, c, kind) == CountIn(h, a, b, kind) + CountIn(h, b, c, kind)
    decreases c - b
  {
    if b < c {
      CountConcat(h, a, b, c - 1, kind);
    }
  }

  /** Counting the calls from `|h0|` on piece by piece. */
  lemma CountSplit(h0: seq<Event>, h1: seq<Event>, h2: seq<Event>, kind: Kind)
    requires h0 <= h1 <= h2
    ensures CountIn(h2, |h0|, |h2|, kind) == CountIn(h1, |h0|, |h1|, kind) + CountIn(h2, |h1|, |h2|, kind)
  {
    CountConcat(h2, |h0|, |h1|, |h2|, kind);
    CountPrefix(h1, h2, |h0|, |h1|, kind);
  }

  /** A segment without calls of the kind counts none. */
  lemma {:induction false} CountNone(h: seq<Event>, lo: nat, hi: nat, kind: Kind)
    requires lo <= hi <= |h| && forall i | lo <= i < hi :: !OfKind(h[i].call, kind)
    ensures CountIn(h, lo, hi, kind) == 0
    decreases hi
  {
    if lo < hi {
      CountNone(h, lo, hi - 1, kind);
    }
  }

  /** Every call of the kind from `from` on, except one that is the last event, was aborted. */
  ghost predicate AbortedUntilLast(h: seq<Event>, from: nat, kind: Kind) {
    forall i | from <= i < |h| - 1 && OfKind(h[i].call, kind) :: h[i].status == Aborted
  }

  lemma AbortedUntilLastTrans(h0: seq<Event>, h1: seq<Event>, h2: seq<Event>, kind: Kind)
    requires h0 <= h1 <= h2 && |h0| < |h1|
    requires OfKind(h1[|h1| - 1].call, kind) ==> h1[|h1| - 1].status == Aborted
    requires AbortedUntilLast(h1, |h0|, kind) && AbortedUntilLast(h2, |h1|, kind)
    ensures AbortedUntilLast(h2, |h0|, kind)
  {
    forall i | |h0| <= i < |h2| - 1 && OfKind(h2[i].call, kind) ensures h2[i].status == Aborted {
      if i < |h1| {
        assert h2[i] == h1[i];
      }
    }
  }

  /** No call of the kind from `from` on. */
  ghost predicate NoneOf(h: seq<Event>, from: nat, kind: Kind) {
    forall i | from <= i < |h| :: !OfKind(h[i].call, kind)
  }

  lemma NoneOfTrans(h0: seq<Event>, h1: seq<Event>, h2: seq<Event>, kind: Kind)
    requires h0 <= h1 <= h2 && NoneOf(h1, |h0|, kind) && NoneOf(h2, |h1|, kind)
    ensures NoneOf(h2, |h0|, kind)
  {
    forall i | |h0| <= i < |h1| ensures h2[i] == h1[i] {
    }
  }

  /** One aborted call of the kind, then a recovery with no call of the kind. */
  lemma RecoveryCount(h: seq<Event>, h2: seq<Event>, kind: Kind)
    requires h <= h2 && |h| < |h2| && OfKind(h2[|h|].call, kind) && h2[|h|].status == Aborted
    requires NoneOf(h2, |h| + 1, kind)
    ensures CountIn(h2, |h|, |h2|, kind) == 1 && AbortedUntilLast(h2, |h|, kind)
    ensures |h| + 1 < |h2| ==> !OfKind(h2[|h2| - 1].call, kind)
  {
    assert CountIn(h2, |h|, |h| + 1, kind) == 1;
    CountNone(h2, |h| + 1, |h2|, kind);
    CountConcat(h2, |h|, |h| + 1, |h2|, kind);
  }

  /**
   * From `from` on, at most `n` calls of the kind, every one but a final one
   * aborted, and all `n` of them unless the loop `settled` (by a final
   * success or an exception).
   */
  ghost predicate Counted(h: seq<Event>, from: nat, kind: Kind, n: nat, settled: bool) {
    && from <= |h|
    && CountIn(h, from, |h|, kind) <= n
    && AbortedUntilLast(h, from, kind)
    && (!settled ==> CountIn(h, from, |h|, kind) == n)
  }

  /** One aborted call and its recovery, followed by a run of the remaining attempts. */
  lemma CombineCounts(h: seq<Event>, h2: seq<Event>, h3: seq<Event>, kind: Kind, n: nat, s1: bool, s2: bool)
    requires n > 0 && h <= h2 <= h3 && |h| + 1 < |h2| && (s2 ==> s1)
    requires CountIn(h2, |h|, |h2|, kind) == 1 && AbortedUntilLast(h2, |h|, kind)
    requires !OfKind(h2[|h2| - 1].call, kind)
    requires Counted(h3, |h2|, kind, n - 1, s2)
    ensures Counted(h3, |h|, kind, n, s1)
  {
    CountSplit(h, h2, h3, kind);
    if |h2| < |h3| {
      AbortedUntilLastTrans(h, h2, h3, kind);
    }
  }

  // ---------------------------------------------------------------- FETCH

  /**
   * The FETCH loop from `attempt` on makes at most `3 - attempt` FETCH
   * calls, every one but a final one aborted; when it ends with no data and
   * nothing raised, it made all of them (and the batch is skipped).
   */
  lemma {:induction false} FetchCount(o: Oracle, h: seq<Event>, src: SessionId, mailbox: string,
                                      batch: seq<Uid>, attempt: nat, r: Fetched)
    requires attempt <= FetchAttempts && r == FetchFrom(o, h, src, mailbox, batch, attempt)
    ensures Counted(r.history, |h|, FetchKind, FetchAttempts - attempt, r.data.Some? || r.raised)
    decreases FetchAttempts - attempt, 1
  {
    if attempt < FetchAttempts {
      var h1 := Issue(o, h, Fetch(src, batch));
      assert CountIn(h1, |h|, |h1|, FetchKind) == 1;
      if o.status(|h|) == Aborted {
        RefetchCount(o, h, h1, src, mailbox, batch, attempt, r);
      }
    }
  }

  lemma {:induction false} RefetchCount(o: Oracle, h: seq<Event>, h1: seq<Event>, src: SessionId, mailbox: string,
                                        batch: seq<Uid>, attempt: nat, r: Fetched)
    requires attempt < FetchAttempts && o.status(|h|) == Aborted && r == FetchFrom(o, h, src, mailbox, batch, attempt)
    requires h1 == Issue(o, h, Fetch(src, batch))
    ensures Counted(r.history, |h|, FetchKind, FetchAttempts - attempt, r.data.Some? || r.raised)
    decreases FetchAttempts - attempt, 0
  {
    var rc := ReconnectSpec(o, h1, Source, src);
    FetchRecovery(o, h1, src, mailbox);
    if rc.session.None? {
      RecoveryCount(h, rc.history, FetchKind);
    } else {
      var h2 := Issue(o, rc.history, Select(Source, rc.session.value, mailbox));
      if o.status(|rc.history|) != Ok {
        RecoveryCount(h, h2, FetchKind);
      } else {
        FetchCount(o, h2, rc.session.value, mailbox, batch, attempt + 1, r);
        RetryCount(h, h2, r.history, FetchKind, FetchAttempts - attempt, r.data.Some? || r.raised);
      }
    }
  }

  /** The recovery after an aborted FETCH, a reconnect and then a SELECT, makes no FETCH. */
  lemma FetchRecovery(o: Oracle, h1: seq<Event>, src: SessionId, mailbox: string)
    ensures var rc := ReconnectSpec(o, h1, Source, src);
            && NoneOf(rc.history, |h1|, FetchKind)
            && (rc.session.Some? ==>
                  NoneOf(Issue(o, rc.history, Select(Source, rc.session.value, mailbox)), |h1|, FetchKind))
  {
    var rc := ReconnectSpec(o, h1, Source, src);
    if rc.session.Some? {
      NoneOfTrans(h1, rc.history, Issue(o, rc.history, Select(Source, rc.session.value, mailbox)), FetchKind);
    }
  }

  /** An aborted call and its recovery, followed by a run of the remaining attempts. */
  lemma RetryCount(h: seq<Event>, hr: seq<Event>, h3: seq<Event>, kind: Kind, n: nat, settled: bool)
    requires n > 0 && h <= hr <= h3 && |h| + 1 < |hr|
    requires OfKind(hr[|h|].call, kind) && hr[|h|].status == Aborted && NoneOf(hr, |h| + 1, kind)
    requires Counted(h3, |hr|, kind, n - 1, settled)
    ensures Counted(h3, |h|, kind, n, settled)
  {
    RecoveryCount(h, hr, kind);
    CombineCounts(h, hr, h3, kind, n, settled, settled);
  }

  /**
   * The FETCH loop hands data on exactly when its last event is a FETCH
   * that succeeded (the data that FETCH returned), and raises exactly when
   * its last event is a FETCH that failed otherwise than by an abort, or a
   * reconnect or re-SELECT that raised.
   */
  lemma {:induction false} FetchOutcome(o: Oracle, h: seq<Event>, src: SessionId, mailbox: string,
                                        batch: seq<Uid>, attempt: nat)
    ensures var r := FetchFrom(o, h, src, mailbox, batch, attempt);
            && (|h| < |r.history| <==> attempt < FetchAttempts)
            && (r.data.Some? <==> LastIs(r.history, |h|, FetchKind, Ok))
            && (r.data.Some? ==> r.data.value == o.fetchReply(|r.history| - 1) && !r.raised)
            && (r.raised <==> LastIs(r.history, |h|, FetchKind, Failed) || LastRecoveryFailed(r.history, |h|, FetchKind))
    decreases FetchAttempts - attempt, 1
  {
    if attempt < FetchAttempts && o.status(|h|) == Aborted {
      RefetchOutcome(o, h, Issue(o, h, Fetch(src, batch)), src, mailbox, batch, attempt);
    }
    FetchData(o, h, src, mailbox, batch, attempt, FetchFrom(o, h, src, mailbox, batch, attempt));
  }

  /** The data the FETCH loop hands on is the reply of its last call, a successful FETCH of the batch. */
  lemma {:induction false} FetchData(o: Oracle, h: seq<Event>, src: SessionId, mailbox: string,
                                     batch: seq<Uid>, attempt: nat, r: Fetched)
    requires r == FetchFrom(o, h, src, mailbox, batch, attempt)
    ensures r.data.Some? ==> && |h| < |r.history| && r.history[|r.history| - 1] == Event(Fetch(r.src, batch), Ok)
                             && r.data == Some(o.fetchReply(|r.history| - 1))
    decreases FetchAttempts - attempt
  {
    if attempt < FetchAttempts && o.status(|h|) == Ok {
      assert |r.history| - 1 == |h|;
    } else if attempt < FetchAttempts && o.status(|h|) == Aborted {
      var rc := ReconnectSpec(o, Issue(o, h, Fetch(src, batch)), Source, src);
      if rc.session.Some? && o.status(|rc.history|) == Ok {
        FetchData(o, Issue(o, rc.history, Select(Source, rc.session.value, mailbox)), rc.session.value, mailbox, batch, attempt + 1, r);
      }
    }
  }

  lemma {:induction false} RefetchOutcome(o: Oracle, h: seq<Event>, h1: seq<Event>, src: SessionId, mailbox: string,
                                          batch: seq<Uid>, attempt: nat)
    requires attempt < FetchAttempts && o.status(|h|) == Aborted
    requires h1 == Issue(o, h, Fetch(src, batch))
    ensures var r := FetchFrom(o, h, src, mailbox, batch, attempt);
            && |h| < |r.history|
            && (r.data.Some? <==> LastIs(r.history, |h|, FetchKind, Ok))
            && (r.data.Some? ==> !r.raised)
            && (r.raised <==> LastIs(r.history, |h|, FetchKind, Failed) || LastRecoveryFailed(r.history, |h|, FetchKind))
    decreases FetchAttempts - attempt, 0
  {
    var rc := ReconnectSpec(o, h1, Source, src);
    if rc.session.Some? {
      var s := rc.session.value;
      var h2 := Issue(o, rc.history, Select(Source, s, mailbox));
      if o.status(|rc.history|) == Ok {
        var r := FetchFrom(o, h2, s, mailbox, batch, attempt + 1);
        assert FetchFrom(o, h, src, mailbox, batch, attempt) == r;
        FetchOutcome(o, h2, s, mailbox, batch, attempt + 1);
        OutcomeAfter(h, h2, r.history, FetchKind, r.raised, r.data.Some?);
      }
    }
  }

  /**
   * The aborted FETCH at `i` is followed by its recovery: a LOGOUT of its
   * session, the cooldown, a CONNECT of the source and, once connected, a
   * SELECT of the mailbox on the new session (numbered by the position of
   * the CONNECT). The loop ends where the CONNECT or the SELECT fails;
   * otherwise its next FETCH, if any, is of the same batch on the new session.
   */
  ghost predicate FetchRecoveredAt(h: seq<Event>, i: nat, mailbox: string, batch: seq<Uid>)
    requires i < |h| && h[i].call.Fetch?
  {
    && i + 4 <= |h|
    && h[i + 1].call == Logout(Source, h[i].call.session)
    && h[i + 2] == Event(Sleep(ReconnectCooldown), Ok)
    && h[i + 3].call == Connect(Source)
    && (h[i + 3].status != Ok ==> |h| == i + 4)
    && (h[i + 3].status == Ok ==>
          && i + 5 <= |h| && h[i + 4].call == Select(Source, i + 3, mailbox)
          && (h[i + 4].status != Ok ==> |h| == i + 5)
          && (i + 5 < |h| ==> h[i + 5].call == Fetch(i + 3, batch)))
  }

  /**
   * The FETCH loop's first call is a FETCH of the batch on the session it was
   * given, and every aborted FETCH in it is followed by its recovery.
   */
  lemma {:induction false} FetchRecoveries(o: Oracle, h: seq<Event>, src: SessionId, mailbox: string,
                                           batch: seq<Uid>, attempt: nat)
    ensures var r := FetchFrom(o, h, src, mailbox, batch, attempt);
            && (|h| < |r.history| ==> r.history[|h|].call == Fetch(src, batch))
            && forall i | |h| <= i < |r.history| && r.history[i].call.Fetch? && r.history[i].status == Aborted ::
                 FetchRecoveredAt(r.history, i, mailbox, batch)
    decreases FetchAttempts - attempt, 1
  {
    if attempt < FetchAttempts && o.status(|h|) == Aborted {
      RefetchRecoveries(o, h, src, mailbox, batch, attempt);
    }
  }

  lemma {:induction false} RefetchRecoveries(o: Oracle, h: seq<Event>, src: SessionId, mailbox: string,
                                             batch: seq<Uid>, attempt: nat)
    requires attempt < FetchAttempts && o.status(|h|) == Aborted
    ensures var r := FetchFrom(o, h, src, mailbox, batch, attempt);
            && (|h| < |r.history| ==> r.history[|h|].call == Fetch(src, batch))
            && forall i | |h| <= i < |r.history| && r.history[i].call.Fetch? && r.history[i].status == Aborted ::
                 FetchRecoveredAt(r.history, i, mailbox, batch)
    decreases FetchAttempts - attempt, 0
  {
    var h1 := Issue(o, h, Fetch(src, batch));
    var rc := ReconnectSpec(o, h1, Source, src);
    if rc.session.None? {
      FetchEndRecovered(h, rc.history, src, mailbox, batch);
    } else {
      var s := rc.session.value;
      var h2 := Issue(o, rc.history, Select(Source, s, mailbox));
      if o.status(|rc.history|) != Ok {
        FetchEndRecovered(h, h2, src, mailbox, batch);
      } else {
        var rest := FetchFrom(o, h2, s, mailbox, batch, attempt + 1);
        assert FetchFrom(o, h, src, mailbox, batch, attempt) == rest;
        FetchRecoveries(o, h2, s, mailbox, batch, attempt + 1);
        FetchStepRecovered(h, h2, rest.history, src, mailbox, batch);
      }
    }
  }

  /** An aborted FETCH whose reconnect or re-SELECT failed, ending the loop. */
  lemma FetchEndRecovered(h: seq<Event>, h3: seq<Event>, src: SessionId, mailbox: string, batch: seq<Uid>)
    requires h <= h3 && (|h3| == |h| + 4 || |h3| == |h| + 5)
    requires h3[|h|].call == Fetch(src, batch) && h3[|h| + 1].call == Logout(Source, src)
    requires h3[|h| + 2] == Event(Sleep(ReconnectCooldown), Ok) && h3[|h| + 3].call == Connect(Source)
    requires |h3| == |h| + 4 <==> h3[|h| + 3].status != Ok
    requires |h3| == |h| + 5 ==> h3[|h| + 4].call == Select(Source, |h| + 3, mailbox) && h3[|h| + 4].status != Ok
    ensures forall i | |h| <= i < |h3| && h3[i].call.Fetch? && h3[i].status == Aborted :: FetchRecoveredAt(h3, i, mailbox, batch)
  {
  }

  /** An aborted FETCH whose reconnect and re-SELECT succeeded, followed by the rest of the loop. */
  lemma FetchStepRecovered(h: seq<Event>, hs: seq<Event>, h3: seq<Event>, src: SessionId, mailbox: string, batch: seq<Uid>)
    requires h <= hs <= h3 && |hs| == |h| + 5
    requires hs[|h|].call == Fetch(src, batch) && hs[|h| + 1].call == Logout(Source, src)
    requires hs[|h| + 2] == Event(Sleep(ReconnectCooldown), Ok)
    requires hs[|h| + 3].call == Connect(Source) && hs[|h| + 3].status == Ok
    requires hs[|h| + 4].call == Select(Source, |h| + 3, mailbox) && hs[|h| + 4].status == Ok
    requires |hs| < |h3| ==> h3[|hs|].call == Fetch(|h| + 3, batch)
    requires forall i | |hs| <= i < |h3| && h3[i].call.Fetch? && h3[i].status == Aborted :: FetchRecoveredAt(h3, i, mailbox, batch)
    ensures forall i | |h| <= i < |h3| && h3[i].call.Fetch? && h3[i].status == Aborted :: FetchRecoveredAt(h3, i, mailbox, batch)
  {
    forall i | |h| <= i < |hs| ensures h3[i] == hs[i] {
    }
  }

  // ---------------------------------------------------------------- APPEND

  /**
   * The APPEND loop from `attempt` on makes at most `3 - attempt` APPEND
   * calls, every one but a final one aborted; when it neither raises nor
   * ends with a successful APPEND, it made all of them.
   */
  lemma {:induction false} AppendCount(o: Oracle, h: seq<Event>, dst: SessionId, mailbox: string,
                                       uid: Uid, item: Item, attempt: nat, r: Appended)
    requires attempt <= AppendAttempts && r == AppendFrom(o, h, dst, mailbox, uid, item, attempt)
    ensures Counted(r.history, |h|, AppendKind, AppendAttempts - attempt, r.raised || LastIs(r.history, |h|, AppendKind, Ok))
    decreases AppendAttempts - attempt, 1
  {
    if attempt < AppendAttempts {
      var h1 := Issue(o, h, Append(dst, mailbox, uid, item));
      assert CountIn(h1, |h|, |h1|, AppendKind) == 1;
      if o.status(|h|) == Aborted {
        ReappendCount(o, h, h1, dst, mailbox, uid, item, attempt, r);
      }
    }
  }

  lemma {:induction false} ReappendCount(o: Oracle, h: seq<Event>, h1: seq<Event>, dst: SessionId, mailbox: string,
                                         uid: Uid, item: Item, attempt: nat, r: Appended)
    requires attempt < AppendAttempts && o.status(|h|) == Aborted && r == AppendFrom(o, h, dst, mailbox, uid, item, attempt)
    requires h1 == Issue(o, h, Append(dst, mailbox, uid, item)) && CountIn(h1, |h|, |h1|, AppendKind) == 1
    ensures Counted(r.history, |h|, AppendKind, AppendAttempts - attempt, r.raised || LastIs(r.history, |h|, AppendKind, Ok))
    decreases AppendAttempts - attempt, 0
  {
    var rc := ReconnectSpec(o, h1, Destination, dst);
    AppendRecovery(o, h1, dst, mailbox);
    if rc.session.None? {
      RecoveryCount(h, rc.history, AppendKind);
    } else {
      var en := EnsureSpec(o, rc.history, Destination, rc.session.value, mailbox);
      AppendCount(o, en.history, rc.session.value, mailbox, uid, item, attempt + 1, r);
      RetryAppendCount(h, en.history, r.history, r.raised, AppendAttempts - attempt);
    }
  }

  /** The recovery after an aborted APPEND, a reconnect and then `ensure_mailbox`, makes no APPEND. */
  lemma AppendRecovery(o: Oracle, h1: seq<Event>, dst: SessionId, mailbox: string)
    ensures var rc := ReconnectSpec(o, h1, Destination, dst);
            && NoneOf(rc.history, |h1|, AppendKind)
            && (rc.session.Some? ==>
                  NoneOf(EnsureSpec(o, rc.history, Destination, rc.session.value, mailbox).history, |h1|, AppendKind))
  {
    var rc := ReconnectSpec(o, h1, Destination, dst);
    if rc.session.Some? {
      var en := EnsureSpec(o, rc.history, Destination, rc.session.value, mailbox);
      assert NoneOf(en.history, |rc.history|, AppendKind);
      NoneOfTrans(h1, rc.history, en.history, AppendKind);
    }
  }

  /** An aborted APPEND and its recovery, followed by a run of the remaining attempts. */
  lemma RetryAppendCount(h: seq<Event>, hr: seq<Event>, h3: seq<Event>, raised: bool, n: nat)
    requires n > 0 && h <= hr <= h3 && |h| + 1 < |hr|
    requires hr[|h|].call.Append? && hr[|h|].status == Aborted && NoneOf(hr, |h| + 1, AppendKind)
    requires Counted(h3, |hr|, AppendKind, n - 1, raised || LastIs(h3, |hr|, AppendKind, Ok))
    ensures Counted(h3, |h|, AppendKind, n, raised || LastIs(h3, |h|, AppendKind, Ok))
  {
    RecoveryCount(h, hr, AppendKind);
    CombineAppendCounts(h, hr, h3, raised, n);
  }

  /** `CombineCounts` for APPEND, which settles on a final successful APPEND. */
  lemma CombineAppendCounts(h: seq<Event>, h2: seq<Event>, h3: seq<Event>, raised: bool, n: nat)
    requires n > 0 && h <= h2 <= h3 && |h| + 1 < |h2|
    requires CountIn(h2, |h|, |h2|, AppendKind) == 1 && AbortedUntilLast(h2, |h|, AppendKind)
    requires !OfKind(h2[|h2| - 1].call, AppendKind)
    requires Counted(h3, |h2|, AppendKind, n - 1, raised || LastIs(h3, |h2|, AppendKind, Ok))
    ensures Counted(h3, |h|, AppendKind, n, raised || LastIs(h3, |h|, AppendKind, Ok))
  {
    if |h2| < |h3| {
      LastAfter(h3, |h|, |h2|, AppendKind);
    }
    CombineCounts(h, h2, h3, AppendKind, n, raised || LastIs(h3, |h|, AppendKind, Ok), raised || LastIs(h3, |h2|, AppendKind, Ok));
  }

  /**
   * The APPEND loop raises exactly when its last event is an APPEND that
   * failed otherwise than by an abort, or a reconnect that raised; running
   * out of attempts raises nothing.
   */
  lemma {:induction false} AppendOutcome(o: Oracle, h: seq<Event>, dst: SessionId, mailbox: string,
                                         uid: Uid, item: Item, attempt: nat)
    ensures var r := AppendFrom(o, h, dst, mailbox, uid, item, attempt);
            && (|h| < |r.history| <==> attempt < AppendAttempts)
            && (r.raised <==> LastIs(r.history, |h|, AppendKind, Failed) || LastRecoveryFailed(r.history, |h|, AppendKind))
    decreases AppendAttempts - attempt, 1
  {
    if attempt < AppendAttempts && o.status(|h|) == Aborted {
      ReappendOutcome(o, h, Issue(o, h, Append(dst, mailbox, uid, item)), dst, mailbox, uid, item, attempt);
    }
  }

  lemma {:induction false} ReappendOutcome(o: Oracle, h: seq<Event>, h1: seq<Event>, dst: SessionId, mailbox: string,
                                           uid: Uid, item: Item, attempt: nat)
    requires attempt < AppendAttempts && o.status(|h|) == Aborted
    requires h1 == Issue(o, h, Append(dst, mailbox, uid, item))
    ensures var r := AppendFrom(o, h, dst, mailbox, uid, item, attempt);
            && |h| < |r.history|
            && (r.raised <==> LastIs(r.history, |h|, AppendKind, Failed) || LastRecoveryFailed(r.history, |h|, AppendKind))
    decreases AppendAttempts - attempt, 0
  {
    var rc := ReconnectSpec(o, h1, Destination, dst);
    if rc.session.Some? {
      var d := rc.session.value;
      var en := EnsureSpec(o, rc.history, Destination, d, mailbox);
      var r := AppendFrom(o, en.history, d, mailbox, uid, item, attempt + 1);
      assert AppendFrom(o, h, dst, mailbox, uid, item, attempt) == r;
      AppendOutcome(o, en.history, d, mailbox, uid, item, attempt + 1);
      OutcomeAfter(h, en.history, r.history, AppendKind, r.raised, LastIs(r.history, |en.history|, AppendKind, Ok));
    } else {
      assert AppendFrom(o, h, dst, mailbox, uid, item, attempt) == Appended(rc.history, dst, true);
    }
  }

  /**
   * The aborted APPEND at `i` is followed by its recovery: a LOGOUT of its
   * session, the cooldown, a CONNECT of the destination and, once connected,
   * `ensure_mailbox` on the new session (numbered by the position of the
   * CONNECT): a SELECT of the mailbox, and a CREATE of it when the SELECT
   * fails. The loop ends where the CONNECT fails; a failed CREATE does not
   * end it, and its next APPEND, if any, is of the same message on the new
   * session.
   */
  ghost predicate AppendRecoveredAt(h: seq<Event>, i: nat, mailbox: string, uid: Uid, item: Item)
    requires i < |h| && h[i].call.Append?
  {
    && i + 4 <= |h|
    && h[i + 1].call == Logout(Destination, h[i].call.session)
    && h[i + 2] == Event(Sleep(ReconnectCooldown), Ok)
    && h[i + 3].call == Connect(Destination)
    && (h[i + 3].status != Ok ==> |h| == i + 4)
    && (h[i + 3].status == Ok ==>
          && i + 5 <= |h| && h[i + 4].call == Select(Destination, i + 3, mailbox)
          && (h[i + 4].status != Ok ==> i + 6 <= |h| && h[i + 5].call == Create(Destination, i + 3, mailbox))
          && var next := if h[i + 4].status == Ok then i + 5 else i + 6;
             next < |h| ==> h[next].call == Append(i + 3, mailbox, uid, item))
  }

  /**
   * The APPEND loop's first call is an APPEND of the message on the session
   * it was given, and every aborted APPEND in it is followed by its recovery.
   */
  lemma {:induction false} AppendRecoveries(o: Oracle, h: seq<Event>, dst: SessionId, mailbox: string,
                                            uid: Uid, item: Item, attempt: nat)
    ensures var r := AppendFrom(o, h, dst, mailbox, uid, item, attempt);
            && (|h| < |r.history| ==> r.history[|h|].call == Append(dst, mailbox, uid, item))
            && forall i | |h| <= i < |r.history| && r.history[i].call.Append? && r.history[i].status == Aborted ::
                 AppendRecoveredAt(r.history, i, mailbox, uid, item)
    decreases AppendAttempts - attempt, 1
  {
    if attempt < AppendAttempts && o.status(|h|) == Aborted {
      ReappendRecoveries(o, h, dst, mailbox, uid, item, attempt);
    }
  }

  lemma {:induction false} ReappendRecoveries(o: Oracle, h: seq<Event>, dst: SessionId, mailbox: string,
                                              uid: Uid, item: Item, attempt: nat)
    requires attempt < AppendAttempts && o.status(|h|) == Aborted
    ensures var r := AppendFrom(o, h, dst, mailbox, uid, item, attempt);
            && (|h| < |r.history| ==> r.history[|h|].call == Append(dst, mailbox, uid, item))
            && forall i | |h| <= i < |r.history| && r.history[i].call.Append? && r.history[i].status == Aborted ::
                 AppendRecoveredAt(r.history, i, mailbox, uid, item)
    decreases AppendAttempts - attempt, 0
  {
    var h1 := Issue(o, h, Append(dst, mailbox, uid, item));
    var rc := ReconnectSpec(o, h1, Destination, dst);
    if rc.session.None? {
      AppendEndRecovered(h, rc.history, dst, mailbox, uid, item);
    } else {
      var d := rc.session.value;
      var en := EnsureSpec(o, rc.history, Destination, d, mailbox);
      var rest := AppendFrom(o, en.history, d, mailbox, uid, item, attempt + 1);
      assert AppendFrom(o, h, dst, mailbox, uid, item, attempt) == rest;
      AppendRecoveries(o, en.history, d, mailbox, uid, item, attempt + 1);
      AppendStepRecovered(h, rc.history, en.history, rest.history, dst, mailbox, uid, item);
    }
  }

  /** An aborted APPEND whose reconnect failed, ending the loop. */
  lemma AppendEndRecovered(h: seq<Event>, h3: seq<Event>, dst: SessionId, mailbox: string, uid: Uid, item: Item)
    requires h <= h3 && |h3| == |h| + 4
    requires h3[|h|].call == Append(dst, mailbox, uid, item) && h3[|h| + 1].call == Logout(Destination, dst)
    requires h3[|h| + 2] == Event(Sleep(ReconnectCooldown), Ok)
    requires h3[|h| + 3].call == Connect(Destination) && h3[|h| + 3].status != Ok
    ensures forall i | |h| <= i < |h3| && h3[i].call.Append? && h3[i].status == Aborted ::
              AppendRecoveredAt(h3, i, mailbox, uid, item)
  {
  }

  /** An aborted APPEND whose reconnect succeeded, then `ensure_mailbox`, then the rest of the loop. */
  lemma AppendStepRecovered(h: seq<Event>, hc: seq<Event>, he: seq<Event>, h3: seq<Event>,
                            dst: SessionId, mailbox: string, uid: Uid, item: Item)
    requires h <= hc <= he <= h3 && |hc| == |h| + 4
    requires hc[|h|].call == Append(dst, mailbox, uid, item) && hc[|h| + 1].call == Logout(Destination, dst)
    requires hc[|h| + 2] == Event(Sleep(ReconnectCooldown), Ok)
    requires hc[|h| + 3].call == Connect(Destination) && hc[|h| + 3].status == Ok
    requires |he| == |hc| + 1 || |he| == |hc| + 2
    requires he[|hc|].call == Select(Destination, |h| + 3, mailbox)
    requires |he| == |hc| + 2 <==> he[|hc|].status != Ok
    requires |he| == |hc| + 2 ==> he[|hc| + 1].call == Create(Destination, |h| + 3, mailbox)
    requires |he| < |h3| ==> h3[|he|].call == Append(|h| + 3, mailbox, uid, item)
    requires forall i | |he| <= i < |h3| && h3[i].call.Append? && h3[i].status == Aborted ::
               AppendRecoveredAt(h3, i, mailbox, uid, item)
    ensures forall i | |h| <= i < |h3| && h3[i].call.Append? && h3[i].status == Aborted ::
              AppendRecoveredAt(h3, i, mailbox, uid, item)
  {
    forall i | |h| <= i < |he| ensures h3[i] == he[i] {
    }
    forall i | |h| <= i < |hc| ensures he[i] == hc[i] {
    }
  }

  /**
   * A recovery that ends with no call of the kind and no failed reconnect
   * or re-SELECT does not change how the outcome of the rest of the loop
   * reads off its last event.
   */
  lemma OutcomeAfter(h: seq<Event>, hr: seq<Event>, h3: seq<Event>, kind: Kind, raised: bool, ok: bool)
    requires h <= hr <= h3 && |h| < |hr|
    requires !OfKind(hr[|hr| - 1].call, kind) && !LastRecoveryFailed(hr, |h|, kind)
    requires raised <==> LastIs(h3, |hr|, kind, Failed) || LastRecoveryFailed(h3, |hr|, kind)
    requires ok <==> LastIs(h3, |hr|, kind, Ok)
    ensures raised <==> LastIs(h3, |h|, kind, Failed) || LastRecoveryFailed(h3, |h|, kind)
    ensures ok <==> LastIs(h3, |h|, kind, Ok)
  {
    if |hr| < |h3| {
      LastAfter(h3, |h|, |hr|, kind);
    }
  }

  /**
   * An APPEND loop that neither raised nor ended with a successful APPEND
   * made all its attempts, and every one of them aborted.
   */
  lemma AppendExhausted(o: Oracle, h: seq<Event>, dst: SessionId, mailbox: string, uid: Uid, item: Item, a: Appended)
    requires a == AppendFrom(o, h, dst, mailbox, uid, item, 0)
    requires !a.raised && !LastIs(a.history, |h|, AppendKind, Ok)
    ensures CountIn(a.history, |h|, |a.history|, AppendKind) == AppendAttempts
    ensures forall i | |h| <= i < |a.history| && a.history[i].call.Append? :: a.history[i].status == Aborted
  {
    AppendCount(o, h, dst, mailbox, uid, item, 0, a);
    AppendOutcome(o, h, dst, mailbox, uid, item, 0);
    AllAborted(h, a.history, a.raised);
  }

  lemma AllAborted(h: seq<Event>, hr: seq<Event>, raised: bool)
    requires Counted(hr, |h|, AppendKind, AppendAttempts, raised || LastIs(hr, |h|, AppendKind, Ok))
    requires raised <==> LastIs(hr, |h|, AppendKind, Failed) || LastRecoveryFailed(hr, |h|, AppendKind)
    requires !raised && !LastIs(hr, |h|, AppendKind, Ok)
    ensures CountIn(hr, |h|, |hr|, AppendKind) == AppendAttempts
    ensures forall i | |h| <= i < |hr| && hr[i].call.Append? :: hr[i].status == Aborted
  {
  }

  /**
   * Outside dry-run, a new key whose APPENDs all aborted is still moved to
   * the archive (running out of APPEND attempts raises nothing), and
   * committed exactly when the MOVE succeeds.
   */
  lemma ExhaustedAppendStillMoves(o: Oracle, st: State, p: Params, uid: Uid, items: map<Uid, Item>)
    requires !st.raised && !p.dryRun && uid in items && !Has(st.table, TransferKey(p.srcMailbox, uid))
    requires var a := AppendFrom(o, st.history, st.dst, p.dstMailbox, uid, items[uid], 0);
             !a.raised && !LastIs(a.history, |st.history|, AppendKind, Ok)
    ensures var a := AppendFrom(o, st.history, st.dst, p.dstMailbox, uid, items[uid], 0);
            var r := Transfer(o, st, p, uid, items);
            && |a.history| < |r.history|
            && r.history[|a.history|].call == Move(st.src, uid, ArchiveName(p.srcMailbox))
            && (o.status(|a.history|) == Ok <==> TransferKey(p.srcMailbox, uid) in Keys(r.table))
  {
    var a := AppendFrom(o, st.history, st.dst, p.dstMailbox, uid, items[uid], 0);
    HasIsMembership(st.table, TransferKey(p.srcMailbox, uid));
    if o.status(|a.history|) == Ok {
      ReplaceKeys(st.table, TransferRow(p.srcMailbox, uid, Some(p.dstMailbox), None, items[uid].messageId));
    }
  }
}
