/**
 * `safe_search`: up to `maxRetries` SEARCH attempts; an abort before the last
 * attempt is followed by a sleep of `baseDelay * attempt`, an abort on the
 * last attempt and any other exception escape.  A negative sleep length
 * makes `time.sleep` raise, so with a negative `baseDelay` the first abort
 * escapes as well, without the sleep.
 */
module Search {
  import opened Ledger
  import opened Session

  /** The linear backoff: the wait after the abort of attempt `attempt`. */
  function Backoff(baseDelay: int, attempt: int): int {
    baseDelay * attempt
  }

  /** What `safe_search` gives its caller: the UIDs, `None` when the attempt
      range is empty, or an exception. */
  datatype Reply = Found(uids: seq<Uid>) | NoAttempt | Raised

  datatype Searched = Searched(history: seq<Event>, reply: Reply)

  /** The attempts from `attempt` on, in the history `h`. */
  function SearchFrom(o: Oracle, h: seq<Event>, s: SessionId, criteria: string,
                      attempt: int, maxRetries: int, baseDelay: int): (r: Searched)
    requires 1 <= attempt
    ensures h <= r.history
    decreases maxRetries - attempt, |h|
  {
    if attempt > maxRetries then Searched(h, NoAttempt)
    else
      var h1 := Issue(o, h, Search(s, criteria));
      match o.status(|h|)
      case Ok => Searched(h1, Found(o.searchReply(|h|)))
      case Failed => Searched(h1, Raised)
      case Aborted =>
        if attempt == maxRetries || Backoff(baseDelay, attempt) < 0 then Searched(h1, Raised)
        else SearchFrom(o, Note(h1, Sleep(Backoff(baseDelay, attempt))), s, criteria, attempt + 1, maxRetries, baseDelay)
  }

  function SafeSearchSpec(o: Oracle, h: seq<Event>, s: SessionId, criteria: string,
                          maxRetries: int, baseDelay: int): Searched
  {
    SearchFrom(o, h, s, criteria, 1, maxRetries, baseDelay)
  }

  method SafeSearch(w: World, s: SessionId, criteria: string, maxRetries: int, baseDelay: int)
    returns (reply: Reply)
    modifies w
    ensures Searched(w.history, reply) == SafeSearchSpec(w.oracle, old(w.history), s, criteria, maxRetries, baseDelay)
  {
    var attempt := 1;
    while attempt <= maxRetries
      invariant 1 <= attempt
      invariant SafeSearchSpec(w.oracle, old(w.history), s, criteria, maxRetries, baseDelay)
             == SearchFrom(w.oracle, w.history, s, criteria, attempt, maxRetries, baseDelay)
      decreases maxRetries - attempt
    {
      var st := w.Request(Search(s, criteria));
      if st == Ok {
        return Found(w.oracle.searchReply(|w.history| - 1));
      }
      if st == Failed || attempt == maxRetries || Backoff(baseDelay, attempt) < 0 {
        return Raised;
      }
      w.Perform(Sleep(Backoff(baseDelay, attempt)));
      attempt := attempt + 1;
    }
    return NoAttempt;
  }

  /**
   * The SEARCH/sleep layout of the attempts from `k` on, after position
   * `from`: attempt k's SEARCH, then the sleep after its abort, then the
   * layout of the attempts from k + 1 on.
   */
  ghost predicate Layout(r: seq<Event>, from: nat, s: SessionId, criteria: string, k: int, baseDelay: int)
    decreases |r| - from
  {
    from < |r| ==>
      && r[from].call == Search(s, criteria)
      && (from + 1 < |r| ==>
            && r[from + 1].call == Sleep(Backoff(baseDelay, k))
            && Layout(r, from + 2, s, criteria, k + 1, baseDelay))
  }

  /** Every call but the last is an aborted SEARCH or a sleep, the two in turn. */
  ghost predicate AbortedBefore(r: seq<Event>, from: nat)
    decreases |r| - from
  {
    from + 1 < |r| ==>
      && r[from].status == Aborted
      && (from + 2 < |r| ==> r[from + 1].status == Ok && AbortedBefore(r, from + 2))
  }

  lemma {:induction false} LayoutFrom(o: Oracle, h: seq<Event>, s: SessionId, criteria: string,
                                      k: int, maxRetries: int, baseDelay: int)
    requires 1 <= k <= maxRetries
    ensures var r := SearchFrom(o, h, s, criteria, k, maxRetries, baseDelay);
            && (|r.history| - |h|) % 2 == 1 && |r.history| - |h| <= 2 * (maxRetries - k) + 1
            && Layout(r.history, |h|, s, criteria, k, baseDelay)
    decreases maxRetries - k
  {
    var h1 := Issue(o, h, Search(s, criteria));
    if o.status(|h|) == Aborted && k < maxRetries && Backoff(baseDelay, k) >= 0 {
      var h2 := Note(h1, Sleep(Backoff(baseDelay, k)));
      LayoutFrom(o, h2, s, criteria, k + 1, maxRetries, baseDelay);
      var r := SearchFrom(o, h2, s, criteria, k + 1, maxRetries, baseDelay);
      assert r == SearchFrom(o, h, s, criteria, k, maxRetries, baseDelay);
      assert r.history[|h|] == h2[|h|] && r.history[|h| + 1] == h2[|h| + 1];
    }
  }

  lemma {:induction false} StatusFrom(o: Oracle, h: seq<Event>, s: SessionId, criteria: string,
                                      k: int, maxRetries: int, baseDelay: int)
    requires 1 <= k <= maxRetries
    ensures var r := SearchFrom(o, h, s, criteria, k, maxRetries, baseDelay);
            && |h| < |r.history| && r.reply != NoAttempt
            && AbortedBefore(r.history, |h|)
            && r.history[|r.history| - 1].call == Search(s, criteria)
            && (r.reply.Found? <==> r.history[|r.history| - 1].status == Ok)
            && (r.reply.Found? ==> r.reply.uids == o.searchReply(|r.history| - 1))
            && (r.reply.Raised? <==> (r.history[|r.history| - 1].status == Failed ||
                                      (r.history[|r.history| - 1].status == Aborted &&
                                       (|r.history| - |h| == 2 * (maxRetries - k) + 1 || baseDelay < 0))))
            && (baseDelay < 0 ==> |r.history| == |h| + 1)
    decreases maxRetries - k
  {
    var h1 := Issue(o, h, Search(s, criteria));
    if o.status(|h|) == Aborted && k < maxRetries && Backoff(baseDelay, k) >= 0 {
      var h2 := Note(h1, Sleep(Backoff(baseDelay, k)));
      StatusFrom(o, h2, s, criteria, k + 1, maxRetries, baseDelay);
      var r := SearchFrom(o, h2, s, criteria, k + 1, maxRetries, baseDelay);
      assert r == SearchFrom(o, h, s, criteria, k, maxRetries, baseDelay);
      assert r.history[|h|] == h2[|h|] && r.history[|h| + 1] == h2[|h| + 1];
    }
  }

  lemma {:induction false} QuietSearch(o: Oracle, h: seq<Event>, s: SessionId, criteria: string,
                                       k: int, maxRetries: int, baseDelay: int)
    requires 1 <= k
    ensures QuietFrom(SearchFrom(o, h, s, criteria, k, maxRetries, baseDelay).history, |h|)
    decreases maxRetries - k
  {
    if k <= maxRetries && o.status(|h|) == Aborted && k < maxRetries && Backoff(baseDelay, k) >= 0 {
      var h2 := Note(Issue(o, h, Search(s, criteria)), Sleep(Backoff(baseDelay, k)));
      QuietSearch(o, h2, s, criteria, k + 1, maxRetries, baseDelay);
      QuietTrans(h, h2, SearchFrom(o, h2, s, criteria, k + 1, maxRetries, baseDelay).history);
    }
  }

  /**
   * `safe_search` calls SEARCH at most `maxRetries` times, and not at all
   * when `maxRetries < 1`; the sleeps between attempts are `baseDelay * k`
   * after the k-th abort; the reply is the last call's result when it
   * succeeded.  With a negative `baseDelay` there is exactly one SEARCH,
   * and an abort of it escapes.
   */
  lemma SafeSearchSchedule(o: Oracle, h: seq<Event>, s: SessionId, criteria: string,
                           maxRetries: int, baseDelay: int)
    ensures var r := SafeSearchSpec(o, h, s, criteria, maxRetries, baseDelay);
            var n := |r.history| - |h|;
            && h <= r.history && QuietFrom(r.history, |h|)
            && (maxRetries < 1 ==> r.history == h && r.reply == NoAttempt)
            && (maxRetries >= 1 ==>
                  && n % 2 == 1 && n <= 2 * maxRetries - 1
                  && Layout(r.history, |h|, s, criteria, 1, baseDelay)
                  && AbortedBefore(r.history, |h|)
                  && (r.reply.Found? <==> r.history[|r.history| - 1].status == Ok)
                  && (r.reply.Found? ==> r.reply.uids == o.searchReply(|r.history| - 1))
                  && (r.reply.Raised? <==> !r.reply.Found?)
                  && (baseDelay < 0 ==> n == 1 && (r.reply.Raised? <==> r.history[|h|].status != Ok)))
  {
    QuietSearch(o, h, s, criteria, 1, maxRetries, baseDelay);
    if maxRetries >= 1 {
      LayoutFrom(o, h, s, criteria, 1, maxRetries, baseDelay);
      StatusFrom(o, h, s, criteria, 1, maxRetries, baseDelay);
    }
  }
}
