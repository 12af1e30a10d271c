/**
 * The two IMAP endpoints as the migration sees them.  Every protocol call,
 * every requested sleep and every ledger commit is an event of the history;
 * whether a call succeeds, aborts the session (imaplib.IMAP4.abort) or fails
 * with another exception is decided by an oracle that is consulted with the
 * position of the call in the history.
 */
module Session {
  import opened Wrappers
  import opened Ledger

  datatype Endpoint = Source | Destination

  /** A session handle: the position in the history of the Connect that opened it. */
  type SessionId = nat

  /** The FETCH reply for one UID: RFC822 bytes, FLAGS, INTERNALDATE, and the
      Message-ID the parser finds in the bytes (opaque here). */
  datatype Item = Item(body: seq<bv8>, flags: seq<string>, internalDate: int, messageId: Option<string>)

  datatype Call =
    | Connect(ep: Endpoint)
    | Logout(ep: Endpoint, session: SessionId)
    | Select(ep: Endpoint, session: SessionId, mailbox: string)
    | Create(ep: Endpoint, session: SessionId, mailbox: string)
    | Search(session: SessionId, criteria: string)
    | Fetch(session: SessionId, uids: seq<Uid>)
    | Append(session: SessionId, mailbox: string, uid: Uid, message: Item)
    | Move(session: SessionId, uid: Uid, archive: string)
    | Sleep(delay: int)
    | Record(key: Key)

  /** How a call ended: normally, with imaplib.IMAP4.abort, or with another exception. */
  datatype Status = Ok | Aborted | Failed

  datatype Event = Event(call: Call, status: Status)

  /** The endpoints' behaviour, as a function of the position of each call. */
  datatype Oracle = Oracle(status: nat -> Status,
                           searchReply: nat -> seq<Uid>,
                           fetchReply: nat -> map<Uid, Item>)

  /** Seconds `reconnect_imap` waits before connecting again. */
  const ReconnectCooldown: int := 3

  /** The history after issuing protocol call `c`. */
  function Issue(o: Oracle, h: seq<Event>, c: Call): (r: seq<Event>)
    ensures h <= r && |r| == |h| + 1 && r[|h|] == Event(c, o.status(|h|))
  {
    h + [Event(c, o.status(|h|))]
  }

  /** The history after an action that cannot fail (a sleep, a ledger commit). */
  function Note(h: seq<Event>, c: Call): (r: seq<Event>)
    ensures h <= r && |r| == |h| + 1 && r[|h|] == Event(c, Ok)
  {
    h + [Event(c, Ok)]
  }

  /** An event that transfers nothing: no APPEND, no MOVE, no ledger write. */
  predicate Quiet(e: Event) {
    !e.call.Append? && !e.call.Move? && !e.call.Record?
  }

  /** Every event from position `from` on transfers nothing. */
  ghost predicate QuietFrom(h: seq<Event>, from: nat) {
    forall i | from <= i < |h| :: Quiet(h[i])
  }

  lemma QuietTrans(h0: seq<Event>, h1: seq<Event>, h2: seq<Event>)
    requires h0 <= h1 <= h2 && QuietFrom(h1, |h0|) && QuietFrom(h2, |h1|)
    ensures h0 <= h2 && QuietFrom(h2, |h0|)
  {
    forall i | |h0| <= i < |h1| ensures Quiet(h2[i]) {
      assert h2[i] == h1[i];
    }
  }

  /** The environment as the program sees it. */
  class World {
    const oracle: Oracle
    var history: seq<Event>

    constructor (oracle: Oracle, history: seq<Event>)
      ensures this.oracle == oracle && this.history == history
    {
      this.oracle := oracle;
      this.history := history;
    }

    /** Issue one protocol call and learn how it ended. */
    method Request(c: Call) returns (st: Status)
      modifies this
      ensures history == Issue(oracle, old(history), c)
      ensures st == oracle.status(|old(history)|)
    {
      st := oracle.status(|history|);
      history := history + [Event(c, st)];
    }

    /** Perform an action that cannot fail. */
    method Perform(c: Call)
      modifies this
      ensures history == Note(old(history), c)
    {
      history := history + [Event(c, Ok)];
    }
  }

  datatype Connected = Connected(history: seq<Event>, session: Option<SessionId>)

  /** `connect_imap`: a new session, or the exception that escapes it. */
  function ConnectSpec(o: Oracle, h: seq<Event>, ep: Endpoint): (r: Connected)
    ensures h <= r.history && |r.history| == |h| + 1 && QuietFrom(r.history, |h|)
    ensures r.history[|h|].call == Connect(ep)
    ensures r.session.Some? <==> r.history[|h|].status == Ok
    ensures r.session.Some? ==> r.session.value == |h|
  {
    var h1 := Issue(o, h, Connect(ep));
    Connected(h1, if o.status(|h|) == Ok then Some(|h|) else None)
  }

  method ConnectSession(w: World, ep: Endpoint) returns (session: Option<SessionId>)
    modifies w
    ensures Connected(w.history, session) == ConnectSpec(w.oracle, old(w.history), ep)
  {
    var st := w.Request(Connect(ep));
    session := if st == Ok then Some(|w.history| - 1) else None;
  }

  datatype Ensured = Ensured(history: seq<Event>, ok: bool)

  /**
   * `ensure_mailbox`: select the mailbox; if that raises anything, create it
   * and report success without selecting it again; report failure if the
   * create raises too.  Nothing escapes.
   */
  function EnsureSpec(o: Oracle, h: seq<Event>, ep: Endpoint, s: SessionId, mailbox: string): (r: Ensured)
    ensures h <= r.history && QuietFrom(r.history, |h|)
    ensures |r.history| == |h| + 1 || |r.history| == |h| + 2
    ensures r.history[|h|].call == Select(ep, s, mailbox)
    ensures |r.history| == |h| + 2 <==> r.history[|h|].status != Ok
    ensures |r.history| == |h| + 2 ==> r.history[|h| + 1].call == Create(ep, s, mailbox)
    ensures r.ok <==> r.history[|r.history| - 1].status == Ok
  {
    var h1 := Issue(o, h, Select(ep, s, mailbox));
    if o.status(|h|) == Ok then Ensured(h1, true)
    else
      var h2 := Issue(o, h1, Create(ep, s, mailbox));
      Ensured(h2, o.status(|h1|) == Ok)
  }

  method EnsureMailbox(w: World, ep: Endpoint, s: SessionId, mailbox: string) returns (ok: bool)
    modifies w
    ensures Ensured(w.history, ok) == EnsureSpec(w.oracle, old(w.history), ep, s, mailbox)
  {
    var st := w.Request(Select(ep, s, mailbox));
    if st == Ok {
      return true;
    }
    st := w.Request(Create(ep, s, mailbox));
    ok := st == Ok;
  }

  /**
   * `reconnect_imap`: log the stale session out (any error is swallowed),
   * wait the cooldown, and connect again; an exception from the connect
   * escapes.
   */
  function ReconnectSpec(o: Oracle, h: seq<Event>, ep: Endpoint, stale: SessionId): (r: Connected)
    ensures h <= r.history && |r.history| == |h| + 3 && QuietFrom(r.history, |h|)
    ensures r.history[|h|].call == Logout(ep, stale)
    ensures r.history[|h| + 1] == Event(Sleep(ReconnectCooldown), Ok)
    ensures r.history[|h| + 2].call == Connect(ep)
    ensures r.session.Some? <==> r.history[|h| + 2].status == Ok
    ensures r.session.Some? ==> r.session.value == |h| + 2
  {
    var h1 := Issue(o, h, Logout(ep, stale));
    var h2 := Note(h1, Sleep(ReconnectCooldown));
    ConnectSpec(o, h2, ep)
  }

  method Reconnect(w: World, ep: Endpoint, stale: SessionId) returns (session: Option<SessionId>)
    modifies w
    ensures Connected(w.history, session) == ReconnectSpec(w.oracle, old(w.history), ep, stale)
  {
    var _ := w.Request(Logout(ep, stale));
    w.Perform(Sleep(ReconnectCooldown));
    session := ConnectSession(w, ep);
  }
}
