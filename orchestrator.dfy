/**
 * The mailbox loop of `main`: every listed mailbox that is not excluded is
 * migrated, in listing order, to its mapped destination name, with the
 * defaults of `migrate_mailbox`; an exception out of one mailbox ends the
 * loop and `main`.
 */
module Orchestrator {
  import opened Wrappers
  import opened Ledger
  import opened Session
  import opened Pipeline
  import opened Effects

  /** `main` leaves `batch` and `sleep_between` at their defaults. */
  const DefaultBatch: int := 50
  const DefaultSleep: int := 2

  /**
   * `mapping.get(src, src) if mapping else src`: with no mapping, an empty
   * one or a name it does not list, the destination keeps the source's name.
   */
  function Destination(mapping: Option<map<string, string>>, src: string): (dst: string)
    ensures mapping.Some? && src in mapping.value ==> dst == mapping.value[src]
    ensures mapping.None? || src !in mapping.value ==> dst == src
    ensures dst == src || (mapping.Some? && dst in mapping.value.Values)
  {
    if mapping.Some? && src in mapping.value then mapping.value[src] else src
  }

  /** The arguments `main` passes to `migrate_mailbox` for mailbox `src`. */
  function JobFor(src: string, mapping: Option<map<string, string>>, dryRun: bool): (job: Params)
    ensures job.srcMailbox == src && job.dstMailbox == Destination(mapping, src) && job.dryRun == dryRun
    ensures job.batch == 50 && job.sleepBetween == 2
    ensures job.batch > 0 && job.sleepBetween > 0
  {
    Params(src, Destination(mapping, src), DefaultBatch, DefaultSleep, dryRun)
  }

  /** The `migrate_mailbox` calls of the loop, in order, for a run that raises nothing. */
  function Plan(mailboxes: seq<string>, exclude: set<string>, mapping: Option<map<string, string>>,
                dryRun: bool): (jobs: seq<Params>)
    ensures |jobs| <= |mailboxes|
  {
    if mailboxes == [] then []
    else (if mailboxes[0] in exclude then [] else [JobFor(mailboxes[0], mapping, dryRun)])
         + Plan(mailboxes[1..], exclude, mapping, dryRun)
  }

  /** The plan is built mailbox by mailbox: listing order is kept. */
  lemma {:induction false} PlanConcat(a: seq<string>, b: seq<string>, exclude: set<string>,
                                      mapping: Option<map<string, string>>, dryRun: bool)
    ensures Plan(a + b, exclude, mapping, dryRun) == Plan(a, exclude, mapping, dryRun) + Plan(b, exclude, mapping, dryRun)
    decreases |a|
  {
    if a == [] {
      assert a + b == b;
    } else {
      assert (a + b)[0] == a[0];
      assert (a + b)[1..] == a[1..] + b;
      PlanConcat(a[1..], b, exclude, mapping, dryRun);
    }
  }

  /** One mailbox contributes its job, or nothing when it is excluded. */
  lemma PlanSingle(m: string, exclude: set<string>, mapping: Option<map<string, string>>, dryRun: bool)
    ensures Plan([m], exclude, mapping, dryRun) == if m in exclude then [] else [JobFor(m, mapping, dryRun)]
  {
    assert [m][1..] == [];
  }

  /**
   * Every job is for a listed, non-excluded mailbox, to its mapped
   * destination, with the default batch size and pause and the run's
   * dry-run flag.
   */
  lemma {:induction false} PlanSound(mailboxes: seq<string>, exclude: set<string>,
                                     mapping: Option<map<string, string>>, dryRun: bool)
    ensures forall j | j in Plan(mailboxes, exclude, mapping, dryRun) ::
              && j.srcMailbox in mailboxes && j.srcMailbox !in exclude
              && j.dstMailbox == Destination(mapping, j.srcMailbox)
              && j.batch == DefaultBatch && j.sleepBetween == DefaultSleep && j.dryRun == dryRun
    decreases |mailboxes|
  {
    if mailboxes != [] {
      PlanSound(mailboxes[1..], exclude, mapping, dryRun);
      forall j | j in Plan(mailboxes[1..], exclude, mapping, dryRun) ensures j.srcMailbox in mailboxes {
        assert j.srcMailbox in mailboxes[1..];
      }
    }
  }

  /** Every listed mailbox that is not excluded gets its job. */
  lemma {:induction false} PlanComplete(mailboxes: seq<string>, exclude: set<string>,
                                        mapping: Option<map<string, string>>, dryRun: bool)
    ensures forall m | m in mailboxes && m !in exclude :: JobFor(m, mapping, dryRun) in Plan(mailboxes, exclude, mapping, dryRun)
    decreases |mailboxes|
  {
    if mailboxes != [] {
      PlanComplete(mailboxes[1..], exclude, mapping, dryRun);
      forall m | m in mailboxes && m !in exclude
        ensures JobFor(m, mapping, dryRun) in Plan(mailboxes, exclude, mapping, dryRun)
      {
        if m != mailboxes[0] {
          assert m in mailboxes[1..];
        }
      }
    }
  }

  /** Where the loop left the history and the ledger, and whether `main` raised. */
  datatype Outcome = Outcome(history: seq<Event>, table: Table, raised: bool)

  /** The jobs run one after another until one raises. */
  function RunAll(o: Oracle, h: seq<Event>, t: Table, jobs: seq<Params>): (r: Outcome)
    ensures h <= r.history
    decreases |jobs|
  {
    if jobs == [] then Outcome(h, t, false)
    else
      var m := Migrate(o, h, t, jobs[0]);
      if m.raised then Outcome(m.history, m.table, true)
      else RunAll(o, m.history, m.table, jobs[1..])
  }

  lemma PlanStep(mailboxes: seq<string>, i: nat, exclude: set<string>, mapping: Option<map<string, string>>, dryRun: bool)
    requires i < |mailboxes|
    ensures Plan(mailboxes[i..], exclude, mapping, dryRun)
            == (if mailboxes[i] in exclude then [] else [JobFor(mailboxes[i], mapping, dryRun)])
               + Plan(mailboxes[i + 1..], exclude, mapping, dryRun)
  {
    assert mailboxes[i..][0] == mailboxes[i];
    assert mailboxes[i..][1..] == mailboxes[i + 1..];
  }

  lemma RunAllStep(o: Oracle, h: seq<Event>, t: Table, job: Params, jobs: seq<Params>)
    ensures var m := Migrate(o, h, t, job);
            RunAll(o, h, t, [job] + jobs)
            == if m.raised then Outcome(m.history, m.table, true) else RunAll(o, m.history, m.table, jobs)
  {
    assert ([job] + jobs)[0] == job && ([job] + jobs)[1..] == jobs;
  }

  /** The loop of `main` over the listed mailboxes, on the ledger `db`. */
  method MigrateAll(w: World, db: TransferLedger, mailboxes: seq<string>, exclude: set<string>,
                    mapping: Option<map<string, string>>, dryRun: bool) returns (raised: bool)
    requires db.Valid()
    modifies w, db
    ensures db.Valid()
    ensures Outcome(w.history, db.table, raised)
            == RunAll(w.oracle, old(w.history), old(db.table), Plan(mailboxes, exclude, mapping, dryRun))
  {
    ghost var goal := RunAll(w.oracle, w.history, db.table, Plan(mailboxes, exclude, mapping, dryRun));
    raised := false;
    var i: nat := 0;
    while i < |mailboxes| && !raised
      invariant i <= |mailboxes| && db.Valid()
      invariant raised ==> goal == Outcome(w.history, db.table, true)
      invariant !raised ==> goal == RunAll(w.oracle, w.history, db.table, Plan(mailboxes[i..], exclude, mapping, dryRun))
      decreases |mailboxes| - i
    {
      var src := mailboxes[i];
      ghost var rest := Plan(mailboxes[i + 1..], exclude, mapping, dryRun);
      PlanStep(mailboxes, i, exclude, mapping, dryRun);
      if src in exclude {
        assert [] + rest == rest;
      } else {
        ghost var h0, t0 := w.history, db.table;
        var _, r := MigrateMailbox(w, db, JobFor(src, mapping, dryRun));
        RunAllStep(w.oracle, h0, t0, JobFor(src, mapping, dryRun), rest);
        raised := r;
      }
      i := i + 1;
    }
    if !raised {
      assert mailboxes[i..] == [];
    }
  }

  // ---------------------------------------------------------------- the whole run

  /** The effect of a run of several jobs on the ledger and the commits. */
  ghost predicate RunBehaves(h0: seq<Event>, t0: Table, h1: seq<Event>, t1: Table, jobs: seq<Params>) {
    && h0 <= h1
    && (forall row | row in t0 :: row in t1)
    && (forall row | row in t1 && row !in t0 ::
          exists j | j in jobs :: row.srcMailbox == j.srcMailbox && row.dstMailbox == Some(j.dstMailbox))
    && Keys(t1) == Keys(t0) + Recorded(h1, |h0|)
    && (forall i | |h0| <= i < |h1| && h1[i].call.Record? :: h1[i].call.key !in Keys(t0))
    && DistinctRecords(h1, |h0|)
    && (Unique(t0) ==> Unique(t1))
  }

  /** One job, then the rest. */
  lemma ChainRun(h0: seq<Event>, t0: Table, h1: seq<Event>, t1: Table, h2: seq<Event>, t2: Table, jobs: seq<Params>)
    requires jobs != []
    requires Behaves(h0, t0, h1, t1, jobs[0]) && RunBehaves(h1, t1, h2, t2, jobs[1..])
    ensures RunBehaves(h0, t0, h2, t2, jobs)
  {
    RecordedSplit(h0, h1, h2);
    forall row | row in t2 && row !in t0
      ensures exists j | j in jobs :: row.srcMailbox == j.srcMailbox && row.dstMailbox == Some(j.dstMailbox)
    {
      if row in t1 {
        assert jobs[0] in jobs;
      } else {
        var j :| j in jobs[1..] && row.srcMailbox == j.srcMailbox && row.dstMailbox == Some(j.dstMailbox);
        assert j in jobs;
      }
    }
    forall i | |h0| <= i < |h2| && h2[i].call.Record? ensures h2[i].call.key !in Keys(t0) {
      if i < |h1| {
        assert h2[i] == h1[i];
        forall k | k in Keys(t0) ensures k != h2[i].call.key {
          assert !Touches(h1[i], jobs[0].srcMailbox, k);
        }
      }
    }
    forall i, j | |h0| <= j < i < |h2| && h2[i].call.Record? && h2[j].call.Record?
      ensures h2[j].call.key != h2[i].call.key
    {
      if i < |h1| {
        assert h2[i] == h1[i] && h2[j] == h1[j];
      } else if j < |h1| {
        assert h2[j] == h1[j];
        assert h2[j].call.key in Recorded(h1, |h0|);
      }
    }
  }

  /**
   * Over the whole loop: old rows stay, every new row comes from one of the
   * jobs' source mailboxes to that job's destination, the keys grow by the
   * keys committed, a key already in the ledger is never committed again,
   * no key is committed twice (even when a mailbox is listed twice), and
   * the table stays free of duplicate keys.
   */
  lemma {:induction false} RunAllBehaves(o: Oracle, h: seq<Event>, t: Table, jobs: seq<Params>)
    ensures RunBehaves(h, t, RunAll(o, h, t, jobs).history, RunAll(o, h, t, jobs).table, jobs)
    decreases |jobs|
  {
    if jobs == [] {
      assert Recorded(h, |h|) == {};
    } else {
      MigrateBehaves(o, h, t, jobs[0]);
      var m := Migrate(o, h, t, jobs[0]);
      if m.raised {
        StopRun(h, t, m.history, m.table, jobs);
      } else {
        var r := RunAll(o, m.history, m.table, jobs[1..]);
        RunAllBehaves(o, m.history, m.table, jobs[1..]);
        ChainRun(h, t, m.history, m.table, r.history, r.table, jobs);
      }
    }
  }

  /** A job that raises ends the run. */
  lemma StopRun(h0: seq<Event>, t0: Table, h1: seq<Event>, t1: Table, jobs: seq<Params>)
    requires jobs != [] && Behaves(h0, t0, h1, t1, jobs[0])
    ensures RunBehaves(h0, t0, h1, t1, jobs)
  {
    assert RunBehaves(h1, t1, h1, t1, jobs[1..]) by {
      assert Recorded(h1, |h1|) == {};
    }
    ChainRun(h0, t0, h1, t1, h1, t1, jobs);
  }

  /**
   * So `main` adds ledger rows only for listed mailboxes that are not
   * excluded, each one recording the destination name the mapping gives.
   */
  lemma PlanRows(o: Oracle, h: seq<Event>, t: Table, mailboxes: seq<string>, exclude: set<string>,
                 mapping: Option<map<string, string>>, dryRun: bool)
    ensures var r := RunAll(o, h, t, Plan(mailboxes, exclude, mapping, dryRun));
            forall row | row in r.table && row !in t ::
              && row.srcMailbox in mailboxes && row.srcMailbox !in exclude
              && row.dstMailbox == Some(Destination(mapping, row.srcMailbox))
  {
    var jobs := Plan(mailboxes, exclude, mapping, dryRun);
    RunAllBehaves(o, h, t, jobs);
    PlanSound(mailboxes, exclude, mapping, dryRun);
  }
}
