/**
 * The transfer ledger: the `transfers` table of the resume database, keyed
 * by (source mailbox, decimal text of the source UID), written with
 * INSERT OR REPLACE and read with an existence query.  Records are never
 * deleted except by the replacement of a row with the same key.
 */
module Ledger {
  import opened Wrappers

  /** An IMAP UID as the program holds it: a non-negative integer. */
  type Uid = nat

  /** One decimal digit character. */
  function Digit(d: nat): (c: char)
    requires d < 10
    ensures '0' <= c <= '9'
  {
    ('0' as int + d) as char
  }

  /** Python's `str(n)` for a non-negative integer: decimal, no leading zero. */
  function Decimal(n: nat): (s: string)
    ensures |s| >= 1
    ensures forall i | 0 <= i < |s| :: '0' <= s[i] <= '9'
    ensures (n < 10) == (|s| == 1)
    ensures n > 0 ==> s[0] != '0'
    decreases n
  {
    if n < 10 then [Digit(n)] else Decimal(n / 10) + [Digit(n % 10)]
  }

  /** Python's `int(s)` on a string of decimal digits. */
  function ParseDecimal(s: string): (n: nat)
    requires forall i | 0 <= i < |s| :: '0' <= s[i] <= '9'
    decreases |s|
  {
    if s == [] then 0 else 10 * ParseDecimal(s[..|s| - 1]) + (s[|s| - 1] as int - '0' as int)
  }

  /** `int(str(n)) == n`: the text key of a UID determines the UID. */
  lemma {:induction false} DecimalRoundTrip(n: nat)
    ensures ParseDecimal(Decimal(n)) == n
    decreases n
  {
    if n >= 10 {
      var s := Decimal(n);
      assert s[..|s| - 1] == Decimal(n / 10);
      DecimalRoundTrip(n / 10);
    }
  }

  /** Distinct UIDs of one mailbox never share a ledger key. */
  lemma DecimalInjective(a: nat, b: nat)
    ensures Decimal(a) == Decimal(b) ==> a == b
  {
    DecimalRoundTrip(a);
    DecimalRoundTrip(b);
  }

  /** The UNIQUE(src_mailbox, src_uid) key of the `transfers` table. */
  datatype Key = Key(mailbox: string, uid: string)

  /** One row of `transfers`; `id` and `transferred_at` are not modelled. */
  datatype Row = Row(srcMailbox: string, srcUid: string, dstMailbox: Option<string>,
                     dstUid: Option<string>, messageId: Option<string>)

  /** The rows in table order. */
  type Table = seq<Row>

  function KeyOf(r: Row): Key {
    Key(r.srcMailbox, r.srcUid)
  }

  /** The key under which a transfer of `uid` from `mailbox` is stored. */
  function TransferKey(mailbox: string, uid: Uid): (k: Key)
  {
    Key(mailbox, Decimal(uid))
  }

  /**
   * The row `record_transfer` writes: UIDs stored as text, and a destination
   * UID stored only when it is truthy (so UID 0 is stored as NULL).
   */
  function TransferRow(srcMailbox: string, srcUid: Uid, dstMailbox: Option<string>,
                       dstUid: Option<Uid>, messageId: Option<string>): (r: Row)
    ensures KeyOf(r) == TransferKey(srcMailbox, srcUid)
    ensures r.dstUid.Some? <==> dstUid.Some? && dstUid.value != 0
    ensures r.dstUid.Some? ==> r.dstUid.value == Decimal(dstUid.value)
    ensures r.dstMailbox == dstMailbox && r.messageId == messageId
  {
    Row(srcMailbox, Decimal(srcUid), dstMailbox,
        if dstUid.Some? && dstUid.value != 0 then Some(Decimal(dstUid.value)) else None,
        messageId)
  }

  /** The table's UNIQUE constraint. */
  ghost predicate Unique(t: Table) {
    forall i, j | 0 <= i < j < |t| :: KeyOf(t[i]) != KeyOf(t[j])
  }

  /** The set of keys that have a row. */
  function Keys(t: Table): set<Key> {
    set r | r in t :: KeyOf(r)
  }

  /** The table with every row of key `k` deleted (REPLACE's conflict resolution). */
  function Without(t: Table, k: Key): (r: Table)
    ensures forall row :: row in r <==> row in t && KeyOf(row) != k
    decreases |t|
  {
    if t == [] then []
    else (if KeyOf(t[0]) == k then [] else [t[0]]) + Without(t[1..], k)
  }

  /** INSERT OR REPLACE: delete the conflicting row, then insert the new one. */
  function Replace(t: Table, row: Row): Table {
    Without(t, KeyOf(row)) + [row]
  }

  /** `SELECT ... WHERE src_mailbox = ? AND src_uid = ? LIMIT 1`. */
  function Find(t: Table, k: Key): (r: Option<Row>)
    ensures r.Some? ==> r.value in t && KeyOf(r.value) == k
    ensures r.None? ==> forall row | row in t :: KeyOf(row) != k
    decreases |t|
  {
    if t == [] then None
    else if KeyOf(t[0]) == k then Some(t[0])
    else Find(t[1..], k)
  }

  /** `already_transferred_by_src` as a truth value. */
  function Has(t: Table, k: Key): bool {
    Find(t, k).Some?
  }

  /** The existence query answers exactly for the keys that have a row. */
  lemma HasIsMembership(t: Table, k: Key)
    ensures Has(t, k) <==> k in Keys(t)
  {
    if Has(t, k) {
      assert Find(t, k).value in t;
    }
  }

  lemma {:induction false} WithoutUnique(t: Table, k: Key)
    requires Unique(t)
    ensures Unique(Without(t, k))
    ensures k !in Keys(Without(t, k))
    decreases |t|
  {
    if t != [] {
      assert Unique(t[1..]);
      WithoutUnique(t[1..], k);
      var rest := Without(t[1..], k);
      if KeyOf(t[0]) != k {
        forall row | row in rest ensures KeyOf(row) != KeyOf(t[0]) {
          var j :| 0 <= j < |t[1..]| && t[1..][j] == row;
          assert t[j + 1] == row;
        }
        assert Without(t, k) == [t[0]] + rest;
      }
    }
  }

  /** INSERT OR REPLACE keeps the UNIQUE constraint. */
  lemma ReplaceKeepsUnique(t: Table, row: Row)
    requires Unique(t)
    ensures Unique(Replace(t, row))
  {
    WithoutUnique(t, KeyOf(row));
    var w := Without(t, KeyOf(row));
    forall i | 0 <= i < |w| ensures KeyOf(w[i]) != KeyOf(row) {
      assert w[i] in w;
    }
  }

  /** INSERT OR REPLACE adds the written key and removes no key. */
  lemma ReplaceKeys(t: Table, row: Row)
    ensures Keys(Replace(t, row)) == Keys(t) + {KeyOf(row)}
  {
    var r := Replace(t, row);
    forall k | k in Keys(t) + {KeyOf(row)} ensures k in Keys(r) {
      if k != KeyOf(row) {
        var x :| x in t && KeyOf(x) == k;
        assert x in Without(t, KeyOf(row));
        assert x in r;
      } else {
        assert row in r;
      }
    }
  }

  /** After a write the written key answers with the new row; the other keys answer as before. */
  lemma {:induction false} ReplaceFind(t: Table, row: Row, k: Key)
    ensures Find(Replace(t, row), k) == if k == KeyOf(row) then Some(row) else Find(t, k)
    decreases |t|
  {
    if t == [] {
      assert Replace(t, row) == [row];
    } else {
      ReplaceFind(t[1..], row, k);
      var rest := Without(t[1..], KeyOf(row));
      if KeyOf(t[0]) == KeyOf(row) {
        assert Replace(t, row) == Replace(t[1..], row);
      } else {
        assert Replace(t, row) == [t[0]] + Replace(t[1..], row);
      }
    }
  }

  /** Last write wins, and a rewrite of an existing key does not grow the table. */
  lemma ReplaceSize(t: Table, row: Row)
    requires Unique(t)
    ensures |Replace(t, row)| == if Has(t, KeyOf(row)) then |t| else |t| + 1
  {
    WithoutSize(t, KeyOf(row));
  }

  lemma {:induction false} WithoutSize(t: Table, k: Key)
    requires Unique(t)
    ensures |Without(t, k)| == if Has(t, k) then |t| - 1 else |t|
    decreases |t|
  {
    if t != [] {
      assert Unique(t[1..]);
      WithoutSize(t[1..], k);
      if KeyOf(t[0]) == k {
        forall row | row in t[1..] ensures KeyOf(row) != k {
          var j :| 0 <= j < |t[1..]| && t[1..][j] == row;
          assert t[j + 1] == row;
        }
      }
    }
  }

  /**
   * The `sqlite3.Connection` holding the ledger.  The table satisfies the
   * UNIQUE constraint whenever the connection is usable.
   */
  class TransferLedger {
    var table: Table

    ghost predicate Valid()
      reads this
    {
      Unique(table)
    }

    /** `open_db`: creating the schema on an existing store keeps its rows. */
    constructor Open(stored: Table)
      requires Unique(stored)
      ensures Valid() && table == stored
    {
      table := stored;
    }

    /** `record_transfer`: INSERT OR REPLACE of the row, then commit. */
    method RecordTransfer(srcMailbox: string, srcUid: Uid, dstMailbox: Option<string>,
                          dstUid: Option<Uid>, messageId: Option<string>)
      requires Valid()
      modifies this
      ensures Valid()
      ensures table == Replace(old(table), TransferRow(srcMailbox, srcUid, dstMailbox, dstUid, messageId))
    {
      ReplaceKeepsUnique(table, TransferRow(srcMailbox, srcUid, dstMailbox, dstUid, messageId));
      table := Replace(table, TransferRow(srcMailbox, srcUid, dstMailbox, dstUid, messageId));
    }

    /** `already_transferred_by_src`: true exactly when the key has a row. */
    method AlreadyTransferred(srcMailbox: string, srcUid: Uid) returns (found: bool)
      ensures found == Has(table, TransferKey(srcMailbox, srcUid))
      ensures found <==> TransferKey(srcMailbox, srcUid) in Keys(table)
    {
      found := Has(table, TransferKey(srcMailbox, srcUid));
      HasIsMembership(table, TransferKey(srcMailbox, srcUid));
    }
  }
}
