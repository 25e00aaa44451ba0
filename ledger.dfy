/**
 * The ledger engine: the running balance over an account's transactions
 * (`computeRunning`) and the per-day or per-month totals of the resulting rows
 * (`groupTotals`).
 */
module Ledger {
  import opened Wrappers
  import opened Dates
  import opened Json

  type Meta = map<string, Value>

  /** A transaction as the engine reads it; debit and credit may be missing. */
  datatype Tx = Tx(
    date: Date,
    voucherNo: Option<string>,
    description: Option<string>,
    debit: Option<real>,
    credit: Option<real>,
    meta: Option<Meta>)

  /** A transaction with the balance standing after it. */
  datatype LedgerRow = LedgerRow(
    date: Date,
    voucherNo: Option<string>,
    description: Option<string>,
    debit: Option<real>,
    credit: Option<real>,
    meta: Option<Meta>,
    runningBalance: real)

  datatype Item = Item(key: Key, debit: real, credit: real, closing: real)

  datatype Totals = Totals(period: string, items: seq<Item>)

  datatype LedgerSummary = LedgerSummary(opening: real, rows: seq<LedgerRow>, totals: Totals)

  /** `Number(x ?? 0)`, and also `Number(x || 0)`, for an amount that may be missing. */
  function Amount(a: Option<real>): real {
    a.GetOr(0.0)
  }

  function TxNet(t: Tx): real {
    Amount(t.debit) - Amount(t.credit)
  }

  /** Σ (debit − credit) over `txs`. */
  function Net(txs: seq<Tx>): real {
    if txs == [] then 0.0 else Net(txs[..|txs| - 1]) + TxNet(txs[|txs| - 1])
  }

  lemma {:induction false} NetAppend(a: seq<Tx>, b: seq<Tx>)
    ensures Net(a + b) == Net(a) + Net(b)
  {
    if b == [] {
      assert a + b == a;
    } else {
      NetAppend(a, b[..|b| - 1]);
      assert (a + b)[..|a + b| - 1] == a + b[..|b| - 1];
    }
  }

  /** The row `computeRunning` emits for `t`: its fields copied, with the balance after it. */
  function WithBalance(t: Tx, balance: real): LedgerRow {
    LedgerRow(t.date, t.voucherNo, t.description, t.debit, t.credit, t.meta, balance)
  }

  /** One row per transaction, each carrying the balance after the history up to it. */
  function RunningRows(txs: seq<Tx>, opening: real): (rows: seq<LedgerRow>)
    ensures |rows| == |txs|
  {
    if txs == [] then []
    else RunningRows(txs[..|txs| - 1], opening) + [WithBalance(txs[|txs| - 1], opening + Net(txs))]
  }

  /** Row i copies transaction i and carries `opening + Σ_{j ≤ i} (debit_j − credit_j)`. */
  lemma {:induction false} RunningAt(txs: seq<Tx>, opening: real, i: nat)
    requires i < |txs|
    ensures RunningRows(txs, opening)[i] == WithBalance(txs[i], opening + Net(txs[..i + 1]))
  {
    if i < |txs| - 1 {
      var init := txs[..|txs| - 1];
      RunningAt(init, opening, i);
      assert init[..i + 1] == txs[..i + 1];
    } else {
      assert txs[..i + 1] == txs;
    }
  }

  /** `computeRunning(txs, opening)` */
  method ComputeRunning(txs: seq<Tx>, opening: real) returns (out: seq<LedgerRow>)
    ensures out == RunningRows(txs, opening)
  {
    var bal := opening;
    out := [];
    for i := 0 to |txs|
      invariant bal == opening + Net(txs[..i])
      invariant out == RunningRows(txs[..i], opening)
    {
      var t := txs[i];
      var debit := Amount(t.debit);
      var credit := Amount(t.credit);
      bal := bal + (debit - credit);
      assert txs[..i + 1][..i] == txs[..i];
      out := out + [WithBalance(t, bal)];
    }
    assert txs[..|txs|] == txs;
  }

  /** Each balance is the one before it moved by that row's debit minus credit. */
  lemma RunningStep(txs: seq<Tx>, opening: real, i: nat)
    requires 0 < i < |txs|
    ensures RunningRows(txs, opening)[i].runningBalance
         == RunningRows(txs, opening)[i - 1].runningBalance + TxNet(txs[i])
  {
    RunningAt(txs, opening, i);
    RunningAt(txs, opening, i - 1);
    assert txs[..i + 1][..i] == txs[..i];
  }

  /**
   * Running over a history in two parts: the second part, started from the
   * opening carried past the first, gets the balances it would have had in the whole.
   */
  lemma {:induction false} RunningSplit(a: seq<Tx>, b: seq<Tx>, opening: real)
    ensures RunningRows(a + b, opening) == RunningRows(a, opening) + RunningRows(b, opening + Net(a))
  {
    if b == [] {
      assert a + b == a;
    } else {
      var init, t := b[..|b| - 1], b[|b| - 1];
      var o' := opening + Net(a);
      var ab := a + b;
      assert ab[..|ab| - 1] == a + init && ab[|ab| - 1] == t;
      assert RunningRows(ab, opening) == RunningRows(a + init, opening) + [WithBalance(t, opening + Net(ab))];
      assert RunningRows(b, o') == RunningRows(init, o') + [WithBalance(t, o' + Net(b))];
      RunningSplit(a, init, opening);
      NetAppend(a, b);
    }
  }

  // ---------------------------------------------------------------------------
  // Period totals

  datatype Side = DebitSide | CreditSide

  /** `Number(r.debit || 0)` or `Number(r.credit || 0)` */
  function RowAmount(r: LedgerRow, side: Side): real {
    if side == DebitSide then Amount(r.debit) else Amount(r.credit)
  }

  function RowKey(period: string, r: LedgerRow): Key {
    KeyOf(period, r.date)
  }

  /** The distinct bucket keys of `rows`, in the order they first appear. */
  function FirstSeenKeys(rows: seq<LedgerRow>, period: string): seq<Key> {
    if rows == [] then []
    else
      var ks := FirstSeenKeys(rows[..|rows| - 1], period);
      var k := RowKey(period, rows[|rows| - 1]);
      if k in ks then ks else ks + [k]
  }

  /** Σ of one side's amounts over the rows carrying key `k`. */
  function SumIn(rows: seq<LedgerRow>, period: string, k: Key, side: Side): real {
    if rows == [] then 0.0
    else
      SumIn(rows[..|rows| - 1], period, k, side)
      + (if RowKey(period, rows[|rows| - 1]) == k then RowAmount(rows[|rows| - 1], side) else 0.0)
  }

  /** The running balance of the last row carrying key `k` (0 when there is none). */
  function ClosingIn(rows: seq<LedgerRow>, period: string, k: Key): real {
    if rows == [] then 0.0
    else if RowKey(period, rows[|rows| - 1]) == k then rows[|rows| - 1].runningBalance
    else ClosingIn(rows[..|rows| - 1], period, k)
  }

  function ItemFor(rows: seq<LedgerRow>, period: string, k: Key): Item {
    Item(k, SumIn(rows, period, k, DebitSide), SumIn(rows, period, k, CreditSide), ClosingIn(rows, period, k))
  }

  /**
   * What `groupTotals` returns: one item per distinct key, in first-seen
   * order; the items' debit and credit totals add up to those of the rows.
   */
  function GroupSpec(rows: seq<LedgerRow>, period: string): (t: Totals)
    ensures t.period == period && |t.items| == |FirstSeenKeys(rows, period)|
    ensures forall i, j :: 0 <= i < j < |t.items| ==> t.items[i].key != t.items[j].key
    ensures SumItems(t.items, DebitSide) == SumAll(rows, DebitSide)
    ensures SumItems(t.items, CreditSide) == SumAll(rows, CreditSide)
  {
    var ks := FirstSeenKeys(rows, period);
    FirstSeenKeysAreTheKeys(rows, period);
    SumItemsOverKeys(ks, rows, period, DebitSide);
    SumItemsOverKeys(ks, rows, period, CreditSide);
    BucketsPartitionTotals(rows, period, DebitSide);
    BucketsPartitionTotals(rows, period, CreditSide);
    Totals(period, seq(|ks|, i requires 0 <= i < |ks| => ItemFor(rows, period, ks[i])))
  }

  /** A `Map` entry of `groupTotals`. */
  datatype Entry = Entry(debit: real, credit: real, closing: real)

  /** `groupTotals(rows, period)`; `order` records the insertion order of the `Map`. */
  method GroupTotals(rows: seq<LedgerRow>, period: string) returns (t: Totals)
    ensures t == GroupSpec(rows, period)
  {
    var byKey: map<Key, Entry> := map[];
    var order: seq<Key> := [];
    for i := 0 to |rows|
      invariant order == FirstSeenKeys(rows[..i], period)
      invariant forall k :: k in byKey <==> k in order
      invariant forall k :: k in byKey ==> byKey[k] == Entry(SumIn(rows[..i], period, k, DebitSide),
                                                            SumIn(rows[..i], period, k, CreditSide),
                                                            ClosingIn(rows[..i], period, k))
    {
      assert rows[..i + 1][..i] == rows[..i];
      var r := rows[i];
      var key := KeyOf(period, r.date);
      var entry := if key in byKey then byKey[key] else Entry(0.0, 0.0, 0.0);
      if key !in byKey {
        NoRowsNoTotals(rows[..i], period, key);
        order := order + [key];
      }
      entry := Entry(entry.debit + Amount(r.debit), entry.credit + Amount(r.credit), r.runningBalance);
      byKey := byKey[key := entry];
    }
    assert rows[..|rows|] == rows;
    t := Totals(period, seq(|order|, j requires 0 <= j < |order| =>
                              Item(order[j], byKey[order[j]].debit, byKey[order[j]].credit, byKey[order[j]].closing)));
  }

  // ---------------------------------------------------------------------------
  // What the totals mean

  /** A key no row carries has empty totals. */
  lemma {:induction false} NoRowsNoTotals(rows: seq<LedgerRow>, period: string, k: Key)
    requires k !in FirstSeenKeys(rows, period)
    ensures SumIn(rows, period, k, DebitSide) == 0.0 && SumIn(rows, period, k, CreditSide) == 0.0
    ensures ClosingIn(rows, period, k) == 0.0
  {
    if rows != [] {
      NoRowsNoTotals(rows[..|rows| - 1], period, k);
    }
  }

  predicate Distinct(ks: seq<Key>) {
    forall i, j :: 0 <= i < j < |ks| ==> ks[i] != ks[j]
  }

  /** The keys are distinct, and they are exactly the keys the rows carry. */
  lemma {:induction false} FirstSeenKeysAreTheKeys(rows: seq<LedgerRow>, period: string)
    ensures Distinct(FirstSeenKeys(rows, period))
    ensures forall k :: k in FirstSeenKeys(rows, period) <==> exists i :: 0 <= i < |rows| && RowKey(period, rows[i]) == k
  {
    if rows != [] {
      var init := rows[..|rows| - 1];
      FirstSeenKeysAreTheKeys(init, period);
      assert forall i :: 0 <= i < |init| ==> rows[i] == init[i];
      forall k | (exists i :: 0 <= i < |rows| && RowKey(period, rows[i]) == k)
        ensures k in FirstSeenKeys(rows, period)
      {
        var i :| 0 <= i < |rows| && RowKey(period, rows[i]) == k;
        if i < |rows| - 1 {
          assert RowKey(period, init[i]) == k;
        }
      }
    }
  }

  /** Keys come in first-seen order: every row carrying a later key follows a row carrying an earlier one. */
  lemma {:induction false} FirstSeenOrder(rows: seq<LedgerRow>, period: string, a: nat, b: nat, j: nat)
    requires a < b < |FirstSeenKeys(rows, period)|
    requires j < |rows| && RowKey(period, rows[j]) == FirstSeenKeys(rows, period)[b]
    ensures exists i :: 0 <= i < j && RowKey(period, rows[i]) == FirstSeenKeys(rows, period)[a]
  {
    var init := rows[..|rows| - 1];
    var ks := FirstSeenKeys(init, period);
    var ka := FirstSeenKeys(rows, period)[a];
    var kb := FirstSeenKeys(rows, period)[b];
    FirstSeenKeysAreTheKeys(init, period);
    if b < |ks| {
      // both keys were already known before the last row
      var j' := j;
      if j == |rows| - 1 {
        assert kb in ks;
        j' :| 0 <= j' < |init| && RowKey(period, init[j']) == kb;
      }
      assert RowKey(period, init[j']) == ks[b];
      FirstSeenOrder(init, period, a, b, j');
      var i :| 0 <= i < j' && RowKey(period, init[i]) == ks[a];
      assert rows[i] == init[i];
    } else {
      // kb is new with the last row, so j is the last row
      if j < |rows| - 1 {
        assert false;
      }
      assert ka in ks;
      var i :| 0 <= i < |init| && RowKey(period, init[i]) == ka;
      assert rows[i] == init[i];
    }
  }

  /** An item's closing is the balance of the last row of its bucket. */
  lemma {:induction false} ClosingIsLastRow(rows: seq<LedgerRow>, period: string, k: Key)
    requires k in FirstSeenKeys(rows, period)
    ensures exists i :: 0 <= i < |rows| && RowKey(period, rows[i]) == k
                        && ClosingIn(rows, period, k) == rows[i].runningBalance
                        && forall j :: i < j < |rows| ==> RowKey(period, rows[j]) != k
  {
    var init := rows[..|rows| - 1];
    if RowKey(period, rows[|rows| - 1]) != k {
      ClosingIsLastRow(init, period, k);
      var i :| 0 <= i < |init| && RowKey(period, init[i]) == k
               && ClosingIn(init, period, k) == init[i].runningBalance
               && forall j :: i < j < |init| ==> RowKey(period, init[j]) != k;
      assert rows[i] == init[i];
      forall j | i < j < |rows| ensures RowKey(period, rows[j]) != k {
        if j < |rows| - 1 { assert rows[j] == init[j]; }
      }
    }
  }

  /** Σ of one side over every row. */
  function SumAll(rows: seq<LedgerRow>, side: Side): real {
    if rows == [] then 0.0 else SumAll(rows[..|rows| - 1], side) + RowAmount(rows[|rows| - 1], side)
  }

  /** Σ over the keys `ks` of each key's total. */
  function SumOverKeys(ks: seq<Key>, rows: seq<LedgerRow>, period: string, side: Side): real {
    if ks == [] then 0.0 else SumOverKeys(ks[..|ks| - 1], rows, period, side) + SumIn(rows, period, ks[|ks| - 1], side)
  }

  lemma {:induction false} SumOverKeysShift(ks: seq<Key>, rows: seq<LedgerRow>, r: LedgerRow, period: string, side: Side)
    requires Distinct(ks)
    ensures SumOverKeys(ks, rows + [r], period, side)
         == SumOverKeys(ks, rows, period, side) + (if RowKey(period, r) in ks then RowAmount(r, side) else 0.0)
  {
    if ks != [] {
      var init := ks[..|ks| - 1];
      assert Distinct(init);
      SumOverKeysShift(init, rows, r, period, side);
      assert (rows + [r])[..|rows + [r]| - 1] == rows;
      assert RowKey(period, r) in ks <==> RowKey(period, r) in init || RowKey(period, r) == ks[|ks| - 1];
    }
  }

  /** The buckets' totals add up to the totals of all rows. */
  lemma {:induction false} BucketsPartitionTotals(rows: seq<LedgerRow>, period: string, side: Side)
    ensures SumOverKeys(FirstSeenKeys(rows, period), rows, period, side) == SumAll(rows, side)
  {
    if rows != [] {
      var init, r := rows[..|rows| - 1], rows[|rows| - 1];
      var ks := FirstSeenKeys(init, period);
      BucketsPartitionTotals(init, period, side);
      FirstSeenKeysAreTheKeys(init, period);
      assert rows == init + [r];
      SumOverKeysShift(ks, init, r, period, side);
      if RowKey(period, r) !in ks {
        NoRowsNoTotals(init, period, RowKey(period, r));
        assert (ks + [RowKey(period, r)])[..|ks|] == ks;
      }
    }
  }

  function ItemAmount(it: Item, side: Side): real {
    if side == DebitSide then it.debit else it.credit
  }

  function SumItems(items: seq<Item>, side: Side): real {
    if items == [] then 0.0 else SumItems(items[..|items| - 1], side) + ItemAmount(items[|items| - 1], side)
  }

  lemma {:induction false} SumItemsOverKeys(ks: seq<Key>, rows: seq<LedgerRow>, period: string, side: Side)
    ensures SumItems(seq(|ks|, i requires 0 <= i < |ks| => ItemFor(rows, period, ks[i])), side)
         == SumOverKeys(ks, rows, period, side)
  {
    if ks != [] {
      var init := ks[..|ks| - 1];
      SumItemsOverKeys(init, rows, period, side);
      var items := seq(|ks|, i requires 0 <= i < |ks| => ItemFor(rows, period, ks[i]));
      assert items[..|items| - 1] == seq(|init|, i requires 0 <= i < |init| => ItemFor(rows, period, init[i]));
    }
  }

  /**
   * The seeded account: opening 500000 on the debit side, then a credit of
   * 100000 on day 1 and a debit of 150000 and a credit of 7500 on day 2. The
   * balances run 400000, 550000, 542500 and day 2 totals 150000 / 7500,
   * closing at 542500.
   */
  lemma SeedExample()
    ensures
      var txs := [
        Tx(Date(2024, 1, 1, 0), Some("V-001"), Some("Cash paid"), Some(0.0), Some(100000.0), None),
        Tx(Date(2024, 1, 2, 0), Some("V-002"), Some("Sale"), Some(150000.0), Some(0.0), None),
        Tx(Date(2024, 1, 2, 0), Some("V-003"), Some("Tax"), Some(0.0), Some(7500.0), None)];
      var rows := RunningRows(txs, 500000.0);
      && rows[0].runningBalance == 400000.0
      && rows[1].runningBalance == 550000.0
      && rows[2].runningBalance == 542500.0
      && GroupSpec(rows, "day").items == [
           Item(Day(2024, 1, 1), 0.0, 100000.0, 400000.0),
           Item(Day(2024, 1, 2), 150000.0, 7500.0, 542500.0)]
  {
    var txs := [
      Tx(Date(2024, 1, 1, 0), Some("V-001"), Some("Cash paid"), Some(0.0), Some(100000.0), None),
      Tx(Date(2024, 1, 2, 0), Some("V-002"), Some("Sale"), Some(150000.0), Some(0.0), None),
      Tx(Date(2024, 1, 2, 0), Some("V-003"), Some("Tax"), Some(0.0), Some(7500.0), None)];
    assert txs[..1] == [txs[0]] && txs[..2] == [txs[0], txs[1]] && txs[..3] == txs;
    assert [txs[0], txs[1]][..1] == [txs[0]] && txs[..2][..1] == txs[..1] && txs[..|txs| - 1] == txs[..2];
    assert Net(txs[..1]) == -100000.0;
    assert Net(txs[..2]) == 50000.0;
    assert Net(txs) == 42500.0;
    var rows := RunningRows(txs, 500000.0);
    RunningAt(txs, 500000.0, 0);
    RunningAt(txs, 500000.0, 1);
    RunningAt(txs, 500000.0, 2);
    var r0, r1, r2 := WithBalance(txs[0], 400000.0), WithBalance(txs[1], 550000.0), WithBalance(txs[2], 542500.0);
    assert rows == [r0, r1, r2];
    assert rows[..1] == [r0] && rows[..2] == [r0, r1];
    assert rows[..2][..1] == rows[..1] && rows[..|rows| - 1] == rows[..2];
    assert FirstSeenKeys(rows[..1], "day") == [Day(2024, 1, 1)];
    assert FirstSeenKeys(rows[..2], "day") == [Day(2024, 1, 1), Day(2024, 1, 2)];
    var k1, k2 := Day(2024, 1, 1), Day(2024, 1, 2);
    assert SumIn(rows[..1], "day", k1, DebitSide) == 0.0 && SumIn(rows[..1], "day", k1, CreditSide) == 100000.0;
    assert SumIn(rows[..2], "day", k1, DebitSide) == 0.0 && SumIn(rows[..2], "day", k1, CreditSide) == 100000.0;
    assert SumIn(rows[..1], "day", k2, DebitSide) == 0.0 && SumIn(rows[..1], "day", k2, CreditSide) == 0.0;
    assert ClosingIn(rows[..1], "day", k1) == 400000.0 && ClosingIn(rows[..2], "day", k1) == 400000.0;
    assert SumIn(rows[..2], "day", k2, DebitSide) == 150000.0 && SumIn(rows[..2], "day", k2, CreditSide) == 0.0;
    assert ItemFor(rows, "day", k1) == Item(k1, 0.0, 100000.0, 400000.0);
    assert ItemFor(rows, "day", k2) == Item(k2, 150000.0, 7500.0, 542500.0);
    assert FirstSeenKeys(rows, "day") == [Day(2024, 1, 1), Day(2024, 1, 2)];
  }
}
