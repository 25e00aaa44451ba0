/**
 * The ledger table: reading nested `meta` values by a dotted path, and the
 * rule that puts a subtotal line after the last row of each day or month.
 */
module LedgerTable {
  import opened Wrappers
  import opened Dates
  import opened Json
  import opened Text
  import opened Ledger

  /**
   * Walks down `v` one key per path segment; none as soon as a segment is
   * missing or the value reached is not an object.
   */
  function Descend(v: Value, parts: seq<string>): Option<Value> {
    if parts == [] then Some(v)
    else if v.Obj? && parts[0] in v.fields then Descend(v.fields[parts[0]], parts[1..])
    else None
  }

  /** What `getMeta(meta, path)` returns: undefined without meta, else the walk along `path.split('.')`. */
  function MetaAt(meta: Option<Meta>, path: string): Option<Value> {
    if meta.None? then None else Descend(Obj(meta.value), Split(path, '.'))
  }

  /** `getMeta(meta, path)` */
  method GetMeta(meta: Option<Meta>, path: string) returns (r: Option<Value>)
    ensures r == MetaAt(meta, path)
    ensures meta.None? ==> r.None?
  {
    if meta.None? {
      return None;
    }
    var parts := Split(path, '.');
    var cur := Obj(meta.value);
    for i := 0 to |parts|
      invariant Descend(Obj(meta.value), parts) == Descend(cur, parts[i..])
    {
      assert parts[i..][1..] == parts[i + 1..];
      var p := parts[i];
      if cur.Obj? && p in cur.fields {
        cur := cur.fields[p];
      } else {
        return None;
      }
    }
    assert parts[|parts|..] == [];
    return Some(cur);
  }

  /** Walking a path in two pieces is walking the first piece, then the second from where it ended. */
  lemma {:induction false} DescendAppend(v: Value, a: seq<string>, b: seq<string>)
    ensures Descend(v, a + b) == if Descend(v, a).None? then None else Descend(Descend(v, a).value, b)
  {
    if a == [] {
      assert a + b == b;
    } else {
      assert (a + b)[0] == a[0];
      assert (a + b)[1..] == a[1..] + b;
      if v.Obj? && a[0] in v.fields {
        DescendAppend(v.fields[a[0]], a[1..], b);
      }
    }
  }

  /** A path without a dot reads the key itself, and is undefined when the key is missing. */
  lemma SingleSegment(meta: Meta, key: string)
    requires '.' !in key
    ensures MetaAt(Some(meta), key) == if key in meta then Some(meta[key]) else None
  {
    SplitNoSep(key, '.');
    assert [key][1..] == [];
    if key in meta {
      assert Descend(Obj(meta), [key]) == Descend(meta[key], []);
    }
  }

  /** `head.rest` reads `rest` inside `meta[head]`, and is undefined when `head` is missing. */
  lemma DottedPath(meta: Meta, head: string, rest: string)
    requires '.' !in head
    ensures MetaAt(Some(meta), head + "." + rest)
         == if head in meta then Descend(meta[head], Split(rest, '.')) else None
  {
    SplitPrefix(head, rest, '.');
    assert head + "." + rest == head + ['.'] + rest;
  }

  /**
   * What a body cell holds: `meta.X` columns read `getMeta(row.meta, X)`, the
   * date column its formatted date, others the row field of that name.
   */
  function ColumnValue(r: LedgerRow, key: string, formatDate: Date -> string): (v: Option<Value>)
    ensures StartsWith(key, "meta.") ==> v == MetaAt(r.meta, key[5..])
    ensures !StartsWith(key, "meta.") && key == "date" ==> v == Some(Str(formatDate(r.date)))
  {
    if StartsWith(key, "meta.") then MetaAt(r.meta, key[5..])
    else if key == "date" then Some(Str(formatDate(r.date)))
    else if key == "voucherNo" then (if r.voucherNo.Some? then Some(Str(r.voucherNo.value)) else None)
    else if key == "description" then (if r.description.Some? then Some(Str(r.description.value)) else None)
    else if key == "debit" then (if r.debit.Some? then Some(Num(r.debit.value)) else None)
    else if key == "credit" then (if r.credit.Some? then Some(Num(r.credit.value)) else None)
    else if key == "runningBalance" then Some(Num(r.runningBalance))
    else None
  }

  // ---------------------------------------------------------------------------
  // Subtotal lines

  /** `isLastOfPeriod`: the final row, or a row whose successor falls in another bucket. */
  predicate IsLastOfPeriod(rows: seq<LedgerRow>, period: string, idx: nat)
    requires idx < |rows|
  {
    idx == |rows| - 1 || KeyOf(period, rows[idx + 1].date) != KeyOf(period, rows[idx].date)
  }

  predicate RowsChronological(rows: seq<LedgerRow>) {
    forall i, j :: 0 <= i < j < |rows| ==> NotAfter(rows[i].date, rows[j].date)
  }

  /** Every row's run of equal keys ends in exactly one subtotal line: the first last-of-period row at or after it. */
  lemma {:induction false} RunEndsInSubtotal(rows: seq<LedgerRow>, period: string, i: nat)
    requires i < |rows|
    ensures exists j :: i <= j < |rows| && IsLastOfPeriod(rows, period, j)
                        && (forall k :: i <= k <= j ==> KeyOf(period, rows[k].date) == KeyOf(period, rows[i].date))
                        && (forall k :: i <= k < j ==> !IsLastOfPeriod(rows, period, k))
    decreases |rows| - i
  {
    if !IsLastOfPeriod(rows, period, i) {
      RunEndsInSubtotal(rows, period, i + 1);
      var j :| i + 1 <= j < |rows| && IsLastOfPeriod(rows, period, j)
               && (forall k :: i + 1 <= k <= j ==> KeyOf(period, rows[k].date) == KeyOf(period, rows[i + 1].date))
               && (forall k :: i + 1 <= k < j ==> !IsLastOfPeriod(rows, period, k));
      assert forall k :: i <= k <= j ==> KeyOf(period, rows[k].date) == KeyOf(period, rows[i].date);
    }
  }

  /** In date order, a subtotal row is the last row of its bucket. */
  lemma SubtotalIsLastOfItsKey(rows: seq<LedgerRow>, period: string, i: nat)
    requires RowsChronological(rows)
    requires i < |rows| && IsLastOfPeriod(rows, period, i)
    ensures forall j :: i < j < |rows| ==> KeyOf(period, rows[j].date) != KeyOf(period, rows[i].date)
  {
    forall j | i < j < |rows| ensures KeyOf(period, rows[j].date) != KeyOf(period, rows[i].date) {
      if KeyOf(period, rows[j].date) == KeyOf(period, rows[i].date) {
        KeyBetween(period, rows[i].date, rows[i + 1].date, rows[j].date);
      }
    }
  }

  /** In date order, no two subtotal rows share a key: one subtotal per bucket. */
  lemma OneSubtotalPerKey(rows: seq<LedgerRow>, period: string, i: nat, j: nat)
    requires RowsChronological(rows)
    requires i < |rows| && j < |rows|
    requires IsLastOfPeriod(rows, period, i) && IsLastOfPeriod(rows, period, j)
    requires KeyOf(period, rows[i].date) == KeyOf(period, rows[j].date)
    ensures i == j
  {
    if i < j {
      SubtotalIsLastOfItsKey(rows, period, i);
    } else if j < i {
      SubtotalIsLastOfItsKey(rows, period, j);
    }
  }

  /** `totalsByKey`: a later entry with the same key replaces an earlier one. */
  function LastByKey(items: seq<Item>): (m: map<Key, Item>)
    ensures forall k :: k in m <==> exists i :: 0 <= i < |items| && items[i].key == k
  {
    if items == [] then map[]
    else
      var init, last := items[..|items| - 1], items[|items| - 1];
      assert forall i :: 0 <= i < |init| ==> init[i] == items[i];
      LastByKey(init)[last.key := last]
  }

  /** The loop filling `totalsByKey`. */
  method TotalsByKey(totals: seq<Item>) returns (m: map<Key, Item>)
    ensures m == LastByKey(totals)
  {
    m := map[];
    for i := 0 to |totals|
      invariant m == LastByKey(totals[..i])
    {
      assert totals[..i + 1][..i] == totals[..i];
      var t := totals[i];
      m := m[t.key := t];
    }
    assert totals[..|totals|] == totals;
  }

  /** With distinct keys, each key maps to its own item. */
  lemma {:induction false} LastByKeyOfDistinct(items: seq<Item>, i: nat)
    requires forall a, b :: 0 <= a < b < |items| ==> items[a].key != items[b].key
    requires i < |items|
    ensures items[i].key in LastByKey(items) && LastByKey(items)[items[i].key] == items[i]
  {
    if i < |items| - 1 {
      LastByKeyOfDistinct(items[..|items| - 1], i);
    }
  }

  /** The figures a subtotal line shows: `total?.x ?? 0`. */
  function SubtotalOf(totalsByKey: map<Key, Item>, k: Key): (e: Entry)
    ensures k !in totalsByKey ==> e == Entry(0.0, 0.0, 0.0)
    ensures k in totalsByKey ==> e == Entry(totalsByKey[k].debit, totalsByKey[k].credit, totalsByKey[k].closing)
  {
    if k in totalsByKey then Entry(totalsByKey[k].debit, totalsByKey[k].credit, totalsByKey[k].closing)
    else Entry(0.0, 0.0, 0.0)
  }

  /** The balance of the last row carrying a key is that key's closing. */
  lemma {:induction false} ClosingOfLastRow(rows: seq<LedgerRow>, period: string, i: nat)
    requires i < |rows|
    requires forall j :: i < j < |rows| ==> KeyOf(period, rows[j].date) != KeyOf(period, rows[i].date)
    ensures ClosingIn(rows, period, KeyOf(period, rows[i].date)) == rows[i].runningBalance
  {
    if i < |rows| - 1 {
      ClosingOfLastRow(rows[..|rows| - 1], period, i);
    }
  }

  /**
   * In date order, with the totals `groupTotals` produced for these rows, the
   * subtotal line after a last-of-period row shows its bucket's debit and
   * credit sums and closes on that row's own balance.
   */
  lemma SubtotalMatchesItsRows(rows: seq<LedgerRow>, period: string, i: nat)
    requires RowsChronological(rows)
    requires i < |rows| && IsLastOfPeriod(rows, period, i)
    ensures
      var k := KeyOf(period, rows[i].date);
      SubtotalOf(LastByKey(GroupSpec(rows, period).items), k)
        == Entry(SumIn(rows, period, k, DebitSide), SumIn(rows, period, k, CreditSide), rows[i].runningBalance)
  {
    var k := KeyOf(period, rows[i].date);
    var ks := FirstSeenKeys(rows, period);
    var items := GroupSpec(rows, period).items;
    FirstSeenKeysAreTheKeys(rows, period);
    assert RowKey(period, rows[i]) == k;
    assert k in ks;
    var n :| 0 <= n < |ks| && ks[n] == k;
    LastByKeyOfDistinct(items, n);
    SubtotalIsLastOfItsKey(rows, period, i);
    ClosingOfLastRow(rows, period, i);
  }
}
