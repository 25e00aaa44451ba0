/**
 * The ledger sheet of the "create ledger" screen: a grid of rows keyed by
 * column, the running "remaining" column, the footer totals, the cell edits,
 * the seeding of the first empty row with the account's closing balance, and
 * the payload sent to the bulk endpoint on save.
 */
module CreateLedger {
  import opened Wrappers
  import opened Dates
  import opened Text
  import Ledger

  /** `string | number | Date | null` */
  datatype Cell = CNull | CStr(s: string) | CNum(n: real) | CDate(d: Date)

  /** A sheet row: column key to cell; a missing key reads as `undefined`. */
  type Row = map<string, Cell>

  /** `r[key]`, none standing for `undefined`. */
  function Get(r: Row, key: string): Option<Cell> {
    if key in r then Some(r[key]) else None
  }

  /** JavaScript truthiness of a cell that may be `undefined`. */
  predicate Truthy(v: Option<Cell>) {
    match v
    case None => false
    case Some(CNull) => false
    case Some(CStr(s)) => s != ""
    case Some(CNum(n)) => n != 0.0
    case Some(CDate(_)) => true
  }

  /** `Number(c)` of a cell; text that is not a number and dates count as 0. */
  function NumberOf(c: Cell): real {
    match c
    case CNum(n) => n
    case CStr(s) => JsNumber(s).GetOr(0.0)
    case _ => 0.0
  }

  /** `num(v) = Number(v || 0)` */
  function Num(v: Option<Cell>): (n: real)
    ensures !Truthy(v) ==> n == 0.0
    ensures v.Some? && v.value.CNum? ==> n == v.value.n
    ensures v.Some? && v.value.CStr? && JsNumber(v.value.s).Some? ==> n == JsNumber(v.value.s).value
  {
    if Truthy(v) then NumberOf(v.value) else 0.0
  }

  /** Σ `num(r[key])` over the rows. */
  function ColumnSum(rows: seq<Row>, key: string): real {
    if rows == [] then 0.0 else ColumnSum(rows[..|rows| - 1], key) + Num(Get(rows[|rows| - 1], key))
  }

  /** Σ (`num(totalDue)` − `num(credit)`) over the rows: what the remaining column adds up. */
  function NetDue(rows: seq<Row>): real {
    if rows == [] then 0.0
    else NetDue(rows[..|rows| - 1]) + (Num(Get(rows[|rows| - 1], "totalDue")) - Num(Get(rows[|rows| - 1], "credit")))
  }

  /** `perRowRemaining`: row i shows the closing plus the net due of rows 0..i. */
  method PerRowRemaining(rows: seq<Row>, accountClosing: real) returns (out: seq<real>)
    ensures |out| == |rows|
    ensures forall i :: 0 <= i < |rows| ==> out[i] == accountClosing + NetDue(rows[..i + 1])
  {
    var rem := accountClosing;
    out := [];
    for i := 0 to |rows|
      invariant |out| == i
      invariant rem == accountClosing + NetDue(rows[..i])
      invariant forall j :: 0 <= j < i ==> out[j] == accountClosing + NetDue(rows[..j + 1])
    {
      assert rows[..i + 1][..i] == rows[..i];
      rem := rem + (Num(Get(rows[i], "totalDue")) - Num(Get(rows[i], "credit")));
      out := out + [rem];
    }
  }

  datatype FooterTotals = FooterTotals(due: real, debit: real, credit: real, remaining: real)

  /** `totals`: the column sums, and the closing plus due minus credit. */
  method Totals(rows: seq<Row>, accountClosing: real) returns (t: FooterTotals)
    ensures t.due == ColumnSum(rows, "totalDue")
    ensures t.debit == ColumnSum(rows, "debit")
    ensures t.credit == ColumnSum(rows, "credit")
    ensures t.remaining == accountClosing + NetDue(rows)
  {
    var due, debit, credit := 0.0, 0.0, 0.0;
    for i := 0 to |rows|
      invariant due == ColumnSum(rows[..i], "totalDue")
      invariant debit == ColumnSum(rows[..i], "debit")
      invariant credit == ColumnSum(rows[..i], "credit")
    {
      assert rows[..i + 1][..i] == rows[..i];
      due := due + Num(Get(rows[i], "totalDue"));
      debit := debit + Num(Get(rows[i], "debit"));
      credit := credit + Num(Get(rows[i], "credit"));
    }
    assert rows[..|rows|] == rows;
    NetDueIsDueMinusCredit(rows);
    t := FooterTotals(due, debit, credit, accountClosing + due - credit);
  }

  /** The remaining column's net due is the due column minus the credit column. */
  lemma {:induction false} NetDueIsDueMinusCredit(rows: seq<Row>)
    ensures NetDue(rows) == ColumnSum(rows, "totalDue") - ColumnSum(rows, "credit")
  {
    if rows != [] {
      NetDueIsDueMinusCredit(rows[..|rows| - 1]);
    }
  }

  /** The footer's remaining is what the last row shows. */
  lemma RemainingIsLastRow(rows: seq<Row>, accountClosing: real)
    requires rows != []
    ensures accountClosing + ColumnSum(rows, "totalDue") - ColumnSum(rows, "credit")
         == accountClosing + NetDue(rows[..(|rows| - 1) + 1])
  {
    assert rows[..(|rows| - 1) + 1] == rows;
    NetDueIsDueMinusCredit(rows);
  }

  /** Editing a debit cell moves neither the remaining column nor the due and credit totals. */
  lemma {:induction false} DebitDoesNotMoveRemaining(rows: seq<Row>, i: nat, v: Cell)
    requires i < |rows|
    ensures NetDue(rows[i := rows[i]["debit" := v]]) == NetDue(rows)
  {
    var edited := rows[i := rows[i]["debit" := v]];
    var n := |rows| - 1;
    assert Get(edited[n], "totalDue") == Get(rows[n], "totalDue");
    assert Get(edited[n], "credit") == Get(rows[n], "credit");
    if i < n {
      DebitDoesNotMoveRemaining(rows[..n], i, v);
      assert edited[..n] == rows[..n][i := rows[i]["debit" := v]];
    } else {
      assert edited[..n] == rows[..n];
    }
  }

  // ---------------------------------------------------------------------------
  // Sheet state

  /** `Array.from({ length: n }, () => ({}))` */
  function EmptyRows(n: nat): (rs: seq<Row>)
    ensures |rs| == n && forall i :: 0 <= i < n ==> rs[i] == map[]
  {
    seq(n, _ => map[])
  }

  /** The seeding test: no date, description, total due, debit or credit. */
  predicate EmptyRow(r: Row) {
    && !Truthy(Get(r, "date")) && !Truthy(Get(r, "description")) && !Truthy(Get(r, "totalDue"))
    && !Truthy(Get(r, "debit")) && !Truthy(Get(r, "credit"))
  }

  /** `rows.findIndex(EmptyRow)`, none standing for −1. */
  function FirstEmptyRow(rows: seq<Row>): (idx: Option<nat>)
    ensures idx.Some? ==> idx.value < |rows| && EmptyRow(rows[idx.value])
                          && forall j :: 0 <= j < idx.value ==> !EmptyRow(rows[j])
    ensures idx.None? ==> forall j :: 0 <= j < |rows| ==> !EmptyRow(rows[j])
  {
    if rows == [] then None
    else if EmptyRow(rows[0]) then Some(0)
    else
      match FirstEmptyRow(rows[1..])
      case None => None
      case Some(k) => Some(k + 1)
  }

  /** `row['totalDue'] != null && row['totalDue'] !== ''` */
  predicate HasTotal(r: Row) {
    "totalDue" in r && r["totalDue"] != CNull && r["totalDue"] != CStr("")
  }

  /** The closing the screen fetches: the last running balance, or the opening when there are no rows. */
  function FetchedClosing(fetched: Option<Ledger.LedgerSummary>): real {
    match fetched
    case None => 0.0
    case Some(s) => if s.rows != [] then s.rows[|s.rows| - 1].runningBalance else s.opening
  }

  /** The fetched closing of an account's ledger is its opening plus the net of the rows shown. */
  lemma FetchedClosingIsNet(opening: real, txs: seq<Ledger.Tx>, totals: Ledger.Totals)
    ensures FetchedClosing(Some(Ledger.LedgerSummary(opening, Ledger.RunningRows(txs, opening), totals)))
         == opening + Ledger.Net(txs)
  {
    if txs != [] {
      Ledger.RunningAt(txs, opening, |txs| - 1);
      assert txs[..|txs|] == txs;
    }
  }

  class Sheet {
    var rows: seq<Row>
    /** The account's balance before this sheet. */
    var accountClosing: real
    /** `seededFirstRow.current` */
    var seededFirstRow: bool

    /** Ten empty rows, a zero closing, nothing seeded. */
    constructor()
      ensures rows == EmptyRows(10) && accountClosing == 0.0 && !seededFirstRow
    {
      rows := EmptyRows(10);
      accountClosing := 0.0;
      seededFirstRow := false;
    }

    /** `addRows(n)` */
    method AddRows(n: nat)
      modifies this
      ensures rows == old(rows) + EmptyRows(n)
      ensures accountClosing == old(accountClosing) && seededFirstRow == old(seededFirstRow)
    {
      rows := rows + EmptyRows(n);
    }

    /** `setCell(rIdx, key, value)` */
    method SetCell(rIdx: nat, key: string, value: Cell)
      requires rIdx < |rows|
      modifies this
      ensures |rows| == |old(rows)|
      ensures Get(rows[rIdx], key) == Some(value)
      ensures forall k :: k != key ==> Get(rows[rIdx], k) == Get(old(rows)[rIdx], k)
      ensures forall j :: 0 <= j < |rows| && j != rIdx ==> rows[j] == old(rows)[j]
      ensures accountClosing == old(accountClosing) && seededFirstRow == old(seededFirstRow)
    {
      var copy := rows;
      var row := copy[rIdx];
      row := row[key := value];
      copy := copy[rIdx := row];
      rows := copy;
    }

    /**
     * `onDateChanged(rIdx, iso)`: sets the date and, when the row has no total
     * due yet, fills it with the remaining of the row above (the closing for
     * the first row).
     */
    method OnDateChanged(rIdx: nat, iso: string)
      requires rIdx < |rows|
      modifies this
      ensures |rows| == |old(rows)|
      ensures forall j :: 0 <= j < |rows| && j != rIdx ==> rows[j] == old(rows)[j]
      ensures Get(rows[rIdx], "date") == Some(CStr(iso))
      ensures HasTotal(old(rows)[rIdx]) ==> Get(rows[rIdx], "totalDue") == Get(old(rows)[rIdx], "totalDue")
      ensures !HasTotal(old(rows)[rIdx]) ==>
                Get(rows[rIdx], "totalDue") == Some(CNum(accountClosing + NetDue(old(rows)[..rIdx])))
      ensures forall k :: k != "date" && k != "totalDue" ==> Get(rows[rIdx], k) == Get(old(rows)[rIdx], k)
      ensures accountClosing == old(accountClosing) && seededFirstRow == old(seededFirstRow)
    {
      var perRowRemaining := PerRowRemaining(rows, accountClosing);
      var copy := rows;
      var row := copy[rIdx];
      row := row["date" := CStr(iso)];
      var hasTotal := "totalDue" in row && row["totalDue"] != CNull && row["totalDue"] != CStr("");
      if !hasTotal {
        var prevRemaining := if rIdx > 0 then perRowRemaining[rIdx - 1] else accountClosing;
        assert rIdx > 0 ==> rows[..(rIdx - 1) + 1] == rows[..rIdx];
        row := row["totalDue" := CNum(prevRemaining)];
      }
      copy := copy[rIdx := row];
      rows := copy;
    }

    /** The account changed and its closing was fetched (none when there is no account or the fetch failed). */
    method OnAccountChanged(fetched: Option<Ledger.LedgerSummary>)
      modifies this
      ensures accountClosing == FetchedClosing(fetched) && !seededFirstRow && rows == old(rows)
    {
      seededFirstRow := false;
      accountClosing := 0.0;
      if fetched.Some? {
        var data := fetched.value;
        accountClosing := if |data.rows| > 0 then data.rows[|data.rows| - 1].runningBalance else data.opening;
      }
    }

    /**
     * The seeding effect: once per account, on a party or bank ledger, the
     * first empty row gets the closing as its total due when the closing is positive.
     */
    method SeedFirstRow(isAccountLedger: bool, hasAccount: bool)
      modifies this
      ensures accountClosing == old(accountClosing)
      ensures
        var idx := FirstEmptyRow(old(rows));
        if isAccountLedger && hasAccount && !old(seededFirstRow) && idx.Some? && accountClosing > 0.0 then
          && seededFirstRow
          && |rows| == |old(rows)|
          && Get(rows[idx.value], "totalDue") == Some(CNum(accountClosing))
          && (forall k :: k != "totalDue" ==> Get(rows[idx.value], k) == Get(old(rows)[idx.value], k))
          && (forall j :: 0 <= j < |rows| && j != idx.value ==> rows[j] == old(rows)[j])
        else
          rows == old(rows) && seededFirstRow == old(seededFirstRow)
    {
      if !isAccountLedger || !hasAccount || seededFirstRow {
        return;
      }
      var idx := FirstEmptyRow(rows);
      if idx.Some? && accountClosing > 0.0 {
        var copy := rows;
        copy := copy[idx.value := copy[idx.value]["totalDue" := CNum(accountClosing)]];
        rows := copy;
        seededFirstRow := true;
      }
    }
  }

  // ---------------------------------------------------------------------------
  // The save payload

  /** The columns stored as transaction fields rather than in `meta`. */
  const CoreKeys: set<string> := {"voucherNo", "date", "description", "debit", "credit"}

  /** `columns.filter((c) => !CORE_KEYS.has(c.key))`, by key. */
  function CustomKeys(columns: seq<string>): (keys: seq<string>)
    ensures forall k :: k in keys <==> k in columns && k !in CoreKeys
  {
    if columns == [] then []
    else
      var last := columns[|columns| - 1];
      assert forall k :: k in columns <==> k in columns[..|columns| - 1] || k == last;
      CustomKeys(columns[..|columns| - 1]) + (if last in CoreKeys then [] else [last])
  }

  /** A cell worth keeping in `meta`: present, not null, not the empty string. */
  predicate Filled(r: Row, key: string) {
    key in r && r[key] != CNull && r[key] != CStr("")
  }

  /** The `meta` built for one row from the custom columns. */
  function MetaOf(r: Row, keys: seq<string>): (m: map<string, Cell>)
    ensures forall k :: k in m <==> k in keys && Filled(r, k)
    ensures forall k :: k in m ==> k in r && m[k] == r[k]
  {
    if keys == [] then map[]
    else
      var last := keys[|keys| - 1];
      assert forall k :: k in keys <==> k in keys[..|keys| - 1] || k == last;
      var m := MetaOf(r, keys[..|keys| - 1]);
      if Filled(r, last) then m[last := r[last]] else m
  }

  /** The loop that fills `meta` for one row. */
  method BuildMeta(r: Row, keys: seq<string>) returns (meta: map<string, Cell>)
    ensures meta == MetaOf(r, keys)
  {
    meta := map[];
    for i := 0 to |keys|
      invariant meta == MetaOf(r, keys[..i])
    {
      assert keys[..i + 1][..i] == keys[..i];
      var key := keys[i];
      if key in r && r[key] != CNull && r[key] != CStr("") {
        meta := meta[key := r[key]];
      }
    }
    assert keys[..|keys|] == keys;
  }

  datatype Payload = Payload(
    voucherNo: Cell, date: Option<string>, description: Cell,
    debit: real, credit: real, partyId: Option<Cell>, meta: map<string, Cell>)

  /**
   * One row of the payload; `selected` is the selected account id and
   * `formatDay` stands for `dayjs(v).format('YYYY-MM-DD')`.
   */
  function PayloadOf(r: Row, keys: seq<string>, selected: Option<string>, formatDay: Cell -> string): Payload {
    Payload(
      if Truthy(Get(r, "voucherNo")) then r["voucherNo"] else CStr(""),
      if Truthy(Get(r, "date")) then Some(formatDay(r["date"])) else None,
      if Truthy(Get(r, "description")) then r["description"] else CStr(""),
      Num(Get(r, "debit")),
      Num(Get(r, "credit")),
      if Truthy(Get(r, "partyId")) then Some(r["partyId"])
      else if selected.Some? && selected.value != "" then Some(CStr(selected.value)) else None,
      MetaOf(r, keys))
  }

  /** The fields `save` writes for one row are those of `PayloadOf`. */
  lemma RowPayload(r: Row, keys: seq<string>, selected: Option<string>, formatDay: Cell -> string)
    ensures var p := PayloadOf(r, keys, selected, formatDay);
      && p.debit == (if Truthy(Get(r, "debit")) then NumberOf(r["debit"]) else 0.0)
      && p.credit == (if Truthy(Get(r, "credit")) then NumberOf(r["credit"]) else 0.0)
  {
  }

  /** `p.date || p.debit || p.credit || p.description || p.voucherNo` */
  predicate Worth(p: Payload) {
    || (p.date.Some? && p.date.value != "") || p.debit != 0.0 || p.credit != 0.0
    || Truthy(Some(p.description)) || Truthy(Some(p.voucherNo))
  }

  /** The payload of `save`: every row mapped, then the rows without content dropped. */
  function SavePayload(rows: seq<Row>, keys: seq<string>, selected: Option<string>, formatDay: Cell -> string)
    : seq<Payload>
  {
    if rows == [] then []
    else
      var p := PayloadOf(rows[|rows| - 1], keys, selected, formatDay);
      SavePayload(rows[..|rows| - 1], keys, selected, formatDay) + (if Worth(p) then [p] else [])
  }

  /** `save`'s payload build, with the per-row `meta` loop. */
  method Save(rows: seq<Row>, columns: seq<string>, selected: Option<string>, formatDay: Cell -> string)
    returns (filtered: seq<Payload>)
    ensures filtered == SavePayload(rows, CustomKeys(columns), selected, formatDay)
  {
    var customCols := CustomKeys(columns);
    var payload: seq<Payload> := [];
    for i := 0 to |rows|
      invariant |payload| == i
      invariant forall j :: 0 <= j < i ==> payload[j] == PayloadOf(rows[j], customCols, selected, formatDay)
    {
      var r := rows[i];
      var meta := BuildMeta(r, customCols);
      var accountId := if Truthy(Get(r, "partyId")) then Some(r["partyId"])
                       else if selected.Some? && selected.value != "" then Some(CStr(selected.value)) else None;
      var p := Payload(
        if Truthy(Get(r, "voucherNo")) then r["voucherNo"] else CStr(""),
        if Truthy(Get(r, "date")) then Some(formatDay(r["date"])) else None,
        if Truthy(Get(r, "description")) then r["description"] else CStr(""),
        if Truthy(Get(r, "debit")) then NumberOf(r["debit"]) else 0.0,
        if Truthy(Get(r, "credit")) then NumberOf(r["credit"]) else 0.0,
        accountId,
        meta);
      RowPayload(r, customCols, selected, formatDay);
      payload := payload + [p];
    }
    filtered := [];
    for i := 0 to |rows|
      invariant filtered == SavePayload(rows[..i], customCols, selected, formatDay)
    {
      SavePayloadStep(rows, i, customCols, selected, formatDay);
      if Worth(payload[i]) {
        filtered := filtered + [payload[i]];
      }
    }
    assert rows[..|rows|] == rows;
  }

  lemma SavePayloadStep(rows: seq<Row>, i: nat, keys: seq<string>, selected: Option<string>, formatDay: Cell -> string)
    requires i < |rows|
    ensures var p := PayloadOf(rows[i], keys, selected, formatDay);
      SavePayload(rows[..i + 1], keys, selected, formatDay)
      == SavePayload(rows[..i], keys, selected, formatDay) + (if Worth(p) then [p] else [])
  {
    assert rows[..i + 1][..i] == rows[..i];
  }

  /** What is sent: at most one entry per row, each with content, whose `meta` holds only filled custom columns. */
  lemma {:induction false} SavePayloadShape(rows: seq<Row>, columns: seq<string>, selected: Option<string>, formatDay: Cell -> string)
    ensures |SavePayload(rows, CustomKeys(columns), selected, formatDay)| <= |rows|
    ensures forall p :: p in SavePayload(rows, CustomKeys(columns), selected, formatDay) ==>
              && Worth(p)
              && forall k :: k in p.meta ==> k in columns && k !in CoreKeys && p.meta[k] != CNull && p.meta[k] != CStr("")
  {
    if rows != [] {
      SavePayloadShape(rows[..|rows| - 1], columns, selected, formatDay);
    }
  }

  /**
   * A row whose only content is its total due is not sent: `totalDue` is not a
   * transaction field, and the filter does not look at it.
   */
  lemma TotalDueAloneIsDropped(v: Cell, columns: seq<string>, selected: Option<string>, formatDay: Cell -> string)
    ensures SavePayload([map["totalDue" := v]], CustomKeys(columns), selected, formatDay) == []
  {
    var r: Row := map["totalDue" := v];
    assert [r][..0] == [];
    assert !Truthy(Get(r, "date")) && !Truthy(Get(r, "debit")) && !Truthy(Get(r, "credit"));
  }
}
