/**
 * `POST /api/transactions/bulk`: the rows typed into the sheet become
 * transaction documents. Rows without a date and rows with no amount and no
 * text are skipped; text is trimmed; a row's account is its party when the
 * party id is valid and the "Unassigned" account otherwise.
 */
module TransactionsBulk {
  import opened Wrappers
  import opened Dates
  import opened Json
  import opened Text
  import Ledger

  datatype IncomingRow = IncomingRow(
    voucherNo: Option<string>,
    date: Option<string>,
    description: Option<string>,
    debit: Option<real>,
    credit: Option<real>,
    partyId: Option<string>)

  /** The account a document is posted to. */
  datatype AccountRef = Party(id: string) | Unassigned

  datatype InsertDoc = InsertDoc(
    account: AccountRef,
    date: Date,
    voucherNo: Option<string>,
    description: string,
    debit: real,
    credit: real,
    meta: Option<map<string, Value>>)

  /** A row with nothing in it: no amount, no description, no voucher. */
  predicate Blank(r: IncomingRow) {
    && Ledger.Amount(r.debit) == 0.0 && Ledger.Amount(r.credit) == 0.0
    && Trim(r.description.GetOr("")) == "" && Trim(r.voucherNo.GetOr("")) == ""
  }

  /** The account rule: a present, valid party id, or the "Unassigned" account. */
  function AccountOf(r: IncomingRow, isValid: string -> bool): (a: AccountRef)
    ensures a.Party? <==> r.partyId.Some? && r.partyId.value != "" && isValid(r.partyId.value)
    ensures a.Party? ==> a.id == r.partyId.value
  {
    if r.partyId.Some? && r.partyId.value != "" && isValid(r.partyId.value) then Party(r.partyId.value) else Unassigned
  }

  /**
   * One pass of the loop: none for a skipped row, otherwise its document.
   * `isValid` stands for `ObjectId.isValid` and `parseDate` for `new Date(text)`.
   */
  function Normalize(r: IncomingRow, categoryId: Option<string>, isValid: string -> bool, parseDate: string -> Date)
    : (d: Option<InsertDoc>)
    ensures d.None? <==> r.date.GetOr("") == "" || Blank(r)
    ensures d.Some? ==>
      && d.value.date == parseDate(r.date.value)
      && d.value.description == Trim(r.description.GetOr(""))
      && (d.value.voucherNo.None? <==> Trim(r.voucherNo.GetOr("")) == "")
      && (d.value.voucherNo.Some? ==> d.value.voucherNo.value == Trim(r.voucherNo.GetOr("")))
      && d.value.debit == Ledger.Amount(r.debit) && d.value.credit == Ledger.Amount(r.credit)
      && d.value.account == AccountOf(r, isValid)
      && (d.value.meta.Some? <==> categoryId.GetOr("") != "")
      && (d.value.meta.Some? ==> d.value.meta.value == map["categoryId" := Str(categoryId.value)])
  {
    if r.date.GetOr("") == "" then None
    else
      var date := parseDate(r.date.value);
      var debit := Ledger.Amount(r.debit);
      var credit := Ledger.Amount(r.credit);
      var desc := Trim(r.description.GetOr(""));
      var voucher := if Trim(r.voucherNo.GetOr("")) == "" then None else Some(Trim(r.voucherNo.GetOr("")));
      if debit == 0.0 && credit == 0.0 && desc == "" && voucher.None? then None
      else
        var meta := if categoryId.GetOr("") != "" then Some(map["categoryId" := Str(categoryId.value)]) else None;
        Some(InsertDoc(AccountOf(r, isValid), date, voucher, desc, debit, credit, meta))
  }

  /** What the loop makes of each row, in row order. */
  function Normalized(rows: seq<IncomingRow>, categoryId: Option<string>, isValid: string -> bool, parseDate: string -> Date)
    : (ds: seq<Option<InsertDoc>>)
    ensures |ds| == |rows|
  {
    Each(rows, r => Normalize(r, categoryId, isValid, parseDate))
  }

  /** `norm` applied to each row, in row order. */
  function Each(rows: seq<IncomingRow>, norm: IncomingRow -> Option<InsertDoc>): (ds: seq<Option<InsertDoc>>)
    ensures |ds| == |rows|
    ensures forall i :: 0 <= i < |rows| ==> ds[i] == norm(rows[i])
  {
    seq(|rows|, i requires 0 <= i < |rows| => norm(rows[i]))
  }

  /** The documents present in `ds`, in order. */
  function Present(ds: seq<Option<InsertDoc>>): seq<InsertDoc> {
    if ds == [] then [] else Present(ds[..|ds| - 1]) + (if ds[|ds| - 1].Some? then [ds[|ds| - 1].value] else [])
  }

  /** The documents of the rows that are kept, in row order. */
  function KeptDocs(rows: seq<IncomingRow>, categoryId: Option<string>, isValid: string -> bool, parseDate: string -> Date)
    : seq<InsertDoc>
  {
    Present(Normalized(rows, categoryId, isValid, parseDate))
  }

  /** `POST`: `rows` is none when the body has no `rows`; the result is `inserted` and the documents inserted. */
  method Post(categoryId: Option<string>, rows: Option<seq<IncomingRow>>, isValid: string -> bool, parseDate: string -> Date)
    returns (inserted: nat, docs: seq<InsertDoc>)
    ensures rows.None? || rows.value == [] ==> docs == []
    ensures rows.Some? ==> docs == KeptDocs(rows.value, categoryId, isValid, parseDate)
    ensures inserted == |docs|
    ensures rows.Some? ==> inserted <= |rows.value|
  {
    if rows.None? || |rows.value| == 0 {
      return 0, [];
    }
    var rs := rows.value;
    docs := [];
    for i := 0 to |rs|
      invariant docs == KeptDocs(rs[..i], categoryId, isValid, parseDate)
    {
      var r := rs[i];
      assert rs[..i + 1] == rs[..i] + [r];
      NormalizedSnoc(rs[..i], r, categoryId, isValid, parseDate);
      PresentAppend(Normalized(rs[..i], categoryId, isValid, parseDate), [Normalize(r, categoryId, isValid, parseDate)]);
      if r.date.GetOr("") == "" {
        continue;
      }
      var date := parseDate(r.date.value);
      var debit := Ledger.Amount(r.debit);
      var credit := Ledger.Amount(r.credit);
      var desc := Trim(r.description.GetOr(""));
      var voucher := if Trim(r.voucherNo.GetOr("")) == "" then None else Some(Trim(r.voucherNo.GetOr("")));
      if debit == 0.0 && credit == 0.0 && desc == "" && voucher.None? {
        assert Blank(r);
        continue;
      }
      var account := if r.partyId.Some? && r.partyId.value != "" && isValid(r.partyId.value) then Party(r.partyId.value) else Unassigned;
      var meta := if categoryId.GetOr("") != "" then Some(map["categoryId" := Str(categoryId.value)]) else None;
      docs := docs + [InsertDoc(account, date, voucher, desc, debit, credit, meta)];
    }
    assert rs[..|rs|] == rs;
    KeptDocsBound(rs, categoryId, isValid, parseDate);
    inserted := |docs|;
  }

  // ---------------------------------------------------------------------------

  lemma NormalizedSnoc(rows: seq<IncomingRow>, r: IncomingRow, categoryId: Option<string>,
                       isValid: string -> bool, parseDate: string -> Date)
    ensures Normalized(rows + [r], categoryId, isValid, parseDate)
         == Normalized(rows, categoryId, isValid, parseDate) + [Normalize(r, categoryId, isValid, parseDate)]
  {
  }

  lemma {:induction false} PresentAll(ds: seq<Option<InsertDoc>>)
    requires forall i :: 0 <= i < |ds| ==> ds[i].Some?
    ensures |Present(ds)| == |ds|
  {
    if ds != [] {
      PresentAll(ds[..|ds| - 1]);
    }
  }

  lemma {:induction false} PresentBound(ds: seq<Option<InsertDoc>>)
    ensures |Present(ds)| <= |ds|
  {
    if ds != [] {
      PresentBound(ds[..|ds| - 1]);
    }
  }

  lemma {:induction false} PresentAppend(a: seq<Option<InsertDoc>>, b: seq<Option<InsertDoc>>)
    ensures Present(a + b) == Present(a) + Present(b)
  {
    if b == [] {
      assert a + b == a;
    } else {
      PresentAppend(a, b[..|b| - 1]);
      assert (a + b)[..|a + b| - 1] == a + b[..|b| - 1];
    }
  }

  lemma {:induction false} PresentFrom(ds: seq<Option<InsertDoc>>)
    ensures forall d :: d in Present(ds) ==> Some(d) in ds
  {
    if ds != [] {
      PresentFrom(ds[..|ds| - 1]);
      assert forall x :: x in ds[..|ds| - 1] ==> x in ds;
    }
  }

  /** Never more documents than rows. */
  lemma KeptDocsBound(rows: seq<IncomingRow>, categoryId: Option<string>, isValid: string -> bool, parseDate: string -> Date)
    ensures |KeptDocs(rows, categoryId, isValid, parseDate)| <= |rows|
  {
    PresentBound(Normalized(rows, categoryId, isValid, parseDate));
  }

  /** Keeping is done row by row: the documents of two batches are the documents of each, in order. */
  lemma KeptDocsAppend(a: seq<IncomingRow>, b: seq<IncomingRow>, categoryId: Option<string>,
                       isValid: string -> bool, parseDate: string -> Date)
    ensures KeptDocs(a + b, categoryId, isValid, parseDate)
         == KeptDocs(a, categoryId, isValid, parseDate) + KeptDocs(b, categoryId, isValid, parseDate)
  {
    NormalizedAppend(a, b, categoryId, isValid, parseDate);
    PresentAppend(Normalized(a, categoryId, isValid, parseDate), Normalized(b, categoryId, isValid, parseDate));
  }

  lemma NormalizedAppend(a: seq<IncomingRow>, b: seq<IncomingRow>, categoryId: Option<string>,
                         isValid: string -> bool, parseDate: string -> Date)
    ensures Normalized(a + b, categoryId, isValid, parseDate)
         == Normalized(a, categoryId, isValid, parseDate) + Normalized(b, categoryId, isValid, parseDate)
  {
    EachAppend(a, b, r => Normalize(r, categoryId, isValid, parseDate));
  }

  lemma EachAppend(a: seq<IncomingRow>, b: seq<IncomingRow>, norm: IncomingRow -> Option<InsertDoc>)
    ensures Each(a + b, norm) == Each(a, norm) + Each(b, norm)
  {
    var x := Each(a + b, norm);
    var y := Each(a, norm) + Each(b, norm);
    forall i | 0 <= i < |x| ensures x[i] == y[i] {
      if i < |a| {
        assert (a + b)[i] == a[i];
      } else {
        assert (a + b)[i] == b[i - |a|];
      }
    }
  }

  /** Every kept document has an amount or some text, and its text is already trimmed. */
  lemma KeptDocsAreFilled(rows: seq<IncomingRow>, categoryId: Option<string>, isValid: string -> bool, parseDate: string -> Date)
    ensures forall d :: d in KeptDocs(rows, categoryId, isValid, parseDate) ==>
      && (d.debit != 0.0 || d.credit != 0.0 || d.description != "" || d.voucherNo.Some?)
      && Trim(d.description) == d.description
      && (d.voucherNo.Some? ==> d.voucherNo.value != "" && Trim(d.voucherNo.value) == d.voucherNo.value)
  {
    var ds := Normalized(rows, categoryId, isValid, parseDate);
    PresentFrom(ds);
    forall d | d in Present(ds)
      ensures && (d.debit != 0.0 || d.credit != 0.0 || d.description != "" || d.voucherNo.Some?)
              && Trim(d.description) == d.description
              && (d.voucherNo.Some? ==> d.voucherNo.value != "" && Trim(d.voucherNo.value) == d.voucherNo.value)
    {
      var i :| 0 <= i < |ds| && ds[i] == Some(d);
      var r := rows[i];
      assert Normalize(r, categoryId, isValid, parseDate) == Some(d);
      TrimTwice(r.description.GetOr(""));
      TrimTwice(r.voucherNo.GetOr(""));
    }
  }

  /** A batch whose every row has a date and an amount keeps them all. */
  lemma DatedAmountsAreAllKept(rows: seq<IncomingRow>, categoryId: Option<string>, isValid: string -> bool, parseDate: string -> Date)
    requires forall i :: 0 <= i < |rows| ==> rows[i].date.GetOr("") != "" && Ledger.Amount(rows[i].debit) != 0.0
    ensures |KeptDocs(rows, categoryId, isValid, parseDate)| == |rows|
  {
    var ds := Normalized(rows, categoryId, isValid, parseDate);
    forall i | 0 <= i < |ds| ensures ds[i].Some? {
      assert !Blank(rows[i]);
    }
    PresentAll(ds);
  }
}
