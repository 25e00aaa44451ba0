/**
 * The transaction search route: it assembles an AND of optional conditions
 * (text, date range, party, category), clamps `limit` to [1, 2000], then
 * normalises the returned rows and totals their debits and credits.
 */
module TransactionsSearch {
  import opened Wrappers
  import opened Dates
  import opened Json
  import opened Text
  import opened SearchParams

  /** The query-string parameters the route reads. */
  datatype Params = Params(
    q: Option<string>,
    from: Option<string>,
    to: Option<string>,
    partyId: Option<string>,
    categoryId: Option<string>,
    limit: Option<string>)

  /** A stored reference: an ObjectId, or a plain string kept by older documents. */
  datatype Ref = Oid(hex: string) | Raw(s: string)

  /** `toObjectId(id)`: none for a missing or empty id and for one that is not a valid ObjectId. */
  function ToObjectId(id: Option<string>, isValid: string -> bool): (r: Option<string>)
    ensures r.Some? <==> id.Some? && id.value != "" && isValid(id.value)
    ensures r.Some? ==> r.value == id.value
  {
    if id.None? || id.value == "" then None
    else if isValid(id.value) then Some(id.value)
    else None
  }

  /** One element of the `and` array. */
  datatype Clause =
    | TextSearch(pattern: string)               // description or voucherNo matches `q`
    | DateRange(window: Window)                 // `{ date: { $gte?, $lte? } }`
    | PartyIs(oid: string)                      // accountId or account is the party
    | CategoryIs(ref: Ref, metaId: string)      // categoryId is the ref, or meta.categoryId the id

  /** `and.length ? { $and: and } : {}` */
  datatype Query = MatchAll | And(clauses: seq<Clause>)

  /** The stored fields a search condition can look at. */
  datatype TxDoc = TxDoc(
    id: string,
    date: Date,
    voucherNo: Option<string>,
    description: Option<string>,
    debit: Option<real>,
    credit: Option<real>,
    meta: Option<Value>,
    accountId: Option<Ref>,
    account: Option<Ref>,
    categoryId: Option<Ref>)

  /** `meta.categoryId` when it is a string. */
  function MetaCategory(meta: Option<Value>): Option<string> {
    if meta.Some? && meta.value.Obj? && "categoryId" in meta.value.fields && meta.value.fields["categoryId"].Str?
    then Some(meta.value.fields["categoryId"].s)
    else None
  }

  /**
   * What one condition demands of a document. `regexMatch(p, s)` says whether
   * the case-insensitive pattern `p` matches `s`; regular expressions
   * themselves are not modelled.
   */
  predicate Holds(c: Clause, d: TxDoc, regexMatch: (string, string) -> bool) {
    match c
    case TextSearch(p) =>
      (d.description.Some? && regexMatch(p, d.description.value))
      || (d.voucherNo.Some? && regexMatch(p, d.voucherNo.value))
    case DateRange(w) => InWindow(w, d.date)
    case PartyIs(oid) => d.accountId == Some(Oid(oid)) || d.account == Some(Oid(oid))
    case CategoryIs(ref, id) => d.categoryId == Some(ref) || MetaCategory(d.meta) == Some(id)
  }

  predicate Satisfies(query: Query, d: TxDoc, regexMatch: (string, string) -> bool) {
    match query
    case MatchAll => true
    case And(cs) => forall i :: 0 <= i < |cs| ==> Holds(cs[i], d, regexMatch)
  }

  /** A parameter as `searchParams.get(x) || ''` reads it. */
  function Text0(p: Option<string>): string {
    p.GetOr("")
  }

  /**
   * The documents a search is meant to find, stated condition by condition:
   * each supplied parameter narrows the result, the date bounds are
   * inclusive, and a missing parameter does not constrain.
   */
  predicate Wanted(p: Params, d: TxDoc, regexMatch: (string, string) -> bool, isValid: string -> bool, parseDate: string -> Date) {
    && WantedText(p, d, regexMatch)
    && WantedDates(p, d, parseDate)
    && WantedParty(p, d, isValid)
    && WantedCategory(p, d, isValid)
  }

  /** A non-blank `q` must match the description or the voucher number. */
  predicate WantedText(p: Params, d: TxDoc, regexMatch: (string, string) -> bool) {
    var q := Trim(Text0(p.q));
    q != "" ==> (d.description.Some? && regexMatch(q, d.description.value)) || (d.voucherNo.Some? && regexMatch(q, d.voucherNo.value))
  }

  /** The date lies within the supplied bounds, both inclusive. */
  predicate WantedDates(p: Params, d: TxDoc, parseDate: string -> Date) {
    && (Text0(p.from) != "" ==> NotAfter(parseDate(Text0(p.from)), d.date))
    && (Text0(p.to) != "" ==> NotAfter(d.date, parseDate(Text0(p.to))))
  }

  /** A valid party id must be the document's account. */
  predicate WantedParty(p: Params, d: TxDoc, isValid: string -> bool) {
    Text0(p.partyId) != "" && isValid(Text0(p.partyId)) ==>
      d.accountId == Some(Oid(Text0(p.partyId))) || d.account == Some(Oid(Text0(p.partyId)))
  }

  /** A category id must be the stored category (as an ObjectId when valid) or `meta.categoryId`. */
  predicate WantedCategory(p: Params, d: TxDoc, isValid: string -> bool) {
    var cat := Text0(p.categoryId);
    cat != "" ==> d.categoryId == Some(if isValid(cat) then Oid(cat) else Raw(cat)) || MetaCategory(d.meta) == Some(cat)
  }

  /** `limit`: in [1, 2000], 500 when missing, empty or not a finite number. */
  function TxLimit(limitParam: Option<string>): (r: real)
    ensures 1.0 <= r <= 2000.0
    ensures limitParam.None? || limitParam == Some("") ==> r == 500.0
    ensures limitParam.Some? && JsNumber(limitParam.value).None? ==> r == 500.0
  {
    LimitOr(limitParam, 500, 2000.0)
  }

  /** The clause a conditional push adds, if it adds one. */
  function Pushed(c: Option<Clause>): seq<Clause> {
    if c.Some? then [c.value] else []
  }

  predicate HoldsIfPushed(c: Option<Clause>, d: TxDoc, regexMatch: (string, string) -> bool) {
    c.Some? ==> Holds(c.value, d, regexMatch)
  }

  lemma PushedOne(c: Option<Clause>, d: TxDoc, regexMatch: (string, string) -> bool)
    ensures Satisfies(And(Pushed(c)), d, regexMatch) <==> HoldsIfPushed(c, d, regexMatch)
  {
    if c.Some? {
      assert Pushed(c)[0] == c.value;
    }
  }

  lemma AllHoldAppend(a: seq<Clause>, b: seq<Clause>, d: TxDoc, regexMatch: (string, string) -> bool)
    ensures Satisfies(And(a + b), d, regexMatch) <==> Satisfies(And(a), d, regexMatch) && Satisfies(And(b), d, regexMatch)
  {
    if Satisfies(And(a), d, regexMatch) && Satisfies(And(b), d, regexMatch) {
      forall i | 0 <= i < |a + b| ensures Holds((a + b)[i], d, regexMatch) {
        if i >= |a| {
          assert (a + b)[i] == b[i - |a|];
        }
      }
    }
    if Satisfies(And(a + b), d, regexMatch) {
      forall i | 0 <= i < |a| ensures Holds(a[i], d, regexMatch) {
        assert (a + b)[i] == a[i];
      }
      forall i | 0 <= i < |b| ensures Holds(b[i], d, regexMatch) {
        assert (a + b)[|a| + i] == b[i];
      }
    }
  }

  /** A query made of the pushed clauses demands exactly what each pushed clause demands. */
  lemma {:induction false} PushedMeaning(c1: Option<Clause>, c2: Option<Clause>, c3: Option<Clause>, c4: Option<Clause>, d: TxDoc, regexMatch: (string, string) -> bool)
    ensures Satisfies(And(Pushed(c1) + Pushed(c2) + Pushed(c3) + Pushed(c4)), d, regexMatch) <==>
      HoldsIfPushed(c1, d, regexMatch) && HoldsIfPushed(c2, d, regexMatch)
      && HoldsIfPushed(c3, d, regexMatch) && HoldsIfPushed(c4, d, regexMatch)
  {
    AllHoldAppend(Pushed(c1) + Pushed(c2) + Pushed(c3), Pushed(c4), d, regexMatch);
    AllHoldAppend(Pushed(c1) + Pushed(c2), Pushed(c3), d, regexMatch);
    AllHoldAppend(Pushed(c1), Pushed(c2), d, regexMatch);
    PushedOne(c1, d, regexMatch);
    PushedOne(c2, d, regexMatch);
    PushedOne(c3, d, regexMatch);
    PushedOne(c4, d, regexMatch);
  }

  /** The clause each step of the route pushes, if any. */
  ghost function TextClause(p: Params): Option<Clause> {
    var q := Trim(Text0(p.q));
    if q != "" then Some(TextSearch(q)) else None
  }

  ghost function DateClause(p: Params, parseDate: string -> Date): Option<Clause> {
    var from := Text0(p.from);
    var to := Text0(p.to);
    if from != "" || to != "" then
      Some(DateRange(Window(None, if from != "" then Some(parseDate(from)) else None, if to != "" then Some(parseDate(to)) else None)))
    else None
  }

  ghost function PartyClause(p: Params, isValid: string -> bool): Option<Clause> {
    var oid := ToObjectId(p.partyId, isValid);
    if oid.Some? then Some(PartyIs(oid.value)) else None
  }

  ghost function CategoryClause(p: Params, isValid: string -> bool): Option<Clause> {
    var cat := Text0(p.categoryId);
    if cat != "" then
      var oid := ToObjectId(p.categoryId, isValid);
      Some(CategoryIs(if oid.Some? then Oid(oid.value) else Raw(cat), cat))
    else None
  }

  lemma TextClauseMeans(p: Params, d: TxDoc, regexMatch: (string, string) -> bool)
    ensures HoldsIfPushed(TextClause(p), d, regexMatch) <==> WantedText(p, d, regexMatch)
  {
  }

  lemma DateClauseMeans(p: Params, parseDate: string -> Date, d: TxDoc, regexMatch: (string, string) -> bool)
    ensures HoldsIfPushed(DateClause(p, parseDate), d, regexMatch) <==> WantedDates(p, d, parseDate)
  {
  }

  lemma PartyClauseMeans(p: Params, isValid: string -> bool, d: TxDoc, regexMatch: (string, string) -> bool)
    ensures HoldsIfPushed(PartyClause(p, isValid), d, regexMatch) <==> WantedParty(p, d, isValid)
  {
  }

  lemma CategoryClauseMeans(p: Params, isValid: string -> bool, d: TxDoc, regexMatch: (string, string) -> bool)
    ensures HoldsIfPushed(CategoryClause(p, isValid), d, regexMatch) <==> WantedCategory(p, d, isValid)
  {
  }

  /** Each pushed clause stands for one condition of the wanted documents. */
  lemma ClausesMeanWanted(p: Params, isValid: string -> bool, parseDate: string -> Date, d: TxDoc, regexMatch: (string, string) -> bool)
    ensures
      && HoldsIfPushed(TextClause(p), d, regexMatch) && HoldsIfPushed(DateClause(p, parseDate), d, regexMatch)
      && HoldsIfPushed(PartyClause(p, isValid), d, regexMatch) && HoldsIfPushed(CategoryClause(p, isValid), d, regexMatch)
      <==> Wanted(p, d, regexMatch, isValid, parseDate)
  {
    TextClauseMeans(p, d, regexMatch);
    DateClauseMeans(p, parseDate, d, regexMatch);
    PartyClauseMeans(p, isValid, d, regexMatch);
    CategoryClauseMeans(p, isValid, d, regexMatch);
  }

  /**
   * Builds the `and` array by conditional pushes. The query matches every
   * document exactly when no condition was supplied, and otherwise keeps
   * exactly the wanted documents.
   */
  method BuildQuery(p: Params, isValid: string -> bool, parseDate: string -> Date) returns (query: Query)
    ensures query.MatchAll? <==>
      && Trim(Text0(p.q)) == "" && Text0(p.from) == "" && Text0(p.to) == ""
      && ToObjectId(p.partyId, isValid).None? && Text0(p.categoryId) == ""
    ensures forall d, regexMatch {:trigger Satisfies(query, d, regexMatch)} ::
      Satisfies(query, d, regexMatch) <==> Wanted(p, d, regexMatch, isValid, parseDate)
  {
    var q := Trim(Text0(p.q));
    var from := Text0(p.from);
    var to := Text0(p.to);
    var categoryId := Text0(p.categoryId);
    ghost var c1, c2, c3, c4 := TextClause(p), DateClause(p, parseDate), PartyClause(p, isValid), CategoryClause(p, isValid);
    var and: seq<Clause> := [];
    if q != "" {
      and := and + [TextSearch(q)];
    }
    assert and == Pushed(c1);
    if from != "" || to != "" {
      var gte := if from != "" then Some(parseDate(from)) else None;
      var lte := if to != "" then Some(parseDate(to)) else None;
      and := and + [DateRange(Window(None, gte, lte))];
    } else {
      assert and == and + Pushed(c2);
    }
    assert and == Pushed(c1) + Pushed(c2);
    var partyOid := ToObjectId(p.partyId, isValid);
    if partyOid.Some? {
      and := and + [PartyIs(partyOid.value)];
    } else {
      assert and == and + Pushed(c3);
    }
    assert and == Pushed(c1) + Pushed(c2) + Pushed(c3);
    if categoryId != "" {
      var catOid := ToObjectId(p.categoryId, isValid);
      and := and + [CategoryIs(if catOid.Some? then Oid(catOid.value) else Raw(categoryId), categoryId)];
    } else {
      assert and == and + Pushed(c4);
    }
    assert and == Pushed(c1) + Pushed(c2) + Pushed(c3) + Pushed(c4);
    forall d, regexMatch ensures Satisfies(And(and), d, regexMatch) <==> Wanted(p, d, regexMatch, isValid, parseDate) {
      PushedMeaning(c1, c2, c3, c4, d, regexMatch);
      ClausesMeanWanted(p, isValid, parseDate, d, regexMatch);
    }
    query := if |and| > 0 then And(and) else MatchAll;
  }

  /** A returned row as the client receives it. */
  datatype RowOut = RowOut(
    id: string,
    date: Date,
    voucherNo: string,
    description: string,
    debit: real,
    credit: real,
    meta: Value)

  /**
   * `docs.map(d => ...)`: absent texts become '', absent amounts 0, and a
   * meta that is not an object becomes `{}`.
   */
  function NormalizeRow(d: TxDoc): (r: RowOut)
    ensures r.id == d.id && r.date == d.date
    ensures r.voucherNo == d.voucherNo.GetOr("") && r.description == d.description.GetOr("")
    ensures r.debit == d.debit.GetOr(0.0) && r.credit == d.credit.GetOr(0.0)
    ensures r.meta.Obj? || r.meta.Arr?
    ensures d.meta.Some? && (d.meta.value.Obj? || d.meta.value.Arr?) ==> r.meta == d.meta.value
    ensures !(d.meta.Some? && (d.meta.value.Obj? || d.meta.value.Arr?)) ==> r.meta == Obj(map[])
  {
    RowOut(
      d.id, d.date,
      d.voucherNo.GetOr(""), d.description.GetOr(""),
      d.debit.GetOr(0.0), d.credit.GetOr(0.0),
      if d.meta.Some? && (d.meta.value.Obj? || d.meta.value.Arr?) then d.meta.value else Obj(map[]))
  }

  function SumDebit(rows: seq<RowOut>): real {
    if rows == [] then 0.0 else SumDebit(rows[..|rows| - 1]) + rows[|rows| - 1].debit
  }

  function SumCredit(rows: seq<RowOut>): real {
    if rows == [] then 0.0 else SumCredit(rows[..|rows| - 1]) + rows[|rows| - 1].credit
  }

  /** The totals of concatenated row lists add up. */
  lemma {:induction false} SumsAppend(a: seq<RowOut>, b: seq<RowOut>)
    ensures SumDebit(a + b) == SumDebit(a) + SumDebit(b)
    ensures SumCredit(a + b) == SumCredit(a) + SumCredit(b)
  {
    if b != [] {
      SumsAppend(a, b[..|b| - 1]);
      assert (a + b)[..|a + b| - 1] == a + b[..|b| - 1];
    } else {
      assert a + b == a;
    }
  }

  /** Sums of the stored amounts, a missing one counting as 0. */
  function DocDebits(docs: seq<TxDoc>): real {
    if docs == [] then 0.0 else DocDebits(docs[..|docs| - 1]) + docs[|docs| - 1].debit.GetOr(0.0)
  }

  function DocCredits(docs: seq<TxDoc>): real {
    if docs == [] then 0.0 else DocCredits(docs[..|docs| - 1]) + docs[|docs| - 1].credit.GetOr(0.0)
  }

  /** `rows.reduce(...)`: adds every row's debit and credit into the accumulator. */
  method Totals(rows: seq<RowOut>) returns (debit: real, credit: real)
    ensures debit == SumDebit(rows) && credit == SumCredit(rows)
  {
    debit, credit := 0.0, 0.0;
    var i := 0;
    while i < |rows|
      invariant 0 <= i <= |rows|
      invariant debit == SumDebit(rows[..i]) && credit == SumCredit(rows[..i])
    {
      assert rows[..i + 1][..i] == rows[..i];
      debit := debit + rows[i].debit;
      credit := credit + rows[i].credit;
      i := i + 1;
    }
    assert rows[..|rows|] == rows;
  }

  /**
   * Normalises the returned documents and totals them: one row per document,
   * in order, and the totals are the sums of the stored amounts.
   */
  method Respond(docs: seq<TxDoc>) returns (rows: seq<RowOut>, debit: real, credit: real)
    ensures |rows| == |docs|
    ensures forall i :: 0 <= i < |docs| ==> rows[i] == NormalizeRow(docs[i])
    ensures debit == DocDebits(docs) && credit == DocCredits(docs)
  {
    rows := [];
    var i := 0;
    while i < |docs|
      invariant 0 <= i <= |docs|
      invariant |rows| == i
      invariant forall k :: 0 <= k < i ==> rows[k] == NormalizeRow(docs[k])
      invariant SumDebit(rows) == DocDebits(docs[..i]) && SumCredit(rows) == DocCredits(docs[..i])
    {
      assert docs[..i + 1][..i] == docs[..i];
      rows := rows + [NormalizeRow(docs[i])];
      assert rows[..|rows| - 1] == rows[..i];
      i := i + 1;
    }
    assert docs[..|docs|] == docs;
    debit, credit := Totals(rows);
  }
}
