/**
 * The inventory routes around the valuation engine: the bulk endpoints that
 * turn opening, purchase and sale rows into stored movements, and the summary
 * endpoint that reads a product's movements back and values them.
 */
module Inventory {
  import opened Wrappers
  import opened Dates
  import opened Json
  import W = Wac

  type Meta = map<string, Value>

  /** The movement types a stored movement may have. */
  datatype MovementKind = Opening | Purchase | Sale | Waste | Adjustment

  /** A movement document as a bulk route inserts it. */
  datatype MovementDoc = MovementDoc(
    kind: MovementKind,
    date: Date,
    partyId: Option<string>,
    productId: string,
    qty: real,
    rate: Option<real>,
    sellRate: Option<real>,
    meta: Meta)

  /** The fields the summary route selects from a stored movement; `qty` and `rate` may be missing or mistyped. */
  datatype StoredMovement = StoredMovement(kind: MovementKind, date: Date, qty: Option<real>, rate: Option<Value>)

  /** A document read back with `select({ type, date, qty, rate })`. */
  function Stored(doc: MovementDoc): StoredMovement {
    StoredMovement(doc.kind, doc.date, Some(doc.qty), if doc.rate.Some? then Some(Num(doc.rate.value)) else None)
  }

  // ---------------------------------------------------------------------------
  // GET /api/inventory/summary

  /** The movement handed to the engine: `opening` counts as `purchase`, a missing qty as 0, a non-number rate as none. */
  function ToEngine(m: StoredMovement): (e: W.Movement)
    ensures e.kind == W.Purchase <==> m.kind == Opening || m.kind == Purchase
    ensures m.kind == Sale ==> e.kind == W.Sale
    ensures m.kind == Waste ==> e.kind == W.Waste
    ensures m.kind == Adjustment ==> e.kind == W.Adjustment
    ensures e.date == m.date
    ensures e.qty == m.qty.GetOr(0.0)
    ensures e.rate.Some? <==> m.rate.Some? && m.rate.value.Num?
    ensures e.rate.Some? ==> m.rate == Some(Num(e.rate.value))
  {
    var kind := match m.kind
      case Opening => W.Purchase
      case Purchase => W.Purchase
      case Sale => W.Sale
      case Waste => W.Waste
      case Adjustment => W.Adjustment;
    var rate := if m.rate.Some? && m.rate.value.Num? then Some(m.rate.value.n) else None;
    W.Movement(kind, m.date, m.qty.GetOr(0.0), rate)
  }

  function ToEngineAll(movs: seq<StoredMovement>): (r: seq<W.Movement>)
    ensures |r| == |movs| && forall i :: 0 <= i < |movs| ==> r[i] == ToEngine(movs[i])
  {
    seq(|movs|, i requires 0 <= i < |movs| => ToEngine(movs[i]))
  }

  /**
   * `GET`: `productId` is the query parameter (none when absent),
   * `isObjectId` stands for `ObjectId.isValid` and `movs` for the product's
   * stored movements.
   */
  method Summary(productId: Option<string>, isObjectId: string -> bool, movs: seq<StoredMovement>)
    returns (r: Result<W.Summary>)
    ensures r.BadRequest? <==> productId.None? || !isObjectId(productId.value)
    ensures r.Ok? ==> r.value == W.Summarize(W.Replay(W.SortByDate(ToEngineAll(movs))))
    ensures r.Ok? ==> r.value.qty == W.Purchased(ToEngineAll(movs)) - W.Consumed(ToEngineAll(movs))
  {
    if productId.None? || !isObjectId(productId.value) {
      return BadRequest("Invalid productId");
    }
    var s := W.ComputeSummary(ToEngineAll(movs));
    return Ok(W.Summary(s.qty, s.value, s.avg));
  }

  // ---------------------------------------------------------------------------
  // POST /api/inventory/opening/bulk

  datatype OpeningRow = OpeningRow(date: string, productId: string, qty: real, avgCost: Option<real>, note: Option<string>)

  predicate ValidOpeningRow(r: OpeningRow) {
    |r.date| >= 1 && |r.productId| >= 1 && r.qty >= 0.0 && (r.avgCost.Some? ==> r.avgCost.value >= 0.0)
  }

  /** The opening movement of one row; `parseDate` stands for `new Date(text)`. */
  function OpeningDoc(r: OpeningRow, parseDate: string -> Date): (d: MovementDoc)
    ensures d.kind == Opening && d.qty == r.qty && d.rate == Some(r.avgCost.GetOr(0.0))
    ensures d.meta.Keys == {"value", "avgCost", "note"}
    ensures d.meta["value"] == Num(r.qty * r.avgCost.GetOr(0.0))
    ensures d.meta["note"] == Str(r.note.GetOr(""))
    ensures d.meta["avgCost"] == Num(r.avgCost.GetOr(0.0))
    ensures d.date == parseDate(r.date) && d.productId == r.productId
    ensures d.partyId.None? && d.sellRate.None?
  {
    var avg := r.avgCost.GetOr(0.0);
    var meta := map["value" := Num(r.qty * avg), "avgCost" := Num(avg), "note" := Str(r.note.GetOr(""))];
    assert "value" != "avgCost" && "value" != "note" && "avgCost" != "note";
    assert meta["value"] == Num(r.qty * avg) && meta["avgCost"] == Num(avg);
    MovementDoc(Opening, parseDate(r.date), None, r.productId, r.qty, Some(avg), None, meta)
  }

  /** `POST`: `body` is none when it does not have the shape of `{ rows: Row[] }`. */
  function OpeningBulk(body: Option<seq<OpeningRow>>, parseDate: string -> Date): (res: Result<seq<MovementDoc>>)
    ensures res.Ok? <==> body.Some? && |body.value| >= 1 && forall r :: r in body.value ==> ValidOpeningRow(r)
    ensures res.Ok? ==> |res.value| == |body.value|
    ensures res.Ok? ==> forall i :: 0 <= i < |res.value| ==> res.value[i] == OpeningDoc(body.value[i], parseDate)
  {
    if body.None? || |body.value| == 0 || exists r :: r in body.value && !ValidOpeningRow(r) then
      BadRequest("Invalid payload")
    else
      var rows := body.value;
      Ok(seq(|rows|, i requires 0 <= i < |rows| => OpeningDoc(rows[i], parseDate)))
  }

  /** Valued on its own, an opening row gives its quantity at its average cost, worth `meta.value`. */
  lemma OpeningRowValuation(r: OpeningRow, parseDate: string -> Date)
    requires ValidOpeningRow(r)
    ensures
      var doc := OpeningDoc(r, parseDate);
      var s := W.Summarize(W.Replay(W.SortByDate(ToEngineAll([Stored(doc)]))));
      && s.qty == r.qty
      && Num(s.value) == doc.meta["value"]
      && s.avg == (if r.qty > 0.0 then r.avgCost.GetOr(0.0) else 0.0)
  {
    var doc := OpeningDoc(r, parseDate);
    var ms := ToEngineAll([Stored(doc)]);
    assert W.SortByDate(ms) == ms;
    assert ms[..0] == [];
  }

  // ---------------------------------------------------------------------------
  // POST /api/inventory/purchases/bulk

  datatype PurchaseRow = PurchaseRow(
    kind: string, date: string, partyId: Option<string>, productId: string,
    rate: real, qty: real, waste: Option<real>, meta: Option<Meta>)

  predicate ValidPurchaseRow(r: PurchaseRow, isObjectId: string -> bool) {
    && r.kind == "purchase" && |r.date| >= 8 && isObjectId(r.productId)
    && r.rate >= 0.0 && r.qty >= 0.0 && (r.waste.Some? ==> r.waste.value >= 0.0)
  }

  /** `r.waste && r.waste > 0` */
  predicate HasWaste(r: PurchaseRow) {
    r.waste.Some? && r.waste.value > 0.0
  }

  /** The purchase movement of a row: its quantity at its rate, and its meta or `{}`. */
  function PurchaseDoc(r: PurchaseRow, parseDate: string -> Date): (d: MovementDoc)
    ensures d.kind == Purchase && d.qty == r.qty && d.rate == Some(r.rate) && d.sellRate.None?
    ensures d.date == parseDate(r.date) && d.partyId == r.partyId && d.productId == r.productId
    ensures d.meta == r.meta.GetOr(map[])
  {
    MovementDoc(Purchase, parseDate(r.date), r.partyId, r.productId, r.qty, Some(r.rate), None, r.meta.GetOr(map[]))
  }

  /** The waste movement of a row: no rate, and `{ reason: 'purchase-row', ...meta }` as meta. */
  function WasteDoc(r: PurchaseRow, parseDate: string -> Date): (d: MovementDoc)
    requires HasWaste(r)
    ensures d.kind == Waste && d.qty == r.waste.value && d.rate.None? && d.sellRate.None?
    ensures d.date == parseDate(r.date) && d.partyId == r.partyId && d.productId == r.productId
    ensures d.meta.Keys == r.meta.GetOr(map[]).Keys + {"reason"}
    ensures d.meta["reason"] == if "reason" in r.meta.GetOr(map[]) then r.meta.value["reason"] else Str("purchase-row")
    ensures forall k :: k in r.meta.GetOr(map[]) ==> d.meta[k] == r.meta.value[k]
  {
    MovementDoc(Waste, parseDate(r.date), r.partyId, r.productId, r.waste.value, None, None,
                map["reason" := Str("purchase-row")] + r.meta.GetOr(map[]))
  }

  /** The documents of the rows: each purchase, followed by its waste when it has one. */
  function Expand(rows: seq<PurchaseRow>, parseDate: string -> Date): (docs: seq<MovementDoc>)
    ensures |docs| == |rows| + WasteCount(rows)
  {
    if rows == [] then []
    else
      var r := rows[|rows| - 1];
      Expand(rows[..|rows| - 1], parseDate) + [PurchaseDoc(r, parseDate)]
      + (if HasWaste(r) then [WasteDoc(r, parseDate)] else [])
  }

  /** The loop that pushes one or two documents per row. */
  method ExpandPurchases(rows: seq<PurchaseRow>, parseDate: string -> Date) returns (docs: seq<MovementDoc>)
    ensures docs == Expand(rows, parseDate)
    ensures |docs| == |rows| + WasteCount(rows)
  {
    docs := [];
    for i := 0 to |rows|
      invariant docs == Expand(rows[..i], parseDate)
    {
      assert rows[..i + 1][..i] == rows[..i];
      var r := rows[i];
      docs := docs + [PurchaseDoc(r, parseDate)];
      if r.waste.Some? && r.waste.value > 0.0 {
        docs := docs + [WasteDoc(r, parseDate)];
      }
    }
    assert rows[..|rows|] == rows;
  }

  /** `POST`: `body` is none when it does not have the shape of `{ rows: Row[] }`. */
  method PurchasesBulk(body: Option<seq<PurchaseRow>>, isObjectId: string -> bool, parseDate: string -> Date)
    returns (res: Result<seq<MovementDoc>>)
    ensures res.Ok? <==> body.Some? && |body.value| >= 1 && forall r :: r in body.value ==> ValidPurchaseRow(r, isObjectId)
    ensures res.Ok? ==> res.value == Expand(body.value, parseDate)
    ensures res.Ok? ==> |res.value| == |body.value| + WasteCount(body.value)
  {
    if body.None? || |body.value| == 0 || exists r :: r in body.value && !ValidPurchaseRow(r, isObjectId) {
      return BadRequest("Invalid payload");
    }
    var docs := ExpandPurchases(body.value, parseDate);
    return Ok(docs);
  }

  function WasteCount(rows: seq<PurchaseRow>): nat {
    if rows == [] then 0 else WasteCount(rows[..|rows| - 1]) + (if HasWaste(rows[|rows| - 1]) then 1 else 0)
  }

  lemma {:induction false} ExpandAppend(a: seq<PurchaseRow>, b: seq<PurchaseRow>, parseDate: string -> Date)
    ensures Expand(a + b, parseDate) == Expand(a, parseDate) + Expand(b, parseDate)
  {
    if b == [] {
      assert a + b == a;
    } else {
      var init, r := b[..|b| - 1], b[|b| - 1];
      ExpandAppend(a, init, parseDate);
      assert b == init + [r];
      ExpandAppendStep(a, init, r, parseDate);
    }
  }

  lemma ExpandAppendStep(a: seq<PurchaseRow>, init: seq<PurchaseRow>, r: PurchaseRow, parseDate: string -> Date)
    requires Expand(a + init, parseDate) == Expand(a, parseDate) + Expand(init, parseDate)
    ensures Expand(a + (init + [r]), parseDate) == Expand(a, parseDate) + Expand(init + [r], parseDate)
  {
    var x, y, t := Expand(a, parseDate), Expand(init, parseDate), RowDocs(r, parseDate);
    calc {
      Expand(a + (init + [r]), parseDate);
      { assert a + (init + [r]) == (a + init) + [r]; }
      Expand((a + init) + [r], parseDate);
      { ExpandSnoc(a + init, r, parseDate); }
      (x + y) + t;
      { assert (x + y) + t == x + (y + t); }
      x + (y + t);
      { ExpandSnoc(init, r, parseDate); }
      x + Expand(init + [r], parseDate);
    }
  }

  /** The documents of one row: its purchase, then its waste when it has one. */
  function RowDocs(r: PurchaseRow, parseDate: string -> Date): seq<MovementDoc> {
    [PurchaseDoc(r, parseDate)] + (if HasWaste(r) then [WasteDoc(r, parseDate)] else [])
  }

  lemma ExpandSnoc(rows: seq<PurchaseRow>, r: PurchaseRow, parseDate: string -> Date)
    ensures Expand(rows + [r], parseDate) == Expand(rows, parseDate) + RowDocs(r, parseDate)
  {
    var whole := rows + [r];
    assert whole[..|whole| - 1] == rows && whole[|whole| - 1] == r;
  }


  /**
   * Row i's purchase sits at position i plus the number of wastes before it,
   * and its waste, when it has one, immediately after.
   */
  lemma ExpandLayout(rows: seq<PurchaseRow>, parseDate: string -> Date, i: nat)
    requires i < |rows|
    ensures var k := i + WasteCount(rows[..i]);
      && k < |Expand(rows, parseDate)| && Expand(rows, parseDate)[k] == PurchaseDoc(rows[i], parseDate)
      && (HasWaste(rows[i]) ==> k + 1 < |Expand(rows, parseDate)| && Expand(rows, parseDate)[k + 1] == WasteDoc(rows[i], parseDate))
  {
    var pre, r, post := rows[..i], rows[i], rows[i + 1..];
    assert rows == (pre + [r]) + post;
    ExpandAppend(pre + [r], post, parseDate);
    ExpandSnoc(pre, r, parseDate);
    var x, t, y := Expand(pre, parseDate), RowDocs(r, parseDate), Expand(post, parseDate);
    assert Expand(rows, parseDate) == (x + t) + y;
    assert |x| == i + WasteCount(pre);
  }

  /** A row's purchase and waste, replayed, add `qty − waste` to the stock and `rate × qty` before the waste is costed. */
  lemma PurchaseRowStock(s: W.Stock, r: PurchaseRow, parseDate: string -> Date)
    requires HasWaste(r)
    ensures
      var p := ToEngine(Stored(PurchaseDoc(r, parseDate)));
      var w := ToEngine(Stored(WasteDoc(r, parseDate)));
      var after := W.Apply(s, p);
      && after == W.Stock(s.qty + r.qty, s.value + r.rate * r.qty)
      && W.Apply(after, w) == W.Stock(s.qty + r.qty - r.waste.value, after.value - W.Average(after) * r.waste.value)
  {
  }

  // ---------------------------------------------------------------------------
  // POST /api/inventory/sales/bulk

  datatype SaleRow = SaleRow(
    kind: string, date: string, partyId: Option<string>, productId: string,
    qty: real, sellRate: Option<real>, meta: Option<Meta>)

  predicate ValidSaleRow(r: SaleRow, isObjectId: string -> bool) {
    && r.kind == "sale" && |r.date| >= 8 && isObjectId(r.productId)
    && r.qty > 0.0 && (r.sellRate.Some? ==> r.sellRate.value >= 0.0)
  }

  /** The sale movement of a row: no cost rate, the selling rate as given, and its meta or `{}`. */
  function SaleDoc(r: SaleRow, parseDate: string -> Date): (d: MovementDoc)
    ensures d.kind == Sale && d.qty == r.qty && d.rate.None? && d.sellRate == r.sellRate
    ensures d.date == parseDate(r.date) && d.partyId == r.partyId && d.productId == r.productId
    ensures d.meta == r.meta.GetOr(map[])
  {
    MovementDoc(Sale, parseDate(r.date), r.partyId, r.productId, r.qty, None, r.sellRate, r.meta.GetOr(map[]))
  }

  /** `POST`: `body` is none when it does not have the shape of `{ rows: Row[] }`. */
  function SalesBulk(body: Option<seq<SaleRow>>, isObjectId: string -> bool, parseDate: string -> Date)
    : (res: Result<seq<MovementDoc>>)
    ensures res.Ok? <==> body.Some? && |body.value| >= 1 && forall r :: r in body.value ==> ValidSaleRow(r, isObjectId)
    ensures res.Ok? ==> |res.value| == |body.value|
    ensures res.Ok? ==> forall i :: 0 <= i < |res.value| ==>
              && res.value[i].kind == Sale && res.value[i].qty == body.value[i].qty
              && res.value[i].rate.None? && res.value[i].sellRate == body.value[i].sellRate
              && res.value[i].meta == body.value[i].meta.GetOr(map[])
  {
    if body.None? || |body.value| == 0 || exists r :: r in body.value && !ValidSaleRow(r, isObjectId) then
      BadRequest("Invalid payload")
    else
      var rows := body.value;
      Ok(seq(|rows|, i requires 0 <= i < |rows| => SaleDoc(rows[i], parseDate)))
  }

  /** A sale carries no rate, so the valuation takes its quantity out at the average cost. */
  lemma SaleIsCostedAtAverage(s: W.Stock, r: SaleRow, parseDate: string -> Date)
    ensures W.Apply(s, ToEngine(Stored(SaleDoc(r, parseDate)))) == W.Stock(s.qty - r.qty, s.value - W.Average(s) * r.qty)
  {
  }
}
