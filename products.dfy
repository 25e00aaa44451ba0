/**
 * The products route: `GET` lists products with their price and unit read
 * out of `meta`, `POST` validates a new product and builds its `meta`.
 */
module Products {
  import opened Wrappers
  import opened Json
  import opened Text
  import opened SearchParams

  /** `limit`: in [1, 300]; 300 when missing or not a finite number, but 1 for an empty parameter. */
  function ListLimit(limitParam: Option<string>): (r: real)
    ensures 1.0 <= r <= 300.0
    ensures limitParam.None? ==> r == 300.0
    ensures limitParam == Some("") ==> r == 1.0
    ensures limitParam.Some? && JsNumber(limitParam.value).None? ==> r == 300.0
  {
    LimitNullish(limitParam, 300, 300.0)
  }

  /**
   * `{ type: 'product', name?: { $regex: q, $options: 'i' } }`: `q` is used
   * untrimmed and unescaped, so it is read as a regular expression.
   */
  datatype ProductFilter = ProductFilter(namePattern: Option<string>)

  function ListFilter(qParam: Option<string>): (f: ProductFilter)
    ensures f.namePattern.Some? <==> qParam.Some? && qParam.value != ""
    ensures f.namePattern.Some? ==> f.namePattern.value == qParam.value
  {
    var q := qParam.GetOr("");
    ProductFilter(if q != "" then Some(q) else None)
  }

  /** A stored product account. */
  datatype ProductDoc = ProductDoc(id: string, name: string, code: Option<string>, meta: Option<Value>)

  /** One listed product. */
  datatype Listing = Listing(id: string, name: string, code: string, price: Option<real>, unit: string)

  /** `(d.meta ?? {})[key]`: only an object has properties here. */
  function MetaField(meta: Option<Value>, key: string): Option<Value> {
    if meta.Some? && meta.value.Obj? && key in meta.value.fields then Some(meta.value.fields[key]) else None
  }

  /** `typeof meta.price === 'number' ? meta.price : null` */
  function PriceOf(meta: Option<Value>): (r: Option<real>)
    ensures r.Some? <==> MetaField(meta, "price").Some? && MetaField(meta, "price").value.Num?
    ensures r.Some? ==> MetaField(meta, "price") == Some(Num(r.value))
  {
    match MetaField(meta, "price")
    case Some(Num(n)) => Some(n)
    case _ => None
  }

  /** `typeof meta.unit === 'string' ? meta.unit : ''` */
  function UnitOf(meta: Option<Value>): (r: string)
    ensures MetaField(meta, "unit").Some? && MetaField(meta, "unit").value.Str? ==> MetaField(meta, "unit") == Some(Str(r))
    ensures !(MetaField(meta, "unit").Some? && MetaField(meta, "unit").value.Str?) ==> r == ""
  {
    match MetaField(meta, "unit")
    case Some(Str(u)) => u
    case _ => ""
  }

  /** One entry of `docs.map(...)`: a missing code reads as ''. */
  function ListingOf(d: ProductDoc): (r: Listing)
    ensures r.id == d.id && r.name == d.name && r.code == d.code.GetOr("")
    ensures r.price == PriceOf(d.meta) && r.unit == UnitOf(d.meta)
  {
    Listing(d.id, d.name, d.code.GetOr(""), PriceOf(d.meta), UnitOf(d.meta))
  }

  /** `docs.map(...)`: one listing per document, in the order the database returned them. */
  function Listings(docs: seq<ProductDoc>): (r: seq<Listing>)
    ensures |r| == |docs|
    ensures forall i :: 0 <= i < |docs| ==> r[i] == ListingOf(docs[i])
  {
    if docs == [] then [] else [ListingOf(docs[0])] + Listings(docs[1..])
  }

  /** The JSON body of `POST`; fields of other types than these are not modelled. */
  datatype ProductBody = ProductBody(name: Option<string>, code: Option<string>, price: Option<Value>, unit: Option<string>)

  /** What `Account.create` receives (with `type: 'product'`). */
  datatype NewProduct = NewProduct(name: string, code: Option<string>, meta: map<string, Value>)

  /** The 201 reply, without its id. */
  datatype Reply = Reply(name: string, code: string, price: Option<real>, unit: string)

  function TrimOpt(s: Option<string>): Option<string> {
    if s.Some? then Some(Trim(s.value)) else None
  }

  /** `typeof body.price === 'number' ? body.price : undefined` */
  function NumberOf(v: Option<Value>): Option<real> {
    if v.Some? && v.value.Num? then Some(v.value.n) else None
  }

  /**
   * `POST`: invalid JSON and an absent or blank name give 400; otherwise the
   * trimmed fields are stored, `meta` holding `price` only when it is a number
   * and `unit` only when it is non-empty after trimming.
   */
  function Create(body: Option<ProductBody>): (r: Result<(NewProduct, Reply)>)
    ensures r.BadRequest? <==> body.None? || body.value.name.None? || Trim(body.value.name.value) == ""
    ensures body.None? ==> r == BadRequest("Invalid JSON")
    ensures r.Ok? ==>
      var (np, reply) := r.value;
      var b := body.value;
      && np.name == Trim(b.name.value) && np.name != ""
      && np.code == TrimOpt(b.code)
      && np.meta.Keys <= {"price", "unit"}
      && ("price" in np.meta <==> b.price.Some? && b.price.value.Num?)
      && ("price" in np.meta ==> np.meta["price"] == b.price.value)
      && ("unit" in np.meta <==> b.unit.Some? && Trim(b.unit.value) != "")
      && ("unit" in np.meta ==> np.meta["unit"] == Str(Trim(b.unit.value)))
      && reply == Reply(np.name, np.code.GetOr(""), NumberOf(b.price), TrimOpt(b.unit).GetOr(""))
  {
    if body.None? then BadRequest("Invalid JSON")
    else
      var b := body.value;
      var name := TrimOpt(b.name);
      var code := TrimOpt(b.code);
      var price := NumberOf(b.price);
      var unit := TrimOpt(b.unit);
      if name.None? || name.value == "" then BadRequest("name required")
      else
        var withPrice: map<string, Value> := if price.Some? then map["price" := Num(price.value)] else map[];
        var meta := if unit.Some? && unit.value != "" then withPrice["unit" := Str(unit.value)] else withPrice;
        Ok((NewProduct(name.value, code, meta), Reply(name.value, code.GetOr(""), price, unit.GetOr(""))))
  }

  /** The document the store keeps for a new product: the schema trims the name again. */
  function Stored(id: string, np: NewProduct): ProductDoc {
    ProductDoc(id, Trim(np.name), np.code, Some(Obj(np.meta)))
  }

  /** Listing a product just created shows what the creation replied. */
  lemma CreatedListsAsReplied(body: Option<ProductBody>, id: string)
    requires Create(body).Ok?
    ensures var (np, reply) := Create(body).value;
      ListingOf(Stored(id, np)) == Listing(id, reply.name, reply.code, reply.price, reply.unit)
  {
    var (np, reply) := Create(body).value;
    StoredListsAsReplied(id, body.value, np, reply);
  }

  /** The step of `CreatedListsAsReplied` that reads the stored document back, from what `Create` promises. */
  lemma StoredListsAsReplied(id: string, b: ProductBody, np: NewProduct, reply: Reply)
    requires b.name.Some? && np.name == Trim(b.name.value)
    requires "price" in np.meta <==> b.price.Some? && b.price.value.Num?
    requires "price" in np.meta ==> np.meta["price"] == b.price.value
    requires "unit" in np.meta <==> b.unit.Some? && Trim(b.unit.value) != ""
    requires "unit" in np.meta ==> np.meta["unit"] == Str(Trim(b.unit.value))
    requires reply == Reply(np.name, np.code.GetOr(""), NumberOf(b.price), TrimOpt(b.unit).GetOr(""))
    ensures ListingOf(Stored(id, np)) == Listing(id, reply.name, reply.code, reply.price, reply.unit)
  {
    TrimTwice(b.name.value);
    StoredPrice(np.meta, b.price);
    StoredUnit(np.meta, b.unit);
  }

  lemma StoredPrice(meta: map<string, Value>, price: Option<Value>)
    requires "price" in meta <==> price.Some? && price.value.Num?
    requires "price" in meta ==> meta["price"] == price.value
    ensures PriceOf(Some(Obj(meta))) == NumberOf(price)
  {
  }

  lemma StoredUnit(meta: map<string, Value>, unit: Option<string>)
    requires "unit" in meta <==> unit.Some? && Trim(unit.value) != ""
    requires "unit" in meta ==> meta["unit"] == Str(Trim(unit.value))
    ensures UnitOf(Some(Obj(meta))) == TrimOpt(unit).GetOr("")
  {
  }
}
