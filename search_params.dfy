/**
 * The `limit` query parameter of the search and listing routes: read with
 * `Number(...)`, a fallback written as a numeral when the parameter is not
 * usable, then clamped between 1 and a route-specific ceiling.
 */
module SearchParams {
  import opened Wrappers
  import opened Text

  function Min(a: real, b: real): real { if a <= b then a else b }
  function Max(a: real, b: real): real { if a >= b then a else b }

  /**
   * `Number(text)`, then `isFinite ? min(max(x, 1), hi) : fallback`.
   * The clamp keeps values already in range and moves the others to the
   * nearer end.
   */
  function ClampedNumber(text: string, fallback: nat, hi: real): (r: real)
    requires 1.0 <= fallback as real <= hi
    ensures 1.0 <= r <= hi
    ensures JsNumber(text).None? ==> r == fallback as real
    ensures JsNumber(text).Some? ==>
      var x := JsNumber(text).value;
      && (x < 1.0 ==> r == 1.0)
      && (x > hi ==> r == hi)
      && (1.0 <= x <= hi ==> r == x)
  {
    match JsNumber(text)
    case None => fallback as real
    case Some(x) => Min(Max(x, 1.0), hi)
  }

  /**
   * `Number(param || 'fallback')` clamped to [1, hi]: a missing or empty
   * parameter and a non-numeric one all give the fallback.
   */
  function LimitOr(param: Option<string>, fallback: nat, hi: real): (r: real)
    requires 1.0 <= fallback as real <= hi
    ensures 1.0 <= r <= hi
    ensures param.None? || param == Some("") ==> r == fallback as real
    ensures param.Some? && JsNumber(param.value).None? ==> r == fallback as real
  {
    NumberOfNatText(fallback);
    var text := if param.None? || param.value == "" then NatText(fallback) else param.value;
    ClampedNumber(text, fallback, hi)
  }

  /**
   * `Number(param ?? 'fallback')` clamped to [1, hi]: only a missing
   * parameter gives the fallback; an empty one reads as 0 and clamps to 1.
   */
  function LimitNullish(param: Option<string>, fallback: nat, hi: real): (r: real)
    requires 1.0 <= fallback as real <= hi
    ensures 1.0 <= r <= hi
    ensures param.None? ==> r == fallback as real
    ensures param == Some("") ==> r == 1.0
    ensures param.Some? && JsNumber(param.value).None? ==> r == fallback as real
  {
    NumberOfNatText(fallback);
    assert JsNumber("") == Some(0.0);
    ClampedNumber(param.GetOr(NatText(fallback)), fallback, hi)
  }

  /** A numeric parameter inside the range is used as it is, whichever fallback style reads it. */
  lemma InRangeIsKept(s: string, fallback: nat, hi: real)
    requires 1.0 <= fallback as real <= hi
    requires JsNumber(s).Some? && 1.0 <= JsNumber(s).value <= hi
    ensures LimitOr(Some(s), fallback, hi) == JsNumber(s).value
    ensures LimitNullish(Some(s), fallback, hi) == JsNumber(s).value
  {
  }
}
