/**
 * Weighted-average-cost valuation of one product's stock movements
 * (`computeSummary`): the movements are put in date order by a stable sort and
 * replayed; purchases add quantity and cost, every other movement takes
 * quantity out at the average cost standing just before it.
 */
module Wac {
  import opened Wrappers
  import opened Dates

  datatype MovementType = Purchase | Sale | Waste | Adjustment

  datatype Movement = Movement(kind: MovementType, date: Date, qty: real, rate: Option<real>)

  datatype Summary = Summary(qty: real, value: real, avg: real)

  /** Quantity on hand and its total value, the two accumulators of the replay. */
  datatype Stock = Stock(qty: real, value: real)

  /** The average unit cost: `qty > 0 ? value / qty : 0`. */
  function Average(s: Stock): real {
    if s.qty > 0.0 then s.value / s.qty else 0.0
  }

  /**
   * One movement applied to the stock; consumption is costed at the average
   * before it, so taking out less than is on hand leaves the average where it was.
   */
  function Apply(s: Stock, m: Movement): (r: Stock)
    ensures m.kind == Purchase ==> r.qty == s.qty + m.qty && r.value == s.value + m.rate.GetOr(0.0) * m.qty
    ensures m.kind != Purchase ==> r.qty == s.qty - m.qty
    ensures m.kind != Purchase && s.qty > 0.0 && s.qty - m.qty > 0.0 ==> Average(r) == Average(s)
  {
    if m.kind == Purchase then Stock(s.qty + m.qty, s.value + m.rate.GetOr(0.0) * m.qty)
    else
      AverageCostKeepsAverage(s.qty, s.value, m.qty);
      Stock(s.qty - m.qty, s.value - Average(s) * m.qty)
  }

  /** Removing `out` units at `value / qty` each leaves `value / qty` per remaining unit. */
  lemma AverageCostKeepsAverage(qty: real, value: real, out: real)
    ensures qty > 0.0 && qty - out > 0.0 ==> (value - value / qty * out) / (qty - out) == value / qty
  {
    if qty > 0.0 && qty - out > 0.0 {
      var a := value / qty;
      assert value == a * qty;
      assert value - a * out == a * (qty - out);
    }
  }

  /** The stock left after replaying `ms`, in the order given, from nothing: what was purchased less what was consumed. */
  function Replay(ms: seq<Movement>): (r: Stock)
    ensures r.qty == Purchased(ms) - Consumed(ms)
  {
    if ms == [] then Stock(0.0, 0.0) else Apply(Replay(ms[..|ms| - 1]), ms[|ms| - 1])
  }

  /** The reported figures: quantity and value as they stand, and an average that is 0 unless stock is on hand. */
  function Summarize(s: Stock): (r: Summary)
    ensures r.qty == s.qty && r.value == s.value
    ensures r.avg == (if s.qty > 0.0 then s.value / s.qty else 0.0)
  {
    Summary(s.qty, s.value, Average(s))
  }

  // ---------------------------------------------------------------------------
  // The stable sort by date

  predicate SortedByDate(ms: seq<Movement>) {
    forall i, j :: 0 <= i < j < |ms| ==> NotAfter(ms[i].date, ms[j].date)
  }

  /** Places `m` after every movement of `sorted` that is not later than it. */
  function InsertByDate(sorted: seq<Movement>, m: Movement): seq<Movement> {
    if sorted == [] then [m]
    else if Before(m.date, sorted[0].date) then [m] + sorted
    else [sorted[0]] + InsertByDate(sorted[1..], m)
  }

  /** `[...ms].sort((a, b) => a.date.getTime() - b.date.getTime())`, a stable sort. */
  function SortByDate(ms: seq<Movement>): (r: seq<Movement>)
    ensures SortedByDate(r)
    ensures multiset(r) == multiset(ms)
  {
    if ms == [] then []
    else
      var init, last := ms[..|ms| - 1], ms[|ms| - 1];
      var sorted := SortByDate(init);
      InsertSorted(sorted, last);
      InsertPermutes(sorted, last);
      assert ms == init + [last];
      InsertByDate(sorted, last)
  }

  /** The movements of `ms` dated exactly `d`, in their order in `ms`. */
  function AtDate(ms: seq<Movement>, d: Date): seq<Movement> {
    if ms == [] then [] else (if ms[0].date == d then [ms[0]] else []) + AtDate(ms[1..], d)
  }

  lemma {:induction false} InsertPermutes(sorted: seq<Movement>, m: Movement)
    ensures multiset(InsertByDate(sorted, m)) == multiset(sorted) + multiset{m}
  {
    if sorted != [] && !Before(m.date, sorted[0].date) {
      InsertPermutes(sorted[1..], m);
      assert sorted == [sorted[0]] + sorted[1..];
    }
  }

  lemma {:induction false} InsertSorted(sorted: seq<Movement>, m: Movement)
    requires SortedByDate(sorted)
    ensures SortedByDate(InsertByDate(sorted, m))
  {
    if sorted == [] {
    } else if Before(m.date, sorted[0].date) {
      var r := [m] + sorted;
      forall i, j | 0 <= i < j < |r| ensures NotAfter(r[i].date, r[j].date) {
        if i == 0 && j > 1 {
          assert NotAfter(sorted[0].date, sorted[j - 1].date);
        }
      }
    } else {
      var t := InsertByDate(sorted[1..], m);
      InsertSorted(sorted[1..], m);
      InsertPermutes(sorted[1..], m);
      forall j | 0 <= j < |t| ensures NotAfter(sorted[0].date, t[j].date) {
        assert t[j] in multiset(t);
        if t[j] != m {
          assert t[j] in multiset(sorted[1..]);
          var k :| 0 <= k < |sorted[1..]| && sorted[1..][k] == t[j];
          assert sorted[k + 1] == t[j];
        }
      }
    }
  }

  lemma {:induction false} AtDateAppend(a: seq<Movement>, b: seq<Movement>, d: Date)
    ensures AtDate(a + b, d) == AtDate(a, d) + AtDate(b, d)
  {
    if a != [] {
      AtDateAppend(a[1..], b, d);
      assert (a + b)[1..] == a[1..] + b;
      assert (a + b)[0] == a[0];
    } else {
      assert a + b == b;
    }
  }

  lemma {:induction false} NothingAtEarlierDate(sorted: seq<Movement>, d: Date)
    requires SortedByDate(sorted)
    requires sorted != [] && Before(d, sorted[0].date)
    ensures AtDate(sorted, d) == []
  {
    if |sorted| > 1 {
      assert NotAfter(sorted[0].date, sorted[1].date);
      NothingAtEarlierDate(sorted[1..], d);
    }
  }

  lemma {:induction false} InsertAtDate(sorted: seq<Movement>, m: Movement, d: Date)
    requires SortedByDate(sorted)
    ensures AtDate(InsertByDate(sorted, m), d) == AtDate(sorted, d) + (if m.date == d then [m] else [])
  {
    if sorted == [] {
    } else if Before(m.date, sorted[0].date) {
      if m.date == d {
        NothingAtEarlierDate(sorted, d);
      }
      assert ([m] + sorted)[1..] == sorted;
    } else {
      InsertAtDate(sorted[1..], m, d);
      assert ([sorted[0]] + InsertByDate(sorted[1..], m))[1..] == InsertByDate(sorted[1..], m);
    }
  }

  /** Stability: movements sharing a date keep their input order. */
  lemma {:induction false} SortIsStable(ms: seq<Movement>, d: Date)
    ensures AtDate(SortByDate(ms), d) == AtDate(ms, d)
  {
    if ms != [] {
      var init, last := ms[..|ms| - 1], ms[|ms| - 1];
      SortIsStable(init, d);
      SortSnoc(init, last);
      Snoc(ms);
      StableStep(init, last, SortByDate(init), d);
    }
  }

  lemma Snoc(ms: seq<Movement>)
    requires ms != []
    ensures ms == ms[..|ms| - 1] + [ms[|ms| - 1]]
  {
  }

  lemma SortSnoc(init: seq<Movement>, last: Movement)
    ensures SortByDate(init + [last]) == InsertByDate(SortByDate(init), last)
  {
    var ms := init + [last];
    assert ms[..|ms| - 1] == init && ms[|ms| - 1] == last;
  }

  /** The step of `SortIsStable`: inserting the last movement keeps the same-date order. */
  lemma StableStep(init: seq<Movement>, last: Movement, sorted: seq<Movement>, d: Date)
    requires SortedByDate(sorted) && AtDate(sorted, d) == AtDate(init, d)
    ensures AtDate(InsertByDate(sorted, last), d) == AtDate(init + [last], d)
  {
    InsertAtDate(sorted, last, d);
    AtDateAppend(init, [last], d);
    assert AtDate([last], d) == (if last.date == d then [last] else []) + AtDate([], d);
  }

  // ---------------------------------------------------------------------------
  // Quantities

  /** Σ qty over the purchases of `ms`. */
  function Purchased(ms: seq<Movement>): real {
    if ms == [] then 0.0
    else Purchased(ms[..|ms| - 1]) + (if ms[|ms| - 1].kind == Purchase then ms[|ms| - 1].qty else 0.0)
  }

  /** Σ qty over the sales, waste and adjustments of `ms`. */
  function Consumed(ms: seq<Movement>): real {
    if ms == [] then 0.0
    else Consumed(ms[..|ms| - 1]) + (if ms[|ms| - 1].kind == Purchase then 0.0 else ms[|ms| - 1].qty)
  }

  lemma {:induction false} TotalsWithout(ms: seq<Movement>, i: nat)
    requires i < |ms|
    ensures Purchased(ms) == Purchased(ms[..i] + ms[i + 1..]) + (if ms[i].kind == Purchase then ms[i].qty else 0.0)
    ensures Consumed(ms) == Consumed(ms[..i] + ms[i + 1..]) + (if ms[i].kind == Purchase then 0.0 else ms[i].qty)
  {
    if i < |ms| - 1 {
      var init := ms[..|ms| - 1];
      TotalsWithout(init, i);
      assert ms[..i] + ms[i + 1..] == (init[..i] + init[i + 1..]) + [ms[|ms| - 1]];
    } else {
      assert ms[..i] + ms[i + 1..] == ms[..|ms| - 1];
    }
  }

  lemma RemoveAt(b: seq<Movement>, i: nat)
    requires i < |b|
    ensures multiset(b[..i] + b[i + 1..]) == multiset(b) - multiset{b[i]}
  {
    assert b == b[..i] + [b[i]] + b[i + 1..];
  }

  /** Purchased and consumed totals do not depend on the order of the movements. */
  lemma {:induction false} TotalsArePermutationInvariant(a: seq<Movement>, b: seq<Movement>)
    requires multiset(a) == multiset(b)
    ensures Purchased(a) == Purchased(b) && Consumed(a) == Consumed(b)
  {
    if a == [] {
      assert |b| == |multiset(b)|;
    } else {
      var x := a[|a| - 1];
      assert x in multiset(b);
      var i :| 0 <= i < |b| && b[i] == x;
      var rest := b[..i] + b[i + 1..];
      RemoveLast(a, b, i);
      TotalsArePermutationInvariant(a[..|a| - 1], rest);
      TotalsWithout(b, i);
    }
  }

  /** Taking the last movement of `a` out of `a`, and the same movement out of `b`, leaves two permutations. */
  lemma RemoveLast(a: seq<Movement>, b: seq<Movement>, i: nat)
    requires multiset(a) == multiset(b) && a != [] && i < |b| && b[i] == a[|a| - 1]
    ensures multiset(a[..|a| - 1]) == multiset(b[..i] + b[i + 1..])
  {
    RemoveAt(a, |a| - 1);
    RemoveAt(b, i);
    assert a[..|a| - 1] + a[|a|..] == a[..|a| - 1];
  }

  // ---------------------------------------------------------------------------
  // The replay

  /** `computeSummary` */
  method ComputeSummary(movs: seq<Movement>) returns (s: Summary)
    ensures s == Summarize(Replay(SortByDate(movs)))
    ensures s.qty == Purchased(movs) - Consumed(movs)
    ensures s.avg == (if s.qty > 0.0 then s.value / s.qty else 0.0)
    ensures movs == [] ==> s == Summary(0.0, 0.0, 0.0)
  {
    var ordered := SortByDate(movs);
    var qty, value := 0.0, 0.0;
    for i := 0 to |ordered|
      invariant Stock(qty, value) == Replay(ordered[..i])
    {
      ReplayStep(ordered, i);
      // a purchase adds its quantity and cost; anything else takes quantity
      // out at the average standing before it
      var next := Apply(Stock(qty, value), ordered[i]);
      qty, value := next.qty, next.value;
    }
    assert ordered[..|ordered|] == ordered;
    var avg := if qty > 0.0 then value / qty else 0.0;
    s := Summary(qty, value, avg);
    SortedQty(movs);
  }

  lemma ReplayStep(ms: seq<Movement>, i: nat)
    requires i < |ms|
    ensures Replay(ms[..i + 1]) == Apply(Replay(ms[..i]), ms[i])
  {
    assert ms[..i + 1][..i] == ms[..i];
  }

  /** Sorting first does not change the quantity on hand. */
  lemma SortedQty(movs: seq<Movement>)
    ensures Replay(SortByDate(movs)).qty == Purchased(movs) - Consumed(movs)
  {
    TotalsArePermutationInvariant(SortByDate(movs), movs);
  }

  /** Stock is not clamped: selling from nothing leaves negative quantity and a zero average. */
  lemma OversellIsNotClamped(d: Date)
    ensures Summarize(Replay(SortByDate([Movement(Sale, d, 5.0, None)]))) == Summary(-5.0, 0.0, 0.0)
  {
  }

  /**
   * 100 bought at 10, then 50 at 12, then 60 sold: 90 on hand worth 960 at
   * 32/3 each. The movements are listed out of date order on purpose.
   */
  lemma WorkedExample()
    ensures
      var d1, d2, d3 := Date(2024, 1, 1, 0), Date(2024, 1, 2, 0), Date(2024, 1, 3, 0);
      Summarize(Replay(SortByDate([
        Movement(Sale, d3, 60.0, None),
        Movement(Purchase, d1, 100.0, Some(10.0)),
        Movement(Purchase, d2, 50.0, Some(12.0))]))) == Summary(90.0, 960.0, 32.0 / 3.0)
  {
    var d1, d2, d3 := Date(2024, 1, 1, 0), Date(2024, 1, 2, 0), Date(2024, 1, 3, 0);
    var p1, p2, s1 := Movement(Purchase, d1, 100.0, Some(10.0)), Movement(Purchase, d2, 50.0, Some(12.0)), Movement(Sale, d3, 60.0, None);
    SortTwo(s1, p1);
    SortThree(s1, p1, p2);
    ReplayThree(p1, p2, s1);
  }

  lemma SortTwo(s1: Movement, p1: Movement)
    requires Before(p1.date, s1.date)
    ensures SortByDate([s1, p1]) == [p1, s1]
  {
    assert [s1, p1][..1] == [s1];
    assert SortByDate([s1]) == [s1];
  }

  lemma SortThree(s1: Movement, p1: Movement, p2: Movement)
    requires SortByDate([s1, p1]) == [p1, s1]
    requires Before(p1.date, p2.date) && Before(p2.date, s1.date)
    ensures SortByDate([s1, p1, p2]) == [p1, p2, s1]
  {
    SortSnoc([s1, p1], p2);
    assert [s1, p1] + [p2] == [s1, p1, p2];
    InsertBetween(p1, s1, p2);
  }

  lemma InsertBetween(p1: Movement, s1: Movement, p2: Movement)
    requires Before(p1.date, p2.date) && Before(p2.date, s1.date)
    ensures InsertByDate([p1, s1], p2) == [p1, p2, s1]
  {
    assert InsertByDate([s1], p2) == [p2, s1];
    assert InsertByDate([p1, s1], p2) == [p1] + InsertByDate([s1], p2);
  }

  lemma ReplayThree(p1: Movement, p2: Movement, s1: Movement)
    requires p1 == Movement(Purchase, p1.date, 100.0, Some(10.0)) && p2 == Movement(Purchase, p2.date, 50.0, Some(12.0))
    requires s1 == Movement(Sale, s1.date, 60.0, None)
    ensures Replay([p1, p2, s1]) == Stock(90.0, 960.0)
  {
    var ordered := [p1, p2, s1];
    assert ordered[..2] == [p1, p2] && ordered[..2][..1] == [p1];
    assert Replay([p1]) == Stock(100.0, 1000.0);
    assert Replay([p1, p2]) == Stock(150.0, 1600.0);
  }

  // ---------------------------------------------------------------------------
  // When the dates are all different, the order of the input does not matter

  /** No two different movements of the bag share a date. */
  predicate UniqueDates(bag: multiset<Movement>) {
    forall x, y :: x in bag && y in bag && x.date == y.date ==> x == y
  }

  lemma SortedHeadsAgree(a: seq<Movement>, b: seq<Movement>)
    requires SortedByDate(a) && SortedByDate(b) && a != []
    requires multiset(a) == multiset(b) && UniqueDates(multiset(a))
    ensures b != [] && a[0] == b[0]
  {
    assert a[0] in multiset(b);
    var j :| 0 <= j < |b| && b[j] == a[0];
    assert b[0] in multiset(a);
    var k :| 0 <= k < |a| && a[k] == b[0];
    assert NotAfter(b[0].date, a[0].date) by { if j > 0 { assert NotAfter(b[0].date, b[j].date); } }
    assert NotAfter(a[0].date, b[0].date) by { if k > 0 { assert NotAfter(a[0].date, a[k].date); } }
    assert a[0].date == b[0].date;
  }

  lemma TailStaysSorted(a: seq<Movement>)
    requires SortedByDate(a) && a != []
    ensures SortedByDate(a[1..])
  {
    forall i, j | 0 <= i < j < |a| - 1 ensures NotAfter(a[1..][i].date, a[1..][j].date) {
      assert a[1..][i] == a[i + 1] && a[1..][j] == a[j + 1];
    }
  }

  lemma UniqueDatesShrink(small: multiset<Movement>, big: multiset<Movement>)
    requires small <= big && UniqueDates(big)
    ensures UniqueDates(small)
  {
  }

  lemma {:induction false} SortedPermutationsAgree(a: seq<Movement>, b: seq<Movement>)
    requires SortedByDate(a) && SortedByDate(b)
    requires multiset(a) == multiset(b) && UniqueDates(multiset(a))
    ensures a == b
  {
    if a == [] {
      assert |b| == |multiset(b)|;
    } else {
      SortedHeadsAgree(a, b);
      TailStaysSorted(a);
      TailStaysSorted(b);
      TailsPermute(a, b);
      UniqueDatesShrink(multiset(a[1..]), multiset(a));
      SortedPermutationsAgree(a[1..], b[1..]);
      SameHeadAndTail(a, b);
    }
  }

  lemma TailsPermute(a: seq<Movement>, b: seq<Movement>)
    requires a != [] && b != [] && a[0] == b[0] && multiset(a) == multiset(b)
    ensures multiset(a[1..]) <= multiset(a) && multiset(a[1..]) == multiset(b[1..])
  {
    assert a == [a[0]] + a[1..] && b == [b[0]] + b[1..];
  }

  lemma SameHeadAndTail(a: seq<Movement>, b: seq<Movement>)
    requires a != [] && b != [] && a[0] == b[0] && a[1..] == b[1..]
    ensures a == b
  {
    assert a == [a[0]] + a[1..] && b == [b[0]] + b[1..];
  }

  /** With all dates distinct, reordering the input does not change the summary. */
  lemma OrderOfInputIrrelevant(a: seq<Movement>, b: seq<Movement>)
    requires multiset(a) == multiset(b) && UniqueDates(multiset(a))
    ensures Summarize(Replay(SortByDate(a))) == Summarize(Replay(SortByDate(b)))
  {
    SortedPermutationsAgree(SortByDate(a), SortByDate(b));
  }
}
