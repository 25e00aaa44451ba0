/**
 * `GET /api/transactions`: one account's ledger between two optional dates.
 * The opening balance is the account's signed opening plus every transaction
 * the pre-query matches: those dated before `from`, and every transaction of
 * the account when `from` is absent. The rows in the window are run from that
 * opening and bucketed by day or month.
 */
module TransactionsRoute {
  import opened Wrappers
  import opened Dates
  import opened Ledger

  /** The fields of a stored account the route reads; both may be missing. */
  datatype Account = Account(openingBalance: Option<real>, openingIsDebit: Option<bool>)

  /** `Number(openingBalance || 0) * (openingIsDebit ? 1 : -1)`: a missing flag counts as credit. */
  function SignedOpening(acc: Account): (r: real)
    ensures acc.openingIsDebit == Some(true) ==> r == Amount(acc.openingBalance)
    ensures acc.openingIsDebit != Some(true) ==> r == -Amount(acc.openingBalance)
  {
    Amount(acc.openingBalance) * (if acc.openingIsDebit == Some(true) then 1.0 else -1.0)
  }

  /** `preMatch.date = { $lt: fromDate }` when `from` is given. */
  function PreWindow(fromDate: Option<Date>): (w: Window)
    ensures forall d :: InWindow(w, d) <==> (fromDate.Some? ==> Before(d, fromDate.value))
  {
    Window(fromDate, None, None)
  }

  /** `rangeMatch.date = { $gte: fromDate, $lte: toDate }`, each bound only when given. */
  function RangeWindow(fromDate: Option<Date>, toDate: Option<Date>): (w: Window)
    ensures forall d :: InWindow(w, d) <==>
                          (fromDate.Some? ==> NotAfter(fromDate.value, d)) && (toDate.Some? ==> NotAfter(d, toDate.value))
  {
    Window(None, fromDate, toDate)
  }

  /** The transactions matching a date condition, in the order the query returns them. */
  function Select(txs: seq<Tx>, w: Window): (r: seq<Tx>)
    ensures |r| <= |txs|
  {
    if txs == [] then []
    else
      var init, last := txs[..|txs| - 1], txs[|txs| - 1];
      assert txs == init + [last];
      Select(init, w) + (if InWindow(w, last.date) then [last] else [])
  }

  /** The query keeps exactly the transactions whose date the condition accepts. */
  lemma {:induction false} SelectKeepsMatches(txs: seq<Tx>, w: Window)
    ensures forall t :: t in Select(txs, w) <==> t in txs && InWindow(w, t.date)
  {
    if txs != [] {
      var init, last := txs[..|txs| - 1], txs[|txs| - 1];
      SelectKeepsMatches(init, w);
      assert txs == init + [last];
    }
  }

  /** The query keeps the order of the transactions it returns. */
  lemma {:induction false} SelectKeepsOrder(txs: seq<Tx>, w: Window, i: nat, j: nat)
    requires i < j < |Select(txs, w)|
    ensures exists a, b :: 0 <= a < b < |txs| && txs[a] == Select(txs, w)[i] && txs[b] == Select(txs, w)[j]
  {
    var init, last := txs[..|txs| - 1], txs[|txs| - 1];
    var r0 := Select(init, w);
    if j < |r0| {
      SelectKeepsOrder(init, w, i, j);
      var a, b :| 0 <= a < b < |init| && init[a] == r0[i] && init[b] == r0[j];
      assert txs[a] == init[a] && txs[b] == init[b];
    } else {
      SelectKeepsMatches(init, w);
      assert r0[i] in r0;
      var a :| 0 <= a < |init| && init[a] == r0[i];
      assert txs[a] == init[a] && txs[|txs| - 1] == Select(txs, w)[j];
    }
  }

  /** Dates never decrease along the sequence: the query's `sort({ date: 1, _id: 1 })`. */
  predicate Chronological(txs: seq<Tx>) {
    forall i, j :: 0 <= i < j < |txs| ==> NotAfter(txs[i].date, txs[j].date)
  }

  /**
   * The opening as the route computes it: the pre-query matches everything
   * when `from` is absent, so the whole history is then in the opening.
   */
  function OpeningAsWritten(acc: Account, history: seq<Tx>, fromDate: Option<Date>): (r: real)
    ensures fromDate.None? ==> r == SignedOpening(acc) + Net(history)
  {
    SelectUnbounded(history);
    SignedOpening(acc) + Net(Select(history, PreWindow(fromDate)))
  }

  /** The transactions that belong in the opening: those strictly before `from`, and none without it. */
  function PreRows(history: seq<Tx>, fromDate: Option<Date>): (r: seq<Tx>)
  {
    if fromDate.None? then [] else Select(history, PreWindow(fromDate))
  }

  /**
   * The opening balance as intended: the signed opening plus the net of every
   * transaction before the window. It agrees with the route whenever `from`
   * is given, and is the signed opening alone when it is not.
   */
  function Opening(acc: Account, history: seq<Tx>, fromDate: Option<Date>): (r: real)
    ensures fromDate.None? ==> r == SignedOpening(acc)
    ensures fromDate.Some? ==> r == OpeningAsWritten(acc, history, fromDate)
  {
    SignedOpening(acc) + Net(PreRows(history, fromDate))
  }

  /** `(searchParams.get('period') as Period) || 'day'` */
  function PeriodOf(param: Option<string>): (p: string)
    ensures p == "day" <==> param.None? || param.value in {"", "day"}
    ensures param.Some? && param.value != "" ==> p == param.value
  {
    if param.None? || param.value == "" then "day" else param.value
  }

  /**
   * `GET`. `isValid` stands for `ObjectId.isValid`, `account` for what
   * `findById` returns, `history` for the account's transactions in
   * (date, _id) order and `parseDate` for `new Date(text)`.
   */
  method Get(accountId: Option<string>, isValid: string -> bool, account: Option<Account>, history: seq<Tx>,
             from: Option<string>, to: Option<string>, periodParam: Option<string>, parseDate: string -> Date)
    returns (res: LedgerSummary)
    ensures
      var id, period := accountId.GetOr(""), PeriodOf(periodParam);
      var fromDate := if from.GetOr("") == "" then None else Some(parseDate(from.value));
      var toDate := if to.GetOr("") == "" then None else Some(parseDate(to.value));
      if id == "" || !isValid(id) || account.None? then
        res == LedgerSummary(0.0, [], Totals(period, []))
      else
        && res.opening == OpeningAsWritten(account.value, history, fromDate)
        && res.rows == RunningRows(Select(history, RangeWindow(fromDate, toDate)), res.opening)
        && res.totals == GroupSpec(res.rows, period)
        // without `from` the opening already holds every transaction of the account
        && (fromDate.None? ==> res.opening == SignedOpening(account.value) + Net(history))
        // with `from`, the account's whole ledger up to `to` is the ledger before `from` followed by these rows
        && (fromDate.Some? && Chronological(history) && (toDate.None? || NotAfter(fromDate.value, toDate.value)) ==>
              RunningRows(Select(history, RangeWindow(None, toDate)), SignedOpening(account.value))
              == RunningRows(PreRows(history, fromDate), SignedOpening(account.value)) + res.rows)
  {
    var id := accountId.GetOr("");
    var fromText := from.GetOr("");
    var toText := to.GetOr("");
    var period := PeriodOf(periodParam);

    if id == "" || !isValid(id) || account.None? {
      return LedgerSummary(0.0, [], Totals(period, []));
    }
    var acc := account.value;

    var fromDate: Option<Date> := if fromText != "" then Some(parseDate(fromText)) else None;
    var toDate: Option<Date> := if toText != "" then Some(parseDate(toText)) else None;

    var signedOpening := SignedOpening(acc);
    var preRows := Select(history, PreWindow(fromDate));
    var opening := signedOpening + Net(preRows);

    var rangeMatch := Window(None, None, None);
    if fromDate.Some? || toDate.Some? {
      var dateCond := Window(None, None, None);
      if fromDate.Some? { dateCond := dateCond.(gte := fromDate); }
      if toDate.Some? { dateCond := dateCond.(lte := toDate); }
      rangeMatch := dateCond;
    }
    assert rangeMatch == RangeWindow(fromDate, toDate);
    var rows := Select(history, rangeMatch);

    var running := ComputeRunning(rows, opening);
    var totals := GroupTotals(running, period);
    res := LedgerSummary(opening, running, totals);

    if fromDate.Some? && Chronological(history) && (toDate.None? || NotAfter(fromDate.value, toDate.value)) {
      ShownRowsAreHistoryTail(acc, history, fromDate, toDate);
    }
  }

  // ---------------------------------------------------------------------------
  // What the window and the opening mean together

  lemma ChronologicalPrefix(txs: seq<Tx>, n: nat)
    requires Chronological(txs) && n <= |txs|
    ensures Chronological(txs[..n])
  {
  }

  /** Nothing dated before `from` lies in a window starting at `from`. */
  lemma {:induction false} NothingBeforeInRange(txs: seq<Tx>, f: Date, toDate: Option<Date>)
    requires forall i :: 0 <= i < |txs| ==> Before(txs[i].date, f)
    ensures Select(txs, RangeWindow(Some(f), toDate)) == []
  {
    if txs != [] {
      NothingBeforeInRange(txs[..|txs| - 1], f, toDate);
    }
  }

  /**
   * In a chronological history, what lies before `from` followed by what lies
   * in [from, to] is everything up to `to`.
   */
  lemma {:induction false} PreThenRange(txs: seq<Tx>, f: Date, toDate: Option<Date>)
    requires Chronological(txs)
    requires toDate.None? || NotAfter(f, toDate.value)
    ensures Select(txs, PreWindow(Some(f))) + Select(txs, RangeWindow(Some(f), toDate))
         == Select(txs, RangeWindow(None, toDate))
  {
    if txs != [] {
      var pre, range, upTo := PreWindow(Some(f)), RangeWindow(Some(f), toDate), RangeWindow(None, toDate);
      var init, x := txs[..|txs| - 1], txs[|txs| - 1];
      ChronologicalPrefix(txs, |txs| - 1);
      PreThenRange(init, f, toDate);
      var p0, r0, u0 := Select(init, pre), Select(init, range), Select(init, upTo);
      assert p0 + r0 == u0;
      if Before(x.date, f) {
        forall i | 0 <= i < |init| ensures Before(init[i].date, f) {
          assert NotAfter(txs[i].date, x.date);
        }
        NothingBeforeInRange(init, f, toDate);
        assert InWindow(pre, x.date) && !InWindow(range, x.date) && InWindow(upTo, x.date);
        assert Select(txs, pre) == p0 + [x];
        assert Select(txs, range) == [];
        assert Select(txs, upTo) == u0 + [x];
      } else {
        assert !InWindow(pre, x.date) && (InWindow(range, x.date) <==> InWindow(upTo, x.date));
        assert Select(txs, pre) == p0;
      }
    }
  }

  /**
   * For a chronological history and `from` not after `to`: the account's
   * ledger up to `to`, run from its signed opening, is the ledger of what lies
   * before the window followed by exactly the rows the window shows.
   */
  lemma ShownRowsAreHistoryTail(acc: Account, history: seq<Tx>, fromDate: Option<Date>, toDate: Option<Date>)
    requires Chronological(history)
    requires fromDate.None? || toDate.None? || NotAfter(fromDate.value, toDate.value)
    ensures RunningRows(Select(history, RangeWindow(None, toDate)), SignedOpening(acc))
         == RunningRows(PreRows(history, fromDate), SignedOpening(acc))
            + RunningRows(Select(history, RangeWindow(fromDate, toDate)), Opening(acc, history, fromDate))
  {
    var pre, range := PreRows(history, fromDate), Select(history, RangeWindow(fromDate, toDate));
    HistorySplit(history, fromDate, toDate);
    RunTail(pre, range, Select(history, RangeWindow(None, toDate)), SignedOpening(acc), Opening(acc, history, fromDate));
  }

  /** Running a sequence split in two: the second part runs from where the first one ends. */
  lemma RunTail(pre: seq<Tx>, range: seq<Tx>, whole: seq<Tx>, signed: real, opening: real)
    requires pre + range == whole && opening == signed + Net(pre)
    ensures RunningRows(whole, signed) == RunningRows(pre, signed) + RunningRows(range, opening)
  {
    RunningSplit(pre, range, signed);
  }

  /** The rows before the window followed by the rows in it are all the rows up to `to`. */
  lemma HistorySplit(history: seq<Tx>, fromDate: Option<Date>, toDate: Option<Date>)
    requires Chronological(history)
    requires fromDate.None? || toDate.None? || NotAfter(fromDate.value, toDate.value)
    ensures PreRows(history, fromDate) + Select(history, RangeWindow(fromDate, toDate))
         == Select(history, RangeWindow(None, toDate))
  {
    if fromDate.Some? {
      PreThenRange(history, fromDate.value, toDate);
    } else {
      assert PreRows(history, fromDate) == [];
    }
  }

  /**
   * As written, a request without `from` counts every transaction in the
   * opening and then again in the rows: one debit of 100 on an account
   * opening at 0 shows a balance of 200 instead of 100.
   */
  lemma OpeningAsWrittenCountsTwice()
    ensures
      var acc := Account(Some(0.0), Some(true));
      var history := [Tx(Date(2024, 1, 1, 0), None, None, Some(100.0), None, None)];
      var shown := Select(history, RangeWindow(None, None));
      && OpeningAsWritten(acc, history, None) == 100.0
      && RunningRows(shown, OpeningAsWritten(acc, history, None))[0].runningBalance == 200.0
      && RunningRows(shown, Opening(acc, history, None))[0].runningBalance == 100.0
  {
    var t := Tx(Date(2024, 1, 1, 0), None, None, Some(100.0), None, None);
    OneTransaction(t, 0.0);
    OneTransaction(t, 100.0);
  }

  /** With no bound at all, a window keeps every transaction in order. */
  lemma {:induction false} SelectUnbounded(txs: seq<Tx>)
    ensures Select(txs, PreWindow(None)) == txs
    ensures Select(txs, RangeWindow(None, None)) == txs
  {
    if txs != [] {
      var init := txs[..|txs| - 1];
      SelectUnbounded(init);
      assert txs == init + [txs[|txs| - 1]];
    }
  }

  /**
   * As written, a request with neither `from` nor `to` counts every
   * transaction twice: the last shown balance is the signed opening plus twice
   * the net of the history, where the corrected opening ends it at the signed
   * opening plus that net once.
   */
  lemma OpeningAsWrittenDoubleCounts(acc: Account, history: seq<Tx>)
    requires history != []
    ensures
      var shown, last := Select(history, RangeWindow(None, None)), |history| - 1;
      && shown == history
      && OpeningAsWritten(acc, history, None) == SignedOpening(acc) + Net(history)
      && RunningRows(shown, OpeningAsWritten(acc, history, None))[last].runningBalance
         == SignedOpening(acc) + Net(history) + Net(history)
      && RunningRows(shown, Opening(acc, history, None))[last].runningBalance == SignedOpening(acc) + Net(history)
  {
    SelectUnbounded(history);
    LastBalance(history, OpeningAsWritten(acc, history, None));
    LastBalance(history, Opening(acc, history, None));
  }

  /** The last running balance is the opening plus the net of every row. */
  lemma LastBalance(txs: seq<Tx>, opening: real)
    requires txs != []
    ensures RunningRows(txs, opening)[|txs| - 1].runningBalance == opening + Net(txs)
  {
    RunningAt(txs, opening, |txs| - 1);
    assert txs[..|txs|] == txs;
  }

  /** A history of one transaction: every window without bounds keeps it, and its row carries its net. */
  lemma OneTransaction(t: Tx, opening: real)
    ensures Select([t], PreWindow(None)) == [t] && Select([t], RangeWindow(None, None)) == [t]
    ensures Net([t]) == TxNet(t)
    ensures RunningRows([t], opening) == [WithBalance(t, opening + TxNet(t))]
  {
    assert [t][..0] == [];
  }
}
