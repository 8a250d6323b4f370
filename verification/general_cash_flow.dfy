/** The consolidated cash-flow page: the business and personal ledgers of a
    month side by side, and the archived monthly reports of both merged by month. */
module GeneralCashFlow {
  import opened Wrappers
  import opened Text
  import opened Ledger

  /** An archived month. Amounts are in cents. */
  datatype MonthlyReport = MonthlyReport(
    month: string,
    transactions: seq<Transaction>,
    totalIncome: int,
    totalExpense: int,
    netProfit: int)

  // ---- choosing what to show for the selected month

  /** The first report of month `m`, if any. */
  function FindReport(reports: seq<MonthlyReport>, m: string): (r: Option<MonthlyReport>)
    ensures r.None? <==> forall i :: 0 <= i < |reports| ==> reports[i].month != m
    ensures r.Some? ==> exists k :: (0 <= k < |reports| && reports[k] == r.value && reports[k].month == m
      && forall j :: 0 <= j < k ==> reports[j].month != m)
  {
    if |reports| == 0 then None
    else if reports[0].month == m then Some(reports[0])
    else
      var r := FindReport(reports[1..], m);
      if r.Some? then
        var k :| 0 <= k < |reports[1..]| && reports[1..][k] == r.value && reports[1..][k].month == m
          && forall j :: 0 <= j < k ==> reports[1..][j].month != m;
        assert reports[k + 1] == r.value;
        r
      else r
  }

  /** `currentBusinessTxs` / `currentPersonalTxs`: the live list for the current
      month, otherwise the first archived report of the selected month, or nothing. */
  function SelectedTransactions(live: seq<Transaction>, reports: seq<MonthlyReport>,
                                selectedMonth: string, currentMonth: string): (txs: seq<Transaction>)
    ensures selectedMonth == currentMonth ==> txs == live
    ensures selectedMonth != currentMonth && (forall i :: 0 <= i < |reports| ==> reports[i].month != selectedMonth)
      ==> txs == []
    ensures selectedMonth != currentMonth ==> forall k ::
      (0 <= k < |reports| && reports[k].month == selectedMonth
       && (forall j :: 0 <= j < k ==> reports[j].month != selectedMonth)) ==> txs == reports[k].transactions
  {
    if selectedMonth == currentMonth then live
    else
      match FindReport(reports, selectedMonth)
      case Some(r) => r.transactions
      case None => []
  }

  /** `combinedTransactions`: both ledgers together, ordered by date. */
  function CombinedView(business: seq<Transaction>, personal: seq<Transaction>): (r: seq<Transaction>)
    ensures SortedByDate(r)
    ensures multiset(r) == multiset(business + personal)
  {
    SortByDate(business + personal)
  }

  // ---- merging the monthly reports of both ledgers

  /** A second report for a month already seen: transactions appended and re-sorted, figures summed. */
  function Combine(existing: MonthlyReport, report: MonthlyReport): MonthlyReport
  {
    MonthlyReport(existing.month,
      SortByDate(existing.transactions + report.transactions),
      existing.totalIncome + report.totalIncome,
      existing.totalExpense + report.totalExpense,
      existing.netProfit + report.netProfit)
  }

  /** The position of the entry for month `m`, if any. */
  function IndexOfMonth(acc: seq<MonthlyReport>, m: string): (r: Option<nat>)
    ensures r.None? <==> forall i :: 0 <= i < |acc| ==> acc[i].month != m
    ensures r.Some? ==> r.value < |acc| && acc[r.value].month == m
  {
    if |acc| == 0 then None
    else if acc[0].month == m then Some(0)
    else match IndexOfMonth(acc[1..], m)
      case Some(k) => Some(k + 1)
      case None => None
  }

  /** One step of the `forEach` over the combined report list. */
  function MergeInto(acc: seq<MonthlyReport>, report: MonthlyReport): seq<MonthlyReport>
  {
    match IndexOfMonth(acc, report.month)
    case Some(k) => acc[k := Combine(acc[k], report)]
    case None => acc + [report]
  }

  /** The merged reports, one per month in order of first appearance, after
      folding every report in from left to right. */
  function MergeReports(reports: seq<MonthlyReport>): seq<MonthlyReport>
  {
    if |reports| == 0 then []
    else MergeInto(MergeReports(reports[..|reports| - 1]), reports[|reports| - 1])
  }

  // Reference definitions over the input list, each written independently of the merge.

  function MonthsOf(reports: seq<MonthlyReport>): (ms: seq<string>)
    ensures |ms| == |reports| && forall i :: 0 <= i < |reports| ==> ms[i] == reports[i].month
  {
    seq(|reports|, i requires 0 <= i < |reports| => reports[i].month)
  }

  /** The distinct elements of `xs` in order of first appearance. */
  function FirstAppearances(xs: seq<string>): (r: seq<string>)
    ensures forall i, j :: 0 <= i < j < |r| ==> r[i] != r[j]
    ensures forall y :: y in r <==> y in xs
  {
    if |xs| == 0 then []
    else
      var front := FirstAppearances(xs[..|xs| - 1]);
      var x := xs[|xs| - 1];
      assert forall y :: y in xs <==> y in xs[..|xs| - 1] || y == x by {
        assert xs == xs[..|xs| - 1] + [x];
      }
      if x in front then front else front + [x]
  }

  /** The position of the first occurrence of `y` in `xs`. */
  function FirstIndex(xs: seq<string>, y: string): (k: nat)
    requires y in xs
    ensures k < |xs| && xs[k] == y
    ensures forall j :: 0 <= j < k ==> xs[j] != y
  {
    if xs[0] == y then 0 else 1 + FirstIndex(xs[1..], y)
  }

  /** Appending an element does not move the first occurrence of anything already present. */
  lemma FirstIndexAppend(xs: seq<string>, x: string, y: string)
    requires y in xs
    ensures FirstIndex(xs + [x], y) == FirstIndex(xs, y)
  {
    var k1, k2 := FirstIndex(xs + [x], y), FirstIndex(xs, y);
    assert (xs + [x])[k2] == y;
  }

  /** Every pair of elements of `r` found in `xs` first occurs in `xs` in the order of `r`. */
  ghost predicate InFirstOccurrenceOrder(xs: seq<string>, r: seq<string>) {
    forall i, j :: 0 <= i < j < |r| && r[i] in xs && r[j] in xs ==>
      FirstIndex(xs, r[i]) < FirstIndex(xs, r[j])
  }

  /** Two elements already present keep their order of first occurrence after an append. */
  lemma OldPairAfterAppend(pre: seq<string>, x: string, a: string, b: string)
    requires a in pre && b in pre && FirstIndex(pre, a) < FirstIndex(pre, b)
    ensures FirstIndex(pre + [x], a) < FirstIndex(pre + [x], b)
  {
    FirstIndexAppend(pre, x, a);
    FirstIndexAppend(pre, x, b);
  }

  /** A new element first occurs after everything already present. */
  lemma NewLastAfterAppend(pre: seq<string>, x: string, a: string)
    requires a in pre && x !in pre
    ensures FirstIndex(pre + [x], a) < FirstIndex(pre + [x], x)
  {
    FirstIndexAppend(pre, x, a);
  }

  /** `FirstAppearances` lists the distinct elements in the order in which
      each first occurs in the input. */
  lemma {:induction false} FirstAppearancesOrdered(xs: seq<string>)
    ensures InFirstOccurrenceOrder(xs, FirstAppearances(xs))
  {
    if |xs| > 0 {
      var pre, x := xs[..|xs| - 1], xs[|xs| - 1];
      assert xs == pre + [x];
      var front := FirstAppearances(pre);
      var r := FirstAppearances(xs);
      FirstAppearancesOrdered(pre);
      assert r == if x in front then front else front + [x];
      forall i, j | 0 <= i < j < |r| && r[i] in xs && r[j] in xs
        ensures FirstIndex(xs, r[i]) < FirstIndex(xs, r[j])
      {
        assert r[i] == front[i] && front[i] in pre;
        if j < |front| {
          assert r[j] == front[j] && front[j] in pre;
          assert FirstIndex(pre, front[i]) < FirstIndex(pre, front[j]);
          OldPairAfterAppend(pre, x, front[i], front[j]);
        } else {
          NewLastAfterAppend(pre, x, front[i]);
        }
      }
    }
  }

  ghost predicate HasMonth(reports: seq<MonthlyReport>, m: string)
  {
    exists i :: 0 <= i < |reports| && reports[i].month == m
  }

  /** How many input reports are for month `m`. */
  function CountFor(reports: seq<MonthlyReport>, m: string): nat
  {
    if |reports| == 0 then 0
    else CountFor(reports[..|reports| - 1], m) + (if reports[|reports| - 1].month == m then 1 else 0)
  }

  /** The sum of field `f` over the input reports for month `m`. */
  function SumFor(reports: seq<MonthlyReport>, m: string, f: MonthlyReport -> int): int
  {
    if |reports| == 0 then 0
    else
      var last := reports[|reports| - 1];
      SumFor(reports[..|reports| - 1], m, f) + (if last.month == m then f(last) else 0)
  }

  /** The transactions of the input reports for month `m`, concatenated in input order. */
  function TxsFor(reports: seq<MonthlyReport>, m: string): seq<Transaction>
  {
    if |reports| == 0 then []
    else
      var last := reports[|reports| - 1];
      TxsFor(reports[..|reports| - 1], m) + (if last.month == m then last.transactions else [])
  }

  function ReportIncome(r: MonthlyReport): int { r.totalIncome }
  function ReportExpense(r: MonthlyReport): int { r.totalExpense }
  function ReportNet(r: MonthlyReport): int { r.netProfit }

  /** What one merged entry must be, given the input reports. */
  ghost predicate MergedEntry(reports: seq<MonthlyReport>, e: MonthlyReport)
  {
    && e.totalIncome == SumFor(reports, e.month, ReportIncome)
    && e.totalExpense == SumFor(reports, e.month, ReportExpense)
    && e.netProfit == SumFor(reports, e.month, ReportNet)
    && multiset(e.transactions) == multiset(TxsFor(reports, e.month))
    && (CountFor(reports, e.month) == 1 ==> e.transactions == TxsFor(reports, e.month))
    && (CountFor(reports, e.month) >= 2 ==> SortedByDate(e.transactions))
  }

  ghost predicate MergeSpec(reports: seq<MonthlyReport>, out: seq<MonthlyReport>)
  {
    && MonthsOf(out) == FirstAppearances(MonthsOf(reports))
    && forall i :: 0 <= i < |out| ==> MergedEntry(reports, out[i])
  }

  /** A month absent from the input contributes nothing. */
  lemma {:induction false} AbsentMonth(reports: seq<MonthlyReport>, m: string)
    requires !HasMonth(reports, m)
    ensures CountFor(reports, m) == 0
    ensures SumFor(reports, m, ReportIncome) == 0 && SumFor(reports, m, ReportExpense) == 0 && SumFor(reports, m, ReportNet) == 0
    ensures TxsFor(reports, m) == []
  {
    if |reports| > 0 {
      var pre := reports[..|reports| - 1];
      assert !HasMonth(pre, m) by {
        assert forall i :: 0 <= i < |pre| ==> pre[i] == reports[i];
      }
      AbsentMonth(pre, m);
    }
  }

  lemma {:induction false} PresentMonth(reports: seq<MonthlyReport>, m: string)
    requires HasMonth(reports, m)
    ensures CountFor(reports, m) >= 1
  {
    var n := |reports|;
    if reports[n - 1].month != m {
      var pre := reports[..n - 1];
      var i :| 0 <= i < n && reports[i].month == m;
      assert pre[i] == reports[i];
      PresentMonth(pre, m);
    }
  }

  /** The months of the input, as positions in its months list. */
  lemma HasMonthIff(reports: seq<MonthlyReport>, m: string)
    ensures HasMonth(reports, m) <==> m in MonthsOf(reports)
  {
    if m in MonthsOf(reports) {
      var i :| 0 <= i < |reports| && MonthsOf(reports)[i] == m;
    }
  }

  /** An entry for another month is unaffected by one more input report. */
  lemma OtherMonthEntry(pre: seq<MonthlyReport>, last: MonthlyReport, e: MonthlyReport)
    requires MergedEntry(pre, e) && e.month != last.month
    ensures MergedEntry(pre + [last], e)
  {
    assert (pre + [last])[..|pre|] == pre;
  }

  /** A report for a new month is, on its own, that month's merged entry. */
  lemma NewMonthEntry(pre: seq<MonthlyReport>, last: MonthlyReport)
    requires !HasMonth(pre, last.month)
    ensures MergedEntry(pre + [last], last)
  {
    assert (pre + [last])[..|pre|] == pre;
    AbsentMonth(pre, last.month);
  }

  /** Folding a report into the entry of its month gives the merged entry of the longer input. */
  lemma CombinedEntry(pre: seq<MonthlyReport>, last: MonthlyReport, e: MonthlyReport)
    requires MergedEntry(pre, e) && e.month == last.month && HasMonth(pre, last.month)
    ensures MergedEntry(pre + [last], Combine(e, last))
  {
    assert (pre + [last])[..|pre|] == pre;
    PresentMonth(pre, last.month);
    assert TxsFor(pre + [last], last.month) == TxsFor(pre, last.month) + last.transactions;
  }

  /** Merging a report whose month is new appends it as is. */
  lemma MergeNewMonth(pre: seq<MonthlyReport>, acc: seq<MonthlyReport>, last: MonthlyReport)
    requires MergeSpec(pre, acc)
    requires forall i :: 0 <= i < |acc| ==> acc[i].month != last.month
    ensures MergeSpec(pre + [last], acc + [last])
  {
    var rs := pre + [last];
    var out := acc + [last];
    assert !HasMonth(pre, last.month) by {
      HasMonthIff(pre, last.month);
      assert last.month !in MonthsOf(acc);
    }
    assert MonthsOf(rs) == MonthsOf(pre) + [last.month];
    assert MonthsOf(rs)[..|rs| - 1] == MonthsOf(pre);
    assert MonthsOf(out) == MonthsOf(acc) + [last.month];
    forall i | 0 <= i < |out| ensures MergedEntry(rs, out[i]) {
      if i < |acc| {
        OtherMonthEntry(pre, last, acc[i]);
      } else {
        NewMonthEntry(pre, last);
      }
    }
  }

  /** Merging a report into the entry of its month sums the figures and merges the transactions. */
  lemma MergeKnownMonth(pre: seq<MonthlyReport>, acc: seq<MonthlyReport>, last: MonthlyReport, k: nat)
    requires MergeSpec(pre, acc)
    requires k < |acc| && acc[k].month == last.month
    ensures MergeSpec(pre + [last], acc[k := Combine(acc[k], last)])
  {
    var rs := pre + [last];
    var out := acc[k := Combine(acc[k], last)];
    assert MonthsOf(rs)[..|rs| - 1] == MonthsOf(pre);
    assert MonthsOf(out) == MonthsOf(acc);
    assert HasMonth(pre, last.month) by {
      HasMonthIff(pre, last.month);
      assert MonthsOf(acc)[k] == last.month;
    }
    forall i | 0 <= i < |out| ensures MergedEntry(rs, out[i]) {
      if i != k {
        assert MonthsOf(acc)[i] != MonthsOf(acc)[k];
        OtherMonthEntry(pre, last, acc[i]);
      } else {
        CombinedEntry(pre, last, acc[k]);
      }
    }
  }

  /** The merge has one entry per distinct month, in order of first appearance;
      each entry's figures are the sums over that month's input reports; its
      transactions are that month's transactions, exactly as given when only one
      report has the month and re-sorted by date as soon as a second merges in. */
  lemma {:induction false} MergeReportsCorrect(reports: seq<MonthlyReport>)
    ensures MergeSpec(reports, MergeReports(reports))
  {
    if |reports| > 0 {
      var pre := reports[..|reports| - 1];
      var last := reports[|reports| - 1];
      assert reports == pre + [last];
      MergeReportsCorrect(pre);
      var acc := MergeReports(pre);
      match IndexOfMonth(acc, last.month)
      case Some(k) => MergeKnownMonth(pre, acc, last, k);
      case None => MergeNewMonth(pre, acc, last);
    }
  }

  /** A merged entry keeps `netProfit == totalIncome - totalExpense` when every input report does. */
  lemma {:induction false} MergedNetConsistent(reports: seq<MonthlyReport>, m: string)
    requires forall i :: 0 <= i < |reports| ==> reports[i].netProfit == reports[i].totalIncome - reports[i].totalExpense
    ensures SumFor(reports, m, ReportNet) == SumFor(reports, m, ReportIncome) - SumFor(reports, m, ReportExpense)
  {
    if |reports| > 0 {
      MergedNetConsistent(reports[..|reports| - 1], m);
    }
  }

  /** `uniqueMonths`: the merged months, latest first, without duplicates. */
  function UniqueMonths(merged: seq<MonthlyReport>): (r: seq<string>)
    ensures StrictlyDescending(r)
    ensures forall m :: m in r <==> exists i :: 0 <= i < |merged| && merged[i].month == m
  {
    var ms := MonthsOf(merged);
    assert forall m :: m in ms <==> exists i :: 0 <= i < |merged| && merged[i].month == m by {
      forall m ensures m in ms <==> exists i :: 0 <= i < |merged| && merged[i].month == m {
        if m in ms {
          var i :| 0 <= i < |ms| && ms[i] == m;
        }
      }
    }
    DistinctDescending(ms)
  }

  // ---- the cards

  datatype Consolidated = Consolidated(
    businessIncome: int, businessExpense: int,
    personalIncome: int, personalExpense: int,
    totalIncome: int, totalExpense: int, netProfit: int)

  /** Per-ledger income and expense of the selected month, and their sums. */
  function Consolidate(business: seq<Transaction>, personal: seq<Transaction>): (c: Consolidated)
    ensures c.businessIncome == TotalIncome(business) && c.businessExpense == TotalExpense(business)
    ensures c.personalIncome == TotalIncome(personal) && c.personalExpense == TotalExpense(personal)
    ensures c.totalIncome == c.businessIncome + c.personalIncome
    ensures c.totalExpense == c.businessExpense + c.personalExpense
    ensures c.netProfit == c.totalIncome - c.totalExpense
    ensures c.netProfit == Net(business) + Net(personal)
  {
    var bi, be := TotalIncome(business), TotalExpense(business);
    var pi, pe := TotalIncome(personal), TotalExpense(personal);
    Consolidated(bi, be, pi, pe, bi + pi, be + pe, (bi + pi) - (be + pe))
  }

  /** The consolidated cards agree with the combined table they sit above. */
  lemma {:induction false} ConsolidatedMatchesCombinedView(business: seq<Transaction>, personal: seq<Transaction>)
    ensures var c := Consolidate(business, personal);
      var view := CombinedView(business, personal);
      c.totalIncome == TotalIncome(view) && c.totalExpense == TotalExpense(view) && c.netProfit == Net(view)
  {
    SortByDateTotals(business + personal, Income);
    SortByDateTotals(business + personal, Expense);
    KindTotalConcat(business, personal, Income);
    KindTotalConcat(business, personal, Expense);
  }

  // ---- the cards of the selected month, as the page computes them and as intended

  /** The cards computed from the lists the table is built from. */
  function Cards(businessLive: seq<Transaction>, personalLive: seq<Transaction>,
                 businessReports: seq<MonthlyReport>, personalReports: seq<MonthlyReport>,
                 selectedMonth: string, currentMonth: string): Consolidated
  {
    Consolidate(SelectedTransactions(businessLive, businessReports, selectedMonth, currentMonth),
                SelectedTransactions(personalLive, personalReports, selectedMonth, currentMonth))
  }

  /** The table of the selected month: both selected lists, ordered by date. */
  function Table(businessLive: seq<Transaction>, personalLive: seq<Transaction>,
                 businessReports: seq<MonthlyReport>, personalReports: seq<MonthlyReport>,
                 selectedMonth: string, currentMonth: string): seq<Transaction>
  {
    CombinedView(SelectedTransactions(businessLive, businessReports, selectedMonth, currentMonth),
                 SelectedTransactions(personalLive, personalReports, selectedMonth, currentMonth))
  }

  /** Intended behaviour: the cards always agree with the table below them. */
  lemma CardsMatchTable(businessLive: seq<Transaction>, personalLive: seq<Transaction>,
                        businessReports: seq<MonthlyReport>, personalReports: seq<MonthlyReport>,
                        selectedMonth: string, currentMonth: string)
    ensures var c := Cards(businessLive, personalLive, businessReports, personalReports, selectedMonth, currentMonth);
      var view := Table(businessLive, personalLive, businessReports, personalReports, selectedMonth, currentMonth);
      c.totalIncome == TotalIncome(view) && c.totalExpense == TotalExpense(view) && c.netProfit == Net(view)
  {
    ConsolidatedMatchesCombinedView(
      SelectedTransactions(businessLive, businessReports, selectedMonth, currentMonth),
      SelectedTransactions(personalLive, personalReports, selectedMonth, currentMonth));
  }

  /** The transactions of the merged entry for `m`, or nothing. */
  function MergedTransactions(merged: seq<MonthlyReport>, m: string): seq<Transaction>
  {
    match IndexOfMonth(merged, m)
    case Some(k) => merged[k].transactions
    case None => []
  }

  /** For a month present in the input, the merged entry exists and holds exactly
      that month's transactions. */
  lemma MergedTransactionsOfMonth(reports: seq<MonthlyReport>, m: string)
    ensures HasMonth(reports, m) ==>
      multiset(MergedTransactions(MergeReports(reports), m)) == multiset(TxsFor(reports, m))
  {
    if HasMonth(reports, m) {
      var merged := MergeReports(reports);
      MergeReportsCorrect(reports);
      HasMonthIff(reports, m);
      assert m in MonthsOf(merged);
      var k :| 0 <= k < |merged| && MonthsOf(merged)[k] == m;
      assert IndexOfMonth(merged, m).Some?;
    }
  }

  /** A month occurs in a concatenation exactly when it occurs in one of the parts. */
  lemma MonthInConcat(a: seq<MonthlyReport>, b: seq<MonthlyReport>, m: string)
    ensures HasMonth(a + b, m) <==> HasMonth(a, m) || HasMonth(b, m)
  {
    if HasMonth(a, m) {
      var i :| 0 <= i < |a| && a[i].month == m;
      assert (a + b)[i].month == m;
    }
    if HasMonth(b, m) {
      var i :| 0 <= i < |b| && b[i].month == m;
      assert (a + b)[|a| + i].month == m;
    }
  }

  /** The lists the page reads its cards from once the merge has run. For an
      archived month the selected list is the `transactions` array of the first
      report of that month, and the merge copies that report only shallowly: the
      first report of the month in business-then-personal order shares its array
      with the merged entry, which the merge extends with the month's other
      reports. So the business list becomes the whole merged month when the
      business ledger has a report for it, and otherwise the personal list does. */
  function CardListsAsWritten(businessLive: seq<Transaction>, personalLive: seq<Transaction>,
                              businessReports: seq<MonthlyReport>, personalReports: seq<MonthlyReport>,
                              selectedMonth: string, currentMonth: string): (lists: (seq<Transaction>, seq<Transaction>))
    ensures selectedMonth == currentMonth ==> lists == (businessLive, personalLive)
    ensures selectedMonth != currentMonth && HasMonth(businessReports, selectedMonth) ==>
      && multiset(lists.0) == multiset(TxsFor(businessReports + personalReports, selectedMonth))
      && lists.1 == SelectedTransactions(personalLive, personalReports, selectedMonth, currentMonth)
    ensures (selectedMonth != currentMonth && !HasMonth(businessReports, selectedMonth)
             && HasMonth(personalReports, selectedMonth)) ==>
      && lists.0 == []
      && multiset(lists.1) == multiset(TxsFor(businessReports + personalReports, selectedMonth))
    ensures (selectedMonth != currentMonth && !HasMonth(businessReports, selectedMonth)
             && !HasMonth(personalReports, selectedMonth)) ==> lists == ([], [])
  {
    if selectedMonth == currentMonth then (businessLive, personalLive)
    else
      MonthInConcat(businessReports, personalReports, selectedMonth);
      MergedTransactionsOfMonth(businessReports + personalReports, selectedMonth);
      var merged := MergeReports(businessReports + personalReports);
      var inBusiness := FindReport(businessReports, selectedMonth).Some?;
      var inPersonal := FindReport(personalReports, selectedMonth).Some?;
      var business := if inBusiness then MergedTransactions(merged, selectedMonth) else [];
      var personal :=
        if !inBusiness && inPersonal then MergedTransactions(merged, selectedMonth)
        else SelectedTransactions(personalLive, personalReports, selectedMonth, currentMonth);
      (business, personal)
  }

  function CardsAsWritten(businessLive: seq<Transaction>, personalLive: seq<Transaction>,
                          businessReports: seq<MonthlyReport>, personalReports: seq<MonthlyReport>,
                          selectedMonth: string, currentMonth: string): Consolidated
  {
    var lists := CardListsAsWritten(businessLive, personalLive, businessReports, personalReports,
                                    selectedMonth, currentMonth);
    Consolidate(lists.0, lists.1)
  }

  /** Two reports of one month merge into a single combined entry. */
  lemma MergeTwoSameMonth(r1: MonthlyReport, r2: MonthlyReport)
    requires r1.month == r2.month
    ensures MergeReports([r1, r2]) == [Combine(r1, r2)]
  {
    assert [r1, r2][..1] == [r1];
    assert [r1][..0] == [];
    assert MergeReports([r1]) == MergeInto([], r1) == [r1];
    assert IndexOfMonth([r1], r2.month) == Some(0);
  }

  /** An archived month with one report in each ledger: the business cards take
      in the personal report's transactions as well, so the consolidated totals
      exceed the table's by the personal report's totals. */
  lemma CardsAsWrittenDoubleCount(businessLive: seq<Transaction>, personalLive: seq<Transaction>,
                                  rb: MonthlyReport, rp: MonthlyReport, currentMonth: string)
    requires rb.month == rp.month && rb.month != currentMonth
    ensures var m := rb.month;
      var c := CardsAsWritten(businessLive, personalLive, [rb], [rp], m, currentMonth);
      var view := Table(businessLive, personalLive, [rb], [rp], m, currentMonth);
      && c.businessIncome == TotalIncome(rb.transactions) + TotalIncome(rp.transactions)
      && c.personalIncome == TotalIncome(rp.transactions)
      && c.totalIncome == TotalIncome(view) + TotalIncome(rp.transactions)
      && c.totalExpense == TotalExpense(view) + TotalExpense(rp.transactions)
  {
    var m := rb.month;
    assert FindReport([rb], m) == Some(rb);
    assert FindReport([rp], m) == Some(rp);
    assert SelectedTransactions(businessLive, [rb], m, currentMonth) == rb.transactions;
    assert SelectedTransactions(personalLive, [rp], m, currentMonth) == rp.transactions;
    MergeTwoSameMonth(rb, rp);
    assert [rb] + [rp] == [rb, rp];
    assert MergedTransactions([Combine(rb, rp)], m) == SortByDate(rb.transactions + rp.transactions);
    SortByDateTotals(rb.transactions + rp.transactions, Income);
    SortByDateTotals(rb.transactions + rp.transactions, Expense);
    KindTotalConcat(rb.transactions, rp.transactions, Income);
    KindTotalConcat(rb.transactions, rp.transactions, Expense);
    CardsMatchTable(businessLive, personalLive, [rb], [rp], m, currentMonth);
  }
}
