/** The personal cash-flow page: a ledger with dated entries, viewed one month at a time. */
module PersonalCashFlow {
  import opened Wrappers
  import opened Seqs
  import opened Text
  import opened Ledger

  /** `getCurrentMonthKey`: the year, '-', and the 1-based month zero-padded to two
      digits. `year` and `monthIndex` are what `getFullYear()` and `getMonth()` return. */
  function MonthKey(year: int, monthIndex: int): (key: string)
    requires 0 <= monthIndex < 12
    ensures |key| == |IntToString(year)| + 3
    ensures key[..|key| - 3] == IntToString(year) && key[|key| - 3] == '-'
    ensures AllDigits(key[|key| - 2..]) && DigitsValue(key[|key| - 2..]) == monthIndex + 1
  {
    var m := NatToString(monthIndex + 1);
    var padded := PadStart2(m);
    var key := IntToString(year) + "-" + padded;
    assert key[|key| - 2..] == padded;
    assert key[..|key| - 3] == IntToString(year);
    PadStart2Value(m);
    key
  }

  /** For a four-digit year the key is exactly seven characters long, so it is
      the month of every date string that starts with it. */
  lemma MonthKeyIsDatePrefix(year: int, monthIndex: int, date: string)
    requires 1000 <= year <= 9999 && 0 <= monthIndex < 12
    requires MonthKey(year, monthIndex) <= date
    ensures |MonthKey(year, monthIndex)| == 7
    ensures Prefix7(date) == MonthKey(year, monthIndex)
  {
    NatToStringLength(year);
  }

  /** The month an entry belongs to: the year-and-month prefix of its date. */
  function MonthOf(t: Transaction): string
  {
    Prefix7(t.date)
  }

  function Months(txs: seq<Transaction>): (ms: seq<string>)
    ensures |ms| == |txs| && forall i :: 0 <= i < |txs| ==> ms[i] == MonthOf(txs[i])
  {
    seq(|txs|, i requires 0 <= i < |txs| => MonthOf(txs[i]))
  }

  /** `allMonths`: every transaction's month and the current month, without
      duplicates, latest first. */
  function AllMonths(txs: seq<Transaction>, currentMonth: string): (r: seq<string>)
    ensures StrictlyDescending(r)
    ensures currentMonth in r
    ensures forall i :: 0 <= i < |txs| ==> MonthOf(txs[i]) in r
    ensures forall m :: m in r ==> m == currentMonth || exists i :: 0 <= i < |txs| && MonthOf(txs[i]) == m
  {
    var ms := Months(txs) + [currentMonth];
    assert forall i :: 0 <= i < |txs| ==> ms[i] == MonthOf(txs[i]);
    assert ms[|txs|] == currentMonth;
    var r := DistinctDescending(ms);
    assert forall m :: m in r ==> m == currentMonth || exists i :: 0 <= i < |txs| && MonthOf(txs[i]) == m by {
      forall m | m in r ensures m == currentMonth || exists i :: 0 <= i < |txs| && MonthOf(txs[i]) == m {
        var j :| 0 <= j < |ms| && ms[j] == m;
        if j < |txs| {
          assert MonthOf(txs[j]) == m;
        }
      }
    }
    r
  }

  /** `handleAddTransaction`: the new entry goes to the front. `parse` stands for
      `parseFloat` (in cents); `id` and `now` for the millisecond time and the ISO time. */
  function AddTransaction(txs: seq<Transaction>, form: TransactionForm, parse: string -> int, id: string, now: string): (r: seq<Transaction>)
    ensures !FormAccepted(form) ==> r == txs
    ensures FormAccepted(form) ==> |r| == |txs| + 1 && r[1..] == txs
    ensures FormAccepted(form) ==>
      r[0] == Transaction(id, form.name, form.description, parse(form.amountText), form.kind, now, None)
  {
    if !FormAccepted(form) then txs
    else [Transaction(id, form.name, form.description, parse(form.amountText), form.kind, now, None)] + txs
  }

  /** `handleDeleteTransaction` is the same filter by id as on the business page
      (`CashFlow.DeleteTransaction`); seen through the month view, deleting and then
      choosing a month gives what choosing the month and then deleting gives. */
  lemma DeleteCommutesWithView(txs: seq<Transaction>, id: string, selectedMonth: string)
    ensures Displayed(WithoutId(txs, id), selectedMonth) == WithoutId(Displayed(txs, selectedMonth), id)
  {
    FilterCommute(txs, (t: Transaction) => t.id != id, (t: Transaction) => MonthOf(t) == selectedMonth);
  }

  /** `handleClearMonth` as the page has it: whatever month is selected, the whole
      ledger is emptied, although the confirmation dialog speaks of that month's
      transactions only. */
  function ClearMonthAsWritten(txs: seq<Transaction>, selectedMonth: string): (r: seq<Transaction>)
    ensures |r| == 0
  {
    []
  }

  /** A transaction of another month is lost by the clear. */
  lemma ClearMonthLosesOtherMonths()
    ensures var other := Transaction("1", "Aluguel", "", 150000, Expense, "2024-01-05T10:00:00.000Z", None);
      && MonthOf(other) != "2024-02"
      && other !in ClearMonthAsWritten([other], "2024-02")
  {
    var other := Transaction("1", "Aluguel", "", 150000, Expense, "2024-01-05T10:00:00.000Z", None);
    assert MonthOf(other) == "2024-01";
  }

  /** `displayedTransactions`: the selected month's entries, in ledger order. */
  function Displayed(txs: seq<Transaction>, selectedMonth: string): (r: seq<Transaction>)
    ensures forall i :: 0 <= i < |r| ==> MonthOf(r[i]) == selectedMonth && r[i] in txs
    ensures forall i :: 0 <= i < |txs| && MonthOf(txs[i]) == selectedMonth ==> txs[i] in r
  {
    Filter(txs, (t: Transaction) => MonthOf(t) == selectedMonth)
  }

  /** The view keeps ledger order: the view of two parts is the view of the
      first followed by the view of the second. */
  lemma DisplayedConcat(a: seq<Transaction>, b: seq<Transaction>, selectedMonth: string)
    ensures Displayed(a + b, selectedMonth) == Displayed(a, selectedMonth) + Displayed(b, selectedMonth)
  {
    FilterConcat(a, b, (t: Transaction) => MonthOf(t) == selectedMonth);
  }

  /** The clear the dialog promises: only the selected month's entries go, the
      others stay in order, and the selected month then shows nothing. */
  function ClearMonth(txs: seq<Transaction>, selectedMonth: string): (r: seq<Transaction>)
    ensures forall i :: 0 <= i < |r| ==> MonthOf(r[i]) != selectedMonth && r[i] in txs
    ensures forall i :: 0 <= i < |txs| && MonthOf(txs[i]) != selectedMonth ==> txs[i] in r
  {
    Filter(txs, (t: Transaction) => MonthOf(t) != selectedMonth)
  }

  lemma ClearMonthEmptiesView(txs: seq<Transaction>, selectedMonth: string)
    ensures Displayed(ClearMonth(txs, selectedMonth), selectedMonth) == []
    ensures forall m :: m != selectedMonth ==> Displayed(ClearMonth(txs, selectedMonth), m) == Displayed(txs, m)
  {
    var r := ClearMonth(txs, selectedMonth);
    FilterRejectsAll(r, (t: Transaction) => MonthOf(t) == selectedMonth);
    forall m | m != selectedMonth ensures Displayed(r, m) == Displayed(txs, m) {
      DisplayedAfterClear(txs, selectedMonth, m);
    }
  }

  lemma {:induction false} DisplayedAfterClear(txs: seq<Transaction>, cleared: string, m: string)
    requires m != cleared
    ensures Displayed(ClearMonth(txs, cleared), m) == Displayed(txs, m)
  {
    if |txs| > 0 {
      DisplayedAfterClear(txs[1..], cleared, m);
      if MonthOf(txs[0]) != cleared {
        assert ClearMonth(txs, cleared) == [txs[0]] + ClearMonth(txs[1..], cleared);
        assert ([txs[0]] + ClearMonth(txs[1..], cleared))[1..] == ClearMonth(txs[1..], cleared);
      }
    }
  }

  /** The month's cards: income and expense summed over the entries of the
      selected month only, and their difference. */
  function MonthTotals(txs: seq<Transaction>, selectedMonth: string): (t: Totals)
    ensures t.income == SumAmounts(Filter(txs, (x: Transaction) => MonthOf(x) == selectedMonth && x.kind == Income))
    ensures t.expense == SumAmounts(Filter(txs, (x: Transaction) => MonthOf(x) == selectedMonth && x.kind == Expense))
    ensures t.net == t.income - t.expense
  {
    var inMonth := (x: Transaction) => MonthOf(x) == selectedMonth;
    FilterFilter(txs, inMonth, (x: Transaction) => x.kind == Income,
      (x: Transaction) => MonthOf(x) == selectedMonth && x.kind == Income);
    FilterFilter(txs, inMonth, (x: Transaction) => x.kind == Expense,
      (x: Transaction) => MonthOf(x) == selectedMonth && x.kind == Expense);
    Summarize(Displayed(txs, selectedMonth))
  }

  /** A new entry counts toward the month it is dated in and no other. */
  lemma AddTransactionMonthTotals(txs: seq<Transaction>, form: TransactionForm, parse: string -> int,
                                  id: string, now: string, m: string)
    requires FormAccepted(form)
    ensures var r := AddTransaction(txs, form, parse, id, now);
      var a := if Prefix7(now) == m then parse(form.amountText) else 0;
      && MonthTotals(r, m).income == MonthTotals(txs, m).income + (if form.kind == Income then a else 0)
      && MonthTotals(r, m).expense == MonthTotals(txs, m).expense + (if form.kind == Expense then a else 0)
  {
    var r := AddTransaction(txs, form, parse, id, now);
    var t := r[0];
    assert r == [t] + txs;
    var p := (x: Transaction) => MonthOf(x) == m;
    FilterConcat([t], txs, p);
    assert Filter([t], p) == if MonthOf(t) == m then [t] else [];
    if MonthOf(t) == m {
      PrependOne(Displayed(txs, m), t);
    }
  }
}
