/** Transactions and the arithmetic every cash-flow page repeats over them:
    totals filtered by type, deletion by id, and ordering by date. */
module Ledger {
  import opened Wrappers
  import opened Seqs
  import opened Text

  datatype Kind = Income | Expense

  /** A ledger entry. Amounts are in cents. `transferId` links the entry to the
      transfer that generated it, if any. */
  datatype Transaction = Transaction(
    id: string,
    name: string,
    description: string,
    amount: int,
    kind: Kind,
    date: string,
    transferId: Option<string>)

  /** The add-transaction form as typed: `amountText` is the raw amount field,
      which the pages turn into a number with `parseFloat`. */
  datatype TransactionForm = TransactionForm(name: string, description: string, amountText: string, kind: Kind)

  /** The guard both cash-flow pages apply before adding: an empty name or an
      empty amount field rejects the form. */
  predicate FormAccepted(f: TransactionForm)
  {
    f.name != [] && f.amountText != []
  }

  /** The sum of the amounts, starting from 0. */
  function SumAmounts(txs: seq<Transaction>): int
  {
    if |txs| == 0 then 0 else txs[0].amount + SumAmounts(txs[1..])
  }

  function OfKind(txs: seq<Transaction>, k: Kind): seq<Transaction>
  {
    Filter(txs, (t: Transaction) => t.kind == k)
  }

  /** The sum of the amounts of the transactions of type `k`, the others skipped. */
  function KindTotal(txs: seq<Transaction>, k: Kind): int
  {
    SumAmounts(OfKind(txs, k))
  }

  function TotalIncome(txs: seq<Transaction>): int
  {
    KindTotal(txs, Income)
  }

  function TotalExpense(txs: seq<Transaction>): int
  {
    KindTotal(txs, Expense)
  }

  /** What the income brought in less what the expenses took out. */
  function Net(txs: seq<Transaction>): int
  {
    TotalIncome(txs) - TotalExpense(txs)
  }

  /** The three figures each cash-flow page shows on its cards. */
  datatype Totals = Totals(income: int, expense: int, net: int)

  /** The cards: every transaction counts on exactly one side, so the two
      totals together make up the sum of all amounts. */
  function Summarize(txs: seq<Transaction>): (t: Totals)
    ensures t.net == t.income - t.expense
    ensures t.income == TotalIncome(txs) && t.expense == TotalExpense(txs)
    ensures t.income + t.expense == SumAmounts(txs)
  {
    KindTotalsPartition(txs);
    var income := TotalIncome(txs);
    var expense := TotalExpense(txs);
    Totals(income, expense, income - expense)
  }

  lemma {:induction false} SumAmountsConcat(a: seq<Transaction>, b: seq<Transaction>)
    ensures SumAmounts(a + b) == SumAmounts(a) + SumAmounts(b)
  {
    if |a| == 0 {
      assert a + b == b;
    } else {
      assert (a + b)[1..] == a[1..] + b;
      SumAmountsConcat(a[1..], b);
    }
  }

  /** Each per-type total is additive over concatenation of ledgers. */
  lemma KindTotalConcat(a: seq<Transaction>, b: seq<Transaction>, k: Kind)
    ensures KindTotal(a + b, k) == KindTotal(a, k) + KindTotal(b, k)
  {
    FilterConcat(a, b, (t: Transaction) => t.kind == k);
    SumAmountsConcat(OfKind(a, k), OfKind(b, k));
  }

  lemma NetConcat(a: seq<Transaction>, b: seq<Transaction>)
    ensures Net(a + b) == Net(a) + Net(b)
  {
    KindTotalConcat(a, b, Income);
    KindTotalConcat(a, b, Expense);
  }

  /** A single transaction contributes its amount to its own type's total and nothing to the other. */
  lemma KindTotalSingle(t: Transaction, k: Kind)
    ensures KindTotal([t], k) == if t.kind == k then t.amount else 0
  {
    assert [t][1..] == [];
    if t.kind == k {
      assert OfKind([t], k) == [t];
      assert SumAmounts([t]) == t.amount + SumAmounts([]);
    } else {
      assert OfKind([t], k) == [];
    }
  }

  /** Every transaction is either an income or an expense, so the two per-type
      totals add up to the sum of all amounts. */
  lemma {:induction false} KindTotalsPartition(txs: seq<Transaction>)
    ensures TotalIncome(txs) + TotalExpense(txs) == SumAmounts(txs)
  {
    if |txs| > 0 {
      var t := txs[0];
      assert txs == [t] + txs[1..];
      KindTotalsPartition(txs[1..]);
      KindTotalConcat([t], txs[1..], Income);
      KindTotalConcat([t], txs[1..], Expense);
      KindTotalSingle(t, Income);
      KindTotalSingle(t, Expense);
    }
  }

  /** Adding an income of amount a raises the income total by a and leaves the
      expense total alone; symmetrically for an expense. */
  lemma {:induction false} AppendOne(txs: seq<Transaction>, t: Transaction)
    ensures TotalIncome(txs + [t]) == TotalIncome(txs) + (if t.kind == Income then t.amount else 0)
    ensures TotalExpense(txs + [t]) == TotalExpense(txs) + (if t.kind == Expense then t.amount else 0)
    ensures Net(txs + [t]) == Net(txs) + (if t.kind == Income then t.amount else -t.amount)
  {
    KindTotalConcat(txs, [t], Income);
    KindTotalConcat(txs, [t], Expense);
    KindTotalSingle(t, Income);
    KindTotalSingle(t, Expense);
  }

  lemma {:induction false} PrependOne(txs: seq<Transaction>, t: Transaction)
    ensures TotalIncome([t] + txs) == TotalIncome(txs) + (if t.kind == Income then t.amount else 0)
    ensures TotalExpense([t] + txs) == TotalExpense(txs) + (if t.kind == Expense then t.amount else 0)
    ensures Net([t] + txs) == Net(txs) + (if t.kind == Income then t.amount else -t.amount)
  {
    KindTotalConcat([t], txs, Income);
    KindTotalConcat([t], txs, Expense);
    KindTotalSingle(t, Income);
    KindTotalSingle(t, Expense);
  }

  // ---- deletion

  /** The transactions whose id differs from `id`, in their original order. */
  function WithoutId(txs: seq<Transaction>, id: string): seq<Transaction>
  {
    Filter(txs, (t: Transaction) => t.id != id)
  }

  ghost predicate HasId(txs: seq<Transaction>, id: string)
  {
    exists i :: 0 <= i < |txs| && txs[i].id == id
  }

  /** Deleting by id removes exactly the transactions carrying that id, keeps
      the others, and is the identity for an absent id. */
  lemma DeleteByIdSpec(txs: seq<Transaction>, id: string)
    ensures !HasId(WithoutId(txs, id), id)
    ensures forall t :: t in txs && t.id != id ==> t in WithoutId(txs, id)
    ensures forall t :: t in WithoutId(txs, id) ==> t in txs
    ensures !HasId(txs, id) ==> WithoutId(txs, id) == txs
  {
    if !HasId(txs, id) {
      FilterKeepsAll(txs, (t: Transaction) => t.id != id);
    }
  }

  /** Deletion distributes over concatenation, so the survivors keep their order. */
  lemma WithoutIdConcat(a: seq<Transaction>, b: seq<Transaction>, id: string)
    ensures WithoutId(a + b, id) == WithoutId(a, id) + WithoutId(b, id)
  {
    FilterConcat(a, b, (t: Transaction) => t.id != id);
  }

  // ---- ordering by date

  /** Sorted non-decreasing by date. Dates are ISO-8601 strings of one format,
      for which string order is chronological order. */
  ghost predicate SortedByDate(s: seq<Transaction>)
  {
    forall i, j :: 0 <= i < j < |s| ==> LessEq(s[i].date, s[j].date)
  }

  /** An element no later than the head of a sorted list is no later than all of it. */
  lemma NotLaterThanHead(x: Transaction, s: seq<Transaction>)
    requires SortedByDate(s) && |s| > 0 && LessEq(x.date, s[0].date)
    ensures SortedByDate([x] + s)
  {
    forall j | 0 <= j < |s| ensures LessEq(x.date, s[j].date) {
      LessEqTransitive(x.date, s[0].date, s[j].date);
    }
  }

  /** A head no later than every element of a sorted tail keeps the list sorted. */
  lemma HeadBeforeSorted(h: Transaction, x: Transaction, tail: seq<Transaction>, rest: seq<Transaction>)
    requires SortedByDate(rest) && LessEq(h.date, x.date)
    requires forall j :: 0 <= j < |tail| ==> LessEq(h.date, tail[j].date)
    requires multiset(rest) == multiset(tail) + multiset{x}
    ensures SortedByDate([h] + rest)
  {
    forall j | 0 <= j < |rest| ensures LessEq(h.date, rest[j].date) {
      assert rest[j] in multiset(rest);
      assert rest[j] == x || rest[j] in multiset(tail);
    }
  }

  /** Inserts `x` before the first element whose date is not earlier than its own. */
  function InsertByDate(x: Transaction, s: seq<Transaction>): (r: seq<Transaction>)
    requires SortedByDate(s)
    ensures SortedByDate(r)
    ensures multiset(r) == multiset(s) + multiset{x}
  {
    if |s| == 0 then [x]
    else if LessEq(x.date, s[0].date) then
      NotLaterThanHead(x, s);
      [x] + s
    else
      LessTotal(x.date, s[0].date);
      var rest := InsertByDate(x, s[1..]);
      assert s == [s[0]] + s[1..];
      HeadBeforeSorted(s[0], x, s[1..], rest);
      [s[0]] + rest
  }

  /** The sort by ascending date the combined table applies. Entries with equal
      dates keep their relative order (`SortByDateStable`). */
  function SortByDate(s: seq<Transaction>): (r: seq<Transaction>)
    ensures SortedByDate(r)
    ensures multiset(r) == multiset(s)
  {
    if |s| == 0 then []
    else
      assert s == [s[0]] + s[1..];
      InsertByDate(s[0], SortByDate(s[1..]))
  }

  /** Sorting an already sorted ledger changes nothing, so sorting is idempotent. */
  lemma {:induction false} SortByDateSorted(s: seq<Transaction>)
    requires SortedByDate(s)
    ensures SortByDate(s) == s
  {
    if |s| > 0 {
      SortByDateSorted(s[1..]);
      assert s == [s[0]] + s[1..];
    }
  }

  lemma {:induction false} InsertByDateTotals(x: Transaction, s: seq<Transaction>, k: Kind)
    requires SortedByDate(s)
    ensures KindTotal(InsertByDate(x, s), k) == KindTotal(s, k) + KindTotal([x], k)
  {
    if |s| == 0 {
    } else if LessEq(x.date, s[0].date) {
      KindTotalConcat([x], s, k);
    } else {
      InsertByDateTotals(x, s[1..], k);
      KindTotalConcat([s[0]], InsertByDate(x, s[1..]), k);
      KindTotalConcat([s[0]], s[1..], k);
      assert s == [s[0]] + s[1..];
    }
  }

  /** Reordering by date leaves every per-type total unchanged. */
  lemma {:induction false} SortByDateTotals(s: seq<Transaction>, k: Kind)
    ensures KindTotal(SortByDate(s), k) == KindTotal(s, k)
  {
    if |s| > 0 {
      var rest := SortByDate(s[1..]);
      assert SortByDate(s) == InsertByDate(s[0], rest);
      SortByDateTotals(s[1..], k);
      InsertByDateTotals(s[0], rest, k);
      KindTotalConcat([s[0]], s[1..], k);
      assert s == [s[0]] + s[1..];
    }
  }

  /** The transactions dated exactly `d`, in their order. */
  function OnDate(s: seq<Transaction>, d: string): seq<Transaction>
  {
    Filter(s, (t: Transaction) => t.date == d)
  }

  lemma OnDateCons(h: Transaction, t: seq<Transaction>, d: string)
    ensures OnDate([h] + t, d) == (if h.date == d then [h] else []) + OnDate(t, d)
  {
    assert ([h] + t)[0] == h && ([h] + t)[1..] == t;
  }

  /** An insertion goes before every element of its own date already present. */
  lemma {:induction false} InsertByDateOnDate(x: Transaction, s: seq<Transaction>, d: string)
    requires SortedByDate(s)
    ensures OnDate(InsertByDate(x, s), d) == (if x.date == d then [x] else []) + OnDate(s, d)
  {
    if |s| == 0 {
      OnDateCons(x, [], d);
      assert [x] + [] == [x];
    } else if LessEq(x.date, s[0].date) {
      OnDateCons(x, s, d);
    } else {
      var rest := InsertByDate(x, s[1..]);
      assert InsertByDate(x, s) == [s[0]] + rest;
      InsertByDateOnDate(x, s[1..], d);
      OnDateCons(s[0], rest, d);
      OnDateCons(s[0], s[1..], d);
      assert s == [s[0]] + s[1..];
      assert s[0].date != x.date;
    }
  }

  /** The sort is stable: for every date, the entries of that date come out in
      the order they went in. */
  lemma {:induction false} SortByDateStable(s: seq<Transaction>, d: string)
    ensures OnDate(SortByDate(s), d) == OnDate(s, d)
  {
    if |s| > 0 {
      SortByDateStable(s[1..], d);
      InsertByDateOnDate(s[0], SortByDate(s[1..]), d);
    }
  }
}
