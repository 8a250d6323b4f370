/** The business cash-flow page: a ledger kept in page state, appended to by the form. */
module CashFlow {
  import opened Wrappers
  import opened Seqs
  import opened Ledger

  /** `handleAddTransaction`. `parse` stands for `parseFloat` (in cents) and `now`
      for `new Date().toISOString()`, which the page uses as the new id. The page's
      records carry no date of their own; the model keeps the creation time there. */
  function AddTransaction(txs: seq<Transaction>, form: TransactionForm, parse: string -> int, now: string): (r: seq<Transaction>)
    ensures !FormAccepted(form) ==> r == txs
    ensures FormAccepted(form) ==> |r| == |txs| + 1 && r[..|txs|] == txs
    ensures FormAccepted(form) ==>
      r[|txs|] == Transaction(now, form.name, form.description, parse(form.amountText), form.kind, now, None)
  {
    if !FormAccepted(form) then txs
    else
      var t := Transaction(now, form.name, form.description, parse(form.amountText), form.kind, now, None);
      var r := txs + [t];
      assert r[..|txs|] == txs;
      r
  }

  /** `handleDeleteTransaction`. */
  function DeleteTransaction(txs: seq<Transaction>, id: string): (r: seq<Transaction>)
    ensures forall i :: 0 <= i < |r| ==> r[i].id != id
    ensures forall i :: 0 <= i < |txs| && txs[i].id != id ==> txs[i] in r
  {
    WithoutId(txs, id)
  }

  /** A valid add of an income raises `totalIncome` by its amount and leaves
      `totalExpense` alone, and the other way round for an expense; an
      invalid add changes no total. */
  lemma AddTransactionTotals(txs: seq<Transaction>, form: TransactionForm, parse: string -> int, now: string)
    ensures var r := AddTransaction(txs, form, parse, now);
      var a := if FormAccepted(form) then parse(form.amountText) else 0;
      && TotalIncome(r) == TotalIncome(txs) + (if form.kind == Income then a else 0)
      && TotalExpense(r) == TotalExpense(txs) + (if form.kind == Expense then a else 0)
      && Summarize(r).net == Summarize(txs).net + (if form.kind == Income then a else -a)
  {
    if FormAccepted(form) {
      var r := AddTransaction(txs, form, parse, now);
      assert r == txs + [r[|txs|]];
      AppendOne(txs, r[|txs|]);
    }
  }

  /** Deleting a transaction takes exactly its amount off its own type's total
      when its id is unique in the ledger. */
  lemma DeleteTransactionTotals(txs: seq<Transaction>, k: nat)
    requires k < |txs|
    requires forall i :: 0 <= i < |txs| && i != k ==> txs[i].id != txs[k].id
    ensures var t := txs[k];
      var r := DeleteTransaction(txs, t.id);
      && TotalIncome(r) == TotalIncome(txs) - (if t.kind == Income then t.amount else 0)
      && TotalExpense(r) == TotalExpense(txs) - (if t.kind == Expense then t.amount else 0)
  {
    var t := txs[k];
    var before, after := txs[..k], txs[k + 1..];
    assert txs == before + [t] + after;
    assert forall i :: 0 <= i < |before| ==> before[i] == txs[i];
    assert forall i :: 0 <= i < |after| ==> after[i] == txs[k + 1 + i];
    RemoveUnique(before, t, after);
    UnsplitTotals(before, t, after);
  }

  lemma RemoveUnique(before: seq<Transaction>, t: Transaction, after: seq<Transaction>)
    requires forall i :: 0 <= i < |before| ==> before[i].id != t.id
    requires forall i :: 0 <= i < |after| ==> after[i].id != t.id
    ensures WithoutId(before + [t] + after, t.id) == before + after
  {
    var p := (x: Transaction) => x.id != t.id;
    FilterKeepsAll(before, p);
    FilterKeepsAll(after, p);
    assert WithoutId([t], t.id) == [] by {
      assert [t][1..] == [];
    }
    WithoutIdConcat(before, [t], t.id);
    assert WithoutId(before + [t], t.id) == before;
    WithoutIdConcat(before + [t], after, t.id);
  }

  lemma UnsplitTotals(before: seq<Transaction>, t: Transaction, after: seq<Transaction>)
    ensures TotalIncome(before + [t] + after) == TotalIncome(before + after) + (if t.kind == Income then t.amount else 0)
    ensures TotalExpense(before + [t] + after) == TotalExpense(before + after) + (if t.kind == Expense then t.amount else 0)
  {
    KindTotalConcat(before + [t], after, Income);
    KindTotalConcat(before + [t], after, Expense);
    KindTotalConcat(before, after, Income);
    KindTotalConcat(before, after, Expense);
    AppendOne(before, t);
  }
}
