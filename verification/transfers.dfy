/** Transfers between the business and the personal ledger, recorded as double entries. */
module Transfers {
  import opened Wrappers
  import opened Seqs
  import opened Ledger

  datatype Account = Business | Personal

  function Other(a: Account): (b: Account)
    ensures b != a
  {
    if a == Business then Personal else Business
  }

  /** The account's name as it appears in generated entry names. */
  function AccountName(a: Account): string
  {
    if a == Business then "empresarial" else "pessoal"
  }

  /** A transfer record. Amounts are in cents. */
  datatype Transfer = Transfer(
    id: string,
    description: string,
    amount: int,
    fromAccount: Account,
    toAccount: Account,
    date: string)

  /** The three collections the page writes to. */
  datatype Books = Books(transfers: seq<Transfer>, business: seq<Transaction>, personal: seq<Transaction>)

  function LedgerOf(b: Books, a: Account): seq<Transaction>
  {
    if a == Business then b.business else b.personal
  }

  /** The form as typed; an unselected source account is `None`. */
  datatype TransferForm = TransferForm(description: string, amountText: string, fromAccount: Option<Account>)

  /** The fresh ids the database hands out for the three new documents. */
  datatype FreshIds = FreshIds(transfer: string, expense: string, income: string)

  /** The guard of `handleAddTransfer`; `connected` stands for the database and
      its three collections being available. */
  predicate Accepted(form: TransferForm, connected: bool)
  {
    form.description != [] && form.amountText != [] && form.fromAccount.Some? && connected
  }

  function NewTransfer(form: TransferForm, from: Account, parse: string -> int, id: string, date: string): (t: Transfer)
    ensures t.fromAccount == from && t.toAccount == Other(from)
  {
    Transfer(id, form.description, parse(form.amountText), from, Other(from), date)
  }

  /** The expense booked in the source ledger. */
  function ExpenseEntry(t: Transfer, id: string): Transaction
  {
    Transaction(id, "Transferência para conta " + AccountName(t.toAccount),
      "Transferência: " + t.description, t.amount, Expense, t.date, Some(t.id))
  }

  /** The income booked in the destination ledger. */
  function IncomeEntry(t: Transfer, id: string): Transaction
  {
    Transaction(id, "Transferência da conta " + AccountName(t.fromAccount),
      "Transferência: " + t.description, t.amount, Income, t.date, Some(t.id))
  }

  /** `handleAddTransfer`: one transfer record, one expense in the source ledger
      and one income in the destination ledger, all sharing the transfer's id.
      `parse` stands for `parseFloat` (in cents), `date` for the ISO time. */
  function AddTransfer(b: Books, form: TransferForm, connected: bool, parse: string -> int,
                       ids: FreshIds, date: string): (r: Books)
    ensures !Accepted(form, connected) ==> r == b
    ensures Accepted(form, connected) ==> |r.transfers| == |b.transfers| + 1
    ensures Accepted(form, connected) ==>
      var from := form.fromAccount.value;
      var t := r.transfers[|b.transfers|];
      && r.transfers == b.transfers + [t]
      && t == Transfer(ids.transfer, form.description, parse(form.amountText), from, Other(from), date)
      && LedgerOf(r, from) == LedgerOf(b, from) + [ExpenseEntry(t, ids.expense)]
      && LedgerOf(r, Other(from)) == LedgerOf(b, Other(from)) + [IncomeEntry(t, ids.income)]
  {
    if !Accepted(form, connected) then b
    else
      var from := form.fromAccount.value;
      var t := NewTransfer(form, from, parse, ids.transfer, date);
      var expense := ExpenseEntry(t, ids.expense);
      var income := IncomeEntry(t, ids.income);
      if from == Business then Books(b.transfers + [t], b.business + [expense], b.personal + [income])
      else Books(b.transfers + [t], b.business + [income], b.personal + [expense])
  }

  /** Both generated entries carry the transfer's amount, date and id, one as an
      expense and one as an income. */
  lemma EntriesMatchTransfer(t: Transfer, expenseId: string, incomeId: string)
    ensures var e, i := ExpenseEntry(t, expenseId), IncomeEntry(t, incomeId);
      && e.kind == Expense && i.kind == Income
      && e.amount == t.amount && i.amount == t.amount
      && e.date == t.date && i.date == t.date
      && e.transferId == Some(t.id) && i.transferId == Some(t.id)
  {
  }

  /** Conservation: a transfer moves its amount out of the source ledger's net
      and into the destination's, so the combined net is unchanged. */
  lemma AddTransferConserves(b: Books, form: TransferForm, connected: bool, parse: string -> int,
                             ids: FreshIds, date: string)
    requires Accepted(form, connected)
    ensures var r := AddTransfer(b, form, connected, parse, ids, date);
      var from := form.fromAccount.value;
      var a := parse(form.amountText);
      && Net(LedgerOf(r, from)) == Net(LedgerOf(b, from)) - a
      && Net(LedgerOf(r, Other(from))) == Net(LedgerOf(b, Other(from))) + a
      && Net(r.business) + Net(r.personal) == Net(b.business) + Net(b.personal)
  {
    var r := AddTransfer(b, form, connected, parse, ids, date);
    var from := form.fromAccount.value;
    var t := r.transfers[|b.transfers|];
    AppendOne(LedgerOf(b, from), ExpenseEntry(t, ids.expense));
    AppendOne(LedgerOf(b, Other(from)), IncomeEntry(t, ids.income));
  }

  // ---- deletion

  function WithoutTransfer(ts: seq<Transfer>, id: string): seq<Transfer>
  {
    Filter(ts, (t: Transfer) => t.id != id)
  }

  function WithoutLinked(txs: seq<Transaction>, id: string): seq<Transaction>
  {
    Filter(txs, (t: Transaction) => t.transferId != Some(id))
  }

  /** `handleDeleteTransfer`: without a database connection nothing happens;
      otherwise the record is deleted and, in both ledgers, every entry whose
      `transferId` is the record's id. Nothing new appears. */
  function DeleteTransfer(b: Books, transfer: Transfer, connected: bool): (r: Books)
    ensures !connected ==> r == b
    ensures connected ==> forall i :: 0 <= i < |r.transfers| ==> r.transfers[i].id != transfer.id
    ensures connected ==> forall i :: 0 <= i < |r.business| ==> r.business[i].transferId != Some(transfer.id)
    ensures connected ==> forall i :: 0 <= i < |r.personal| ==> r.personal[i].transferId != Some(transfer.id)
    ensures forall i :: 0 <= i < |b.transfers| && b.transfers[i].id != transfer.id ==> b.transfers[i] in r.transfers
    ensures forall i :: 0 <= i < |b.business| && b.business[i].transferId != Some(transfer.id) ==> b.business[i] in r.business
    ensures forall i :: 0 <= i < |b.personal| && b.personal[i].transferId != Some(transfer.id) ==> b.personal[i] in r.personal
    ensures forall i :: 0 <= i < |r.transfers| ==> r.transfers[i] in b.transfers
    ensures forall i :: 0 <= i < |r.business| ==> r.business[i] in b.business
    ensures forall i :: 0 <= i < |r.personal| ==> r.personal[i] in b.personal
  {
    if !connected then b
    else
      Books(WithoutTransfer(b.transfers, transfer.id),
            WithoutLinked(b.business, transfer.id),
            WithoutLinked(b.personal, transfer.id))
  }

  /** No record or entry uses `id` yet: the id the database hands out is new. */
  ghost predicate FreshTransferId(b: Books, id: string)
  {
    && (forall i :: 0 <= i < |b.transfers| ==> b.transfers[i].id != id)
    && (forall i :: 0 <= i < |b.business| ==> b.business[i].transferId != Some(id))
    && (forall i :: 0 <= i < |b.personal| ==> b.personal[i].transferId != Some(id))
  }

  /** Deleting an id nothing uses changes nothing. */
  lemma DeleteUnusedIsIdentity(b: Books, transfer: Transfer, connected: bool)
    requires FreshTransferId(b, transfer.id)
    ensures DeleteTransfer(b, transfer, connected) == b
  {
    FilterKeepsAll(b.transfers, (t: Transfer) => t.id != transfer.id);
    FilterKeepsAll(b.business, (t: Transaction) => t.transferId != Some(transfer.id));
    FilterKeepsAll(b.personal, (t: Transaction) => t.transferId != Some(transfer.id));
  }

  /** Deletion acts on old and new documents separately, keeping their order. */
  lemma DeleteAppended(b: Books, extra: Books, transfer: Transfer, connected: bool)
    ensures var d, e := DeleteTransfer(b, transfer, connected), DeleteTransfer(extra, transfer, connected);
      DeleteTransfer(Books(b.transfers + extra.transfers, b.business + extra.business,
                           b.personal + extra.personal), transfer, connected)
      == Books(d.transfers + e.transfers, d.business + e.business, d.personal + e.personal)
  {
    FilterConcat(b.transfers, extra.transfers, (t: Transfer) => t.id != transfer.id);
    FilterConcat(b.business, extra.business, (t: Transaction) => t.transferId != Some(transfer.id));
    FilterConcat(b.personal, extra.personal, (t: Transaction) => t.transferId != Some(transfer.id));
  }

  /** Removing a record appended under an id no older record has gives back the old list. */
  lemma RemoveAppendedTransfer(ts: seq<Transfer>, t: Transfer)
    requires forall i :: 0 <= i < |ts| ==> ts[i].id != t.id
    ensures WithoutTransfer(ts + [t], t.id) == ts
  {
    var p := (x: Transfer) => x.id != t.id;
    FilterConcat(ts, [t], p);
    FilterKeepsAll(ts, p);
    assert [t][1..] == [];
  }

  /** Removing an entry appended with a link no older entry has gives back the old ledger. */
  lemma RemoveAppendedLinked(txs: seq<Transaction>, e: Transaction, id: string)
    requires forall i :: 0 <= i < |txs| ==> txs[i].transferId != Some(id)
    requires e.transferId == Some(id)
    ensures WithoutLinked(txs + [e], id) == txs
  {
    var p := (x: Transaction) => x.transferId != Some(id);
    FilterConcat(txs, [e], p);
    FilterKeepsAll(txs, p);
    assert [e][1..] == [];
  }

  /** Adding a transfer under a fresh id and then deleting it restores the
      transfer list and both ledgers. */
  lemma AddThenDeleteRoundTrip(b: Books, form: TransferForm, connected: bool, parse: string -> int,
                               ids: FreshIds, date: string)
    requires Accepted(form, connected)
    requires FreshTransferId(b, ids.transfer)
    ensures var r := AddTransfer(b, form, connected, parse, ids, date);
      DeleteTransfer(r, r.transfers[|b.transfers|], connected) == b
  {
    var r := AddTransfer(b, form, connected, parse, ids, date);
    var t := r.transfers[|b.transfers|];
    RemoveAppendedTransfer(b.transfers, t);
    var eb, ep := r.business[|b.business|], r.personal[|b.personal|];
    if form.fromAccount.value == Business {
      assert r.business == b.business + [ExpenseEntry(t, ids.expense)];
      assert r.personal == b.personal + [IncomeEntry(t, ids.income)];
    } else {
      assert r.business == b.business + [IncomeEntry(t, ids.income)];
      assert r.personal == b.personal + [ExpenseEntry(t, ids.expense)];
    }
    RemoveAppendedLinked(b.business, eb, t.id);
    RemoveAppendedLinked(b.personal, ep, t.id);
  }

  // ---- direction totals

  function SumTransfers(ts: seq<Transfer>): int
  {
    if |ts| == 0 then 0 else ts[0].amount + SumTransfers(ts[1..])
  }

  /** `totalPersonalToBusiness` / `totalBusinessToPersonal`: amounts of the
      transfers leaving `from`. */
  function DirectionTotal(ts: seq<Transfer>, from: Account): int
  {
    SumTransfers(Filter(ts, (t: Transfer) => t.fromAccount == from))
  }

  /** The two direction totals together account for every transfer. */
  lemma {:induction false} DirectionTotalsCoverAll(ts: seq<Transfer>)
    ensures DirectionTotal(ts, Personal) + DirectionTotal(ts, Business) == SumTransfers(ts)
  {
    if |ts| > 0 {
      DirectionTotalsCoverAll(ts[1..]);
    }
  }

  lemma {:induction false} SumTransfersConcat(a: seq<Transfer>, c: seq<Transfer>)
    ensures SumTransfers(a + c) == SumTransfers(a) + SumTransfers(c)
  {
    if |a| == 0 {
      assert a + c == c;
    } else {
      assert (a + c)[1..] == a[1..] + c;
      SumTransfersConcat(a[1..], c);
    }
  }

  /** A new transfer raises its own direction's total by its amount and leaves the other alone. */
  lemma AddTransferDirectionTotals(b: Books, form: TransferForm, connected: bool, parse: string -> int,
                                   ids: FreshIds, date: string, dir: Account)
    requires Accepted(form, connected)
    ensures var r := AddTransfer(b, form, connected, parse, ids, date);
      DirectionTotal(r.transfers, dir) == DirectionTotal(b.transfers, dir)
        + (if dir == form.fromAccount.value then parse(form.amountText) else 0)
  {
    var r := AddTransfer(b, form, connected, parse, ids, date);
    var t := r.transfers[|b.transfers|];
    var p := (x: Transfer) => x.fromAccount == dir;
    FilterConcat(b.transfers, [t], p);
    assert Filter([t], p) == if t.fromAccount == dir then [t] else [];
    SumTransfersConcat(Filter(b.transfers, p), Filter([t], p));
    assert SumTransfers([t]) == t.amount + SumTransfers([]);
  }
}
