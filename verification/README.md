# Sweets shop storefront and back office — a Dafny model

This project models the bookkeeping and storefront logic of a sweets-shop web
app. The logic covered is:

- the shopping cart (merge by product id, item count, totals);
- the cart and checkout summaries;
- three cash-flow pages: a business ledger, a personal ledger viewed month by
  month, and a consolidated view that also merges archived monthly reports;
- transfers between the business and personal ledgers, booked as double entries;
- the sidebar's active-entry rule and cart badge;
- customer initials;
- the add-product form.

Every page's state is an immutable sequence of records. Every handler is a pure
function from the old state to the new one. Money is `int` cents.

Modules:

- `Wrappers`: `Option` and `Result`.
- `Seqs`: `Filter`, the model of `Array.prototype.filter`.
- `Text`: string order as JavaScript compares strings, the distinct-descending
  sort behind the month pickers, and decimal formatting.
- `Ledger`: transactions, the per-type totals, deletion by id, and the stable
  sort by date (stability proved as `Ledger.SortByDateStable`).
- `Catalog`, `Cart`, `CartPage`, `Checkout`: the storefront.
- `CashFlow`, `PersonalCashFlow`, `Transfers`, `GeneralCashFlow`: the
  back-office ledgers.
- `MainNav`, `Customers`, `AddProduct`: the small helpers.

Environment inputs are parameters of the functions that use them:

- the clock: `now`, `date`, `year`, `monthIndex`, `currentMonth`;
- fresh database ids: `FreshIds`, `id`;
- number parsing: `parse` for `parseFloat`, or `Option<int>` fields;
- database availability: `connected`.

Dates are ISO-8601 strings as `toISOString` writes them. For strings of that one
format, string order is chronological order. So "sorted by
`new Date(d).getTime()`" is modelled as sorted by string order.

## Model

| member | source | states |
|---|---|---|
| Cart.AddToCart | src/context/cart-context.tsx:23-32 | After an add the cart holds a line with the item's id. An existing id keeps the length and every line's product fields. An absent id appends exactly one line of quantity 1 after the untouched old lines. |
| Cart.IncrementLine | src/context/cart-context.tsx:27-29 | The map bumps by one the quantity of every line with the id. It leaves every other line identical and keeps length and order. |
| Cart.AddExisting | src/context/cart-context.tsx:25-29 | With distinct ids, adding a present id changes only that line, by quantity +1. The length stays the same. The item count rises by exactly 1. The total rises by the price stored on the line, not the price of the item passed in. |
| Cart.AddAbsent | src/context/cart-context.tsx:31 | Adding an absent id appends one line of quantity 1. The item count rises by 1 and the total by the item's price. |
| Cart.AddPreservesValid | src/context/cart-context.tsx:25-31 | If ids are distinct and quantities are at least 1 before an add, both still hold after it. |
| Cart.ReachableCarts | src/context/cart-context.tsx:20-39 | Every cart reached from the empty cart by adds has distinct ids and quantities of at least 1. Its `cartItemCount` equals the number of adds. |
| Cart.ItemCountConcat | src/context/cart-context.tsx:36-39 | `Cart.ItemCount`, the model of `cartItemCount`, is the sum of the line quantities. It is additive over concatenation of line lists. |
| Cart.TotalConcat | src/app/cart/page.tsx:21-24 | `Cart.Total`, the model of the pages' `total`, is the sum of price × quantity over the lines. It is additive over concatenation of line lists. |
| Cart.IncrementLineSums | src/context/cart-context.tsx:27-39 | Bumping lines raises the item count by the number of matching lines and the total by their prices. |
| Cart.LineAmounts | src/app/cart/page.tsx:70 | One printed amount per line, each equal to that line's price × quantity. |
| Cart.LineAmountsSumToTotal | src/app/cart/page.tsx:21-24 | The per-line amounts add up to the cart total. |
| Cart.BadgeIffNonEmpty | src/components/main-nav.tsx:67 | In a well-formed cart the badge condition `cartItemCount > 0` holds exactly when the cart has lines. |
| CartPage.Render | src/app/cart/page.tsx:21-110 | The empty-state card shows exactly when there are no lines. Otherwise the page shows the order summary `CartPage.SummaryOf`: one amount per line equal to price × quantity, amounts summing to the total, the subtotal equal to the total, and free shipping. |
| CartPage.EmptyCartView | src/app/cart/page.tsx:21-44 | The empty cart totals 0 and shows the empty state. |
| CartPage.AddRaisesShownTotal | src/app/cart/page.tsx:21-24 | One more unit of a line raises the shown total and subtotal by exactly that line's price. |
| Checkout.Render | src/app/checkout/page.tsx:28-207 | An empty cart returns the empty message and no order summary. Otherwise the form shows the same order summary the cart page builds: each line is price × quantity, the lines sum to the total, the subtotal equals the total, and shipping is free. The function only reads the cart. |
| Checkout.SameTotalAsCartPage | src/app/checkout/page.tsx:28-31 | Checkout shows the same lines and the same total as the cart page. |
| Ledger.Summarize | src/app/dashboard/cash-flow/page.tsx:76-84 | The cards over `Ledger.TotalIncome`, `Ledger.TotalExpense` and `Ledger.Net`. `netProfit` is income − expense. Income plus expense is the sum of all amounts, so every transaction counts on exactly one side. |
| Ledger.KindTotalsPartition | src/app/dashboard/cash-flow/page.tsx:76-82 | The income total and the expense total of any ledger add up to the sum of all its amounts. |
| Ledger.KindTotalConcat | src/app/dashboard/cash-flow/page.tsx:76-82 | Each per-type total is additive over concatenation of ledgers. |
| Ledger.NetConcat | src/app/dashboard/cash-flow/page.tsx:76-84 | The net is additive over concatenation of ledgers. |
| Ledger.AppendOne | src/app/dashboard/cash-flow/page.tsx:58-84 | Appending an income of amount a raises income by a and net by a, and leaves expense unchanged. An expense does the reverse. |
| Ledger.PrependOne | src/app/dashboard/personal-cash-flow/page.tsx:120-151 | The same for a transaction put at the front. |
| Ledger.DeleteByIdSpec | src/app/dashboard/cash-flow/page.tsx:72-74 | `Ledger.WithoutId`, the filter by id: afterwards no transaction has the id, every other transaction survives, nothing new appears, and an absent id changes nothing. |
| Ledger.WithoutIdConcat | src/app/dashboard/cash-flow/page.tsx:73 | Deletion distributes over concatenation, so the survivors keep their relative order. |
| Ledger.InsertByDate | src/app/dashboard/general-cash-flow/page.tsx:98 | Inserting into a date-sorted list keeps it sorted and adds exactly that element (multiset). |
| Ledger.SortByDate | src/app/dashboard/general-cash-flow/page.tsx:98 | The result is non-decreasing by date and a permutation of the input. |
| Ledger.SortByDateStable | src/app/dashboard/general-cash-flow/page.tsx:98 | The sort is stable: for every date, the transactions of that date come out in their input order. Entries of one ledger that share a date keep that ledger's order. |
| Ledger.SortByDateSorted | src/app/dashboard/general-cash-flow/page.tsx:98 | An already sorted list is returned unchanged, so re-sorting is idempotent. |
| Ledger.SortByDateTotals | src/app/dashboard/general-cash-flow/page.tsx:98 | Sorting leaves every per-type total unchanged. |
| Text.DistinctDescending | src/app/dashboard/personal-cash-flow/page.tsx:104 | `Array.from(set).sort().reverse()` gives a strictly descending list with exactly the input's elements. |
| Text.LessTotal | src/app/dashboard/personal-cash-flow/page.tsx:104 | `Text.Less`, the string order of `sort()`, is total: two distinct strings are ordered one way or the other. With `LessIrreflexive` and `LessTransitive` it is a strict total order. |
| Text.StrictlyDescendingUnique | src/app/dashboard/personal-cash-flow/page.tsx:104 | Two strictly descending lists with the same elements are equal, so the month list does not depend on insertion order. |
| Text.NatToString | src/app/dashboard/personal-cash-flow/page.tsx:78-79 | `toString()` of a natural number is a string of digits, with no leading zero, whose decimal value is the number. |
| Text.PadStart2Value | src/app/dashboard/personal-cash-flow/page.tsx:80 | `padStart(2, '0')` gives at least two digits with the same value. |
| Text.Prefix7 | src/app/dashboard/personal-cash-flow/page.tsx:99 | `substring(0, 7)` is a prefix of length min(7, length). |
| CashFlow.AddTransaction | src/app/dashboard/cash-flow/page.tsx:54-70 | An empty name or amount field leaves the list unchanged. Otherwise exactly one transaction with the form's fields is appended after the unchanged old ones. |
| CashFlow.DeleteTransaction | src/app/dashboard/cash-flow/page.tsx:72-74 | No survivor has the id, and every transaction with another id survives. |
| CashFlow.AddTransactionTotals | src/app/dashboard/cash-flow/page.tsx:54-84 | A valid income add raises `totalIncome` by its amount and leaves `totalExpense` unchanged. A valid expense add does the reverse. Net moves by ± the amount. A rejected add changes nothing. |
| CashFlow.DeleteTransactionTotals | src/app/dashboard/cash-flow/page.tsx:72-84 | Deleting a transaction whose id is unique takes exactly its amount off its own type's total. |
| CashFlow.RemoveUnique | src/app/dashboard/cash-flow/page.tsx:73 | Deleting a unique id removes just that element and keeps the parts before and after it. |
| PersonalCashFlow.MonthKey | src/app/dashboard/personal-cash-flow/page.tsx:76-81 | The key is the year's decimal string, then '-', then two digits whose value is the 1-based month. |
| PersonalCashFlow.MonthKeyIsDatePrefix | src/app/dashboard/personal-cash-flow/page.tsx:76-136 | For a four-digit year the key has 7 characters. It is therefore the `substring(0, 7)` of any date string starting with it. |
| PersonalCashFlow.AllMonths | src/app/dashboard/personal-cash-flow/page.tsx:98-105 | Strictly descending (no duplicates). Contains the current month and every transaction's month, and nothing else. |
| PersonalCashFlow.AddTransaction | src/app/dashboard/personal-cash-flow/page.tsx:107-124 | An empty name or amount field leaves the list unchanged. Otherwise exactly one new transaction is put in front of the unchanged old list. |
| PersonalCashFlow.DeleteCommutesWithView | src/app/dashboard/personal-cash-flow/page.tsx:126-136 | `handleDeleteTransaction` is the same filter by id as `CashFlow.DeleteTransaction`. Deleting and then viewing a month gives the same list as viewing the month and then deleting. |
| PersonalCashFlow.ClearMonthAsWritten | src/app/dashboard/personal-cash-flow/page.tsx:130-132 | Clearing empties the whole ledger, whatever month is selected. |
| PersonalCashFlow.ClearMonthLosesOtherMonths | src/app/dashboard/personal-cash-flow/page.tsx:130-132 | A January transaction does not survive clearing February. |
| PersonalCashFlow.ClearMonth | src/app/dashboard/personal-cash-flow/page.tsx:182-198 | The clear the dialog describes: only the selected month's transactions are removed, and all others survive. |
| PersonalCashFlow.ClearMonthEmptiesView | src/app/dashboard/personal-cash-flow/page.tsx:193 | After that clear the selected month shows nothing, and every other month's view is unchanged. |
| PersonalCashFlow.Displayed | src/app/dashboard/personal-cash-flow/page.tsx:134-136 | Shows exactly the transactions whose month, `PersonalCashFlow.MonthOf` (the seven-character prefix of the date), is the selected month. |
| PersonalCashFlow.DisplayedConcat | src/app/dashboard/personal-cash-flow/page.tsx:134-136 | The view keeps ledger order: the view of a ledger made of two parts is the first part's view followed by the second's. |
| PersonalCashFlow.MonthTotals | src/app/dashboard/personal-cash-flow/page.tsx:138-151 | Income is the sum of the amounts of the transactions that are in the selected month and are incomes. Expense is the same for expenses. Net is income − expense. |
| PersonalCashFlow.AddTransactionMonthTotals | src/app/dashboard/personal-cash-flow/page.tsx:107-151 | A new transaction changes the totals of the month it is dated in, by its amount on its own type, and no other month's totals. |
| Transfers.Other | src/app/dashboard/transfers/page.tsx:85 | The destination account is never the source account. |
| Transfers.NewTransfer | src/app/dashboard/transfers/page.tsx:84-99 | The record runs from the chosen account to the other one. |
| Transfers.AddTransfer | src/app/dashboard/transfers/page.tsx:80-135 | If the description, the amount or the source account is missing, or the database is unavailable, nothing changes. Otherwise it appends one transfer record with the fresh id, one expense entry to the source ledger and one income entry to the destination ledger. All else is unchanged. |
| Transfers.EntriesMatchTransfer | src/app/dashboard/transfers/page.tsx:108-129 | `Transfers.ExpenseEntry` and `Transfers.IncomeEntry` both carry the transfer's amount, its date and its id as `transferId`. The first is an expense and the second an income. |
| Transfers.AddTransferConserves | src/app/dashboard/transfers/page.tsx:108-129 | The source net drops by the amount and the destination net rises by it. The combined net of the two ledgers is unchanged. |
| Transfers.DeleteTransfer | src/app/dashboard/transfers/page.tsx:137-158 | Without a database connection nothing changes. Otherwise no record has the id afterwards and no entry in either ledger links to it. Every other record and entry survives, and everything left was there before. |
| Transfers.DeleteUnusedIsIdentity | src/app/dashboard/transfers/page.tsx:137-153 | Deleting an id nothing uses changes nothing. |
| Transfers.DeleteAppended | src/app/dashboard/transfers/page.tsx:137-153 | Deletion acts on old and newly added documents separately and keeps their order. |
| Transfers.AddThenDeleteRoundTrip | src/app/dashboard/transfers/page.tsx:80-153 | Adding a transfer under a fresh id and then deleting it restores the transfer list and both ledgers. |
| Transfers.DirectionTotalsCoverAll | src/app/dashboard/transfers/page.tsx:160-172 | `Transfers.DirectionTotal` sums the transfers leaving one account. The personal→business and business→personal totals sum to the total of all transfers. |
| Transfers.AddTransferDirectionTotals | src/app/dashboard/transfers/page.tsx:160-172 | A new transfer raises its own direction's total by its amount and leaves the other direction's total alone. |
| GeneralCashFlow.FindReport | src/app/dashboard/general-cash-flow/page.tsx:95-96 | Returns the first report of the month, or nothing when no report has that month. |
| GeneralCashFlow.SelectedTransactions | src/app/dashboard/general-cash-flow/page.tsx:93-96 | The current month uses the live list. Another month uses the first archived report for it, or the empty list when there is none. |
| GeneralCashFlow.CombinedView | src/app/dashboard/general-cash-flow/page.tsx:98 | Non-decreasing by date and a permutation of business ++ personal. |
| GeneralCashFlow.IndexOfMonth | src/app/dashboard/general-cash-flow/page.tsx:104 | Finds the merged entry for a month, or reports that there is none. |
| GeneralCashFlow.FirstAppearances | src/app/dashboard/general-cash-flow/page.tsx:101-116 | Reference: the distinct months in order of first appearance, without duplicates. |
| GeneralCashFlow.FirstAppearancesOrdered | src/app/dashboard/general-cash-flow/page.tsx:101-116 | The months come out in order of first appearance: for i < j, the i-th month first occurs in the input before the j-th month does. |
| GeneralCashFlow.MergeReportsCorrect | src/app/dashboard/general-cash-flow/page.tsx:101-116 | `GeneralCashFlow.MergeReports` folds `MergeInto` over the reports from left to right. Shown for every merged entry: (1) There is one entry per distinct month, in order of first appearance. (2) `totalIncome`, `totalExpense` and `netProfit` are sums over that month's input reports. (3) The transactions are that month's transactions as a multiset. (4) They are exactly the single report's list when only one report has the month. (5) They are re-sorted by date once a second report merges in. |
| GeneralCashFlow.MergeNewMonth | src/app/dashboard/general-cash-flow/page.tsx:111-113 | A report with a new month is appended as is. |
| GeneralCashFlow.MergeKnownMonth | src/app/dashboard/general-cash-flow/page.tsx:104-110 | `GeneralCashFlow.Combine` folds a report for a known month into that month's entry. The figures are added and the transactions merged and re-sorted, and the result still meets the reference description. |
| GeneralCashFlow.MergedNetConsistent | src/app/dashboard/general-cash-flow/page.tsx:106-109 | If every input report has net = income − expense, so does every merged entry. |
| GeneralCashFlow.UniqueMonths | src/app/dashboard/general-cash-flow/page.tsx:155 | Strictly descending (no duplicates), with exactly the merged reports' months. |
| GeneralCashFlow.Consolidate | src/app/dashboard/general-cash-flow/page.tsx:131-153 | The per-ledger cards are each ledger's income and expense totals. Consolidated income and expense are their sums. Net is income − expense, which is the sum of the two ledgers' nets. |
| GeneralCashFlow.ConsolidatedMatchesCombinedView | src/app/dashboard/general-cash-flow/page.tsx:98-153 | For any two lists, the consolidated cards computed from them equal the totals of their combined, sorted table. |
| GeneralCashFlow.CardsMatchTable | src/app/dashboard/general-cash-flow/page.tsx:93-153 | Intended behaviour: the cards of the selected month, computed from the lists the table is built from, equal the table's totals. |
| GeneralCashFlow.CardListsAsWritten | src/app/dashboard/general-cash-flow/page.tsx:93-134 | The lists the page reads the cards from once the merge has run. For the current month they are the live lists. For an archived month, the first report of the month (business before personal) shares its array with the merged entry. So the business list holds every transaction of the month across both ledgers whenever the business ledger has a report for it, and the personal list stays that ledger's own first report. Otherwise the personal list holds them all, and with no report in either ledger both lists are empty. |
| GeneralCashFlow.CardsAsWrittenDoubleCount | src/app/dashboard/general-cash-flow/page.tsx:101-134 | An archived month with one report in each ledger: the business card as written includes the personal report's transactions. The consolidated totals then exceed the table's by the personal report's totals. |
| MainNav.ActiveEntries | src/components/main-nav.tsx:34-139 | Returns exactly the sidebar entries for which `MainNav.IsActive` holds. `IsActive` matches the root entry on '/' only, and every other entry as a raw prefix of the pathname. |
| MainNav.RootOnlyOnRoot | src/components/main-nav.tsx:35 | The catalog entry '/' is active exactly when the pathname is '/'. |
| MainNav.DashboardAndEntryActive | src/components/main-nav.tsx:36-91 | On any path under an admin entry, both '/dashboard' and that entry are active. |
| MainNav.RawPrefixMatch | src/components/main-nav.tsx:36 | Matching is a raw string prefix: '/cart' is active on '/cartx', while '/' is not. |
| MainNav.CartBadge | src/components/main-nav.tsx:67 | The badge renders, showing `cartItemCount`, exactly when that count is positive. |
| MainNav.BadgeAfterAdds | src/components/main-nav.tsx:67 | After n ≥ 1 adds the badge shows n. |
| Customers.Split | src/app/dashboard/customers/page.tsx:24 | `split(' ')` yields at least one segment, none containing a space, and they join back to the name. |
| Customers.SplitJoin | src/app/dashboard/customers/page.tsx:24 | Joining space-free segments with ' ' and splitting again gives the segments back. |
| Customers.SplitAfterWord | src/app/dashboard/customers/page.tsx:24 | A space-free word followed by a space splits off as the first segment. |
| Customers.UpperChar | src/app/dashboard/customers/page.tsx:26 | a–z and à–þ (except ÷) map to their upper case, 32 code points down. ÿ maps to Ÿ and µ to Greek capital mu. Every other character is unchanged. |
| Customers.Initials | src/app/dashboard/customers/page.tsx:25-26 | One character per non-empty segment, in order: the upper case of its first character. Empty segments add nothing. |
| Customers.GetInitials | src/app/dashboard/customers/page.tsx:23-27 | Its length is the number of non-empty space-separated segments. Each character is the upper case of its segment's first character. |
| Customers.SingleWordInitial | src/app/dashboard/customers/page.tsx:23-27 | A single word gives exactly one initial. |
| Customers.FullNameInitials | src/app/dashboard/customers/page.tsx:126 | Non-empty one-word first and last names give exactly two initials. |
| Customers.DoubleSpaceInitials | src/app/dashboard/customers/page.tsx:24-25 | A doubled space adds no initial. |
| AddProduct.Validate | src/app/dashboard/add-product/page.tsx:29-41 | Accepted exactly when name and description are non-empty, the price parses to a positive number and the inventory to a number ≥ 0. The accepted data is those fields, with `isFlagship` defaulting to false. On rejection each error is reported exactly when its rule fails. |
| AddProduct.Submit | src/app/dashboard/add-product/page.tsx:73-106 | With no database or an empty image, nothing is written. Otherwise exactly one record is appended: the validated fields plus the image. The image URL is then cleared. |
| AddProduct.SubmitKeepsCatalogWellFormed | src/app/dashboard/add-product/page.tsx:29-106 | Validating and then submitting only ever writes records that satisfy the schema and carry an image. |

## Left out

- Database access is modelled as sequential updates of in-memory sequences. This covers the collection hooks, id generation and non-blocking writes. Ids are parameters. An asynchronous write that fails halfway through a transfer is not modelled. When the transfer delete's query for linked entries fails, the record is already deleted and the entries stay. The model deletes both or, without a connection, neither.
- `localStorage` loading and `JSON.parse` on the consolidated page are I/O. The four lists are inputs.
- GeneralCashFlow.Consolidate: is stated over the lists the table is built from. On the page, the shallow `{ ...report }` copy makes the selected archived month's list share its array with the merged entry. The merge then extends that array, so the cards can include other reports' transactions. That behaviour is modelled separately, by `GeneralCashFlow.CardListsAsWritten` (see Findings).
- GeneralCashFlow.ConsolidatedMatchesCombinedView: holds for the intended cards, not for the page as written. For an archived month with reports in both ledgers, or two reports in one, the page's cards exceed the table (`GeneralCashFlow.CardsAsWrittenDoubleCount`).
- The consolidated page's current-month totals, computed after the merge and never used, are not modelled.
- `new Date()` is a parameter: `now`, `date`, `year`, `monthIndex`, `currentMonth`. Also not modelled: the local-time month key versus the UTC `toISOString` date, `getMonthName` and its pt-BR month names, and BRL currency formatting.
- `parseFloat` and `parseInt` are a `parse` parameter (ledger forms) or `Option<int>` fields (product form).
- Ledger and transfer forms: a non-numeric amount that `parseFloat` turns into NaN is not modelled. This covers the ledger forms and the transfer form (src/app/dashboard/transfers/page.tsx:84), both of which take the same `parse` parameter. The page would store NaN, and `Transfers.AddTransferConserves` holds only for the integer amounts the model admits. The product form does model NaN: its price is `None`, and the schema rejects it.
- Form clearing: resetting the form fields after a submit is not modelled. This covers the ledger forms, the transfer form's `setDescription('')` and `setAmount('')` (src/app/dashboard/transfers/page.tsx:132-133), and the product form's `reset()` (src/app/dashboard/add-product/page.tsx:104). `AddProduct.Submit` models only the image reset at line 105.
- Amounts are integer cents. Floating-point rounding of money is not modelled.
- The business cash-flow page's records have no date. The model stores the creation time there, which the page also uses as the id.
- Dates are compared as strings, which matches `getTime()` for same-format ISO-8601 strings. Invalid dates, whose `getTime()` is NaN, are not modelled.
- String order is by Unicode scalar value. JavaScript compares UTF-16 code units, and the two differ only for characters outside the Basic Multilingual Plane.
- Customers.UpperChar: maps only a–z, à–þ except ÷, ÿ and µ. Every other character is left unchanged, including letters outside Latin-1 that `toUpperCase` maps. Multi-character results such as 'ß' → "SS", which would lengthen the initials, are not produced.
- Customers.GetInitials: takes a segment's first Unicode scalar value. The page's `n[0]` takes the first UTF-16 code unit, so a name starting with a character outside the Basic Multilingual Plane gives a lone surrogate there and a whole character here.
- Checkout: the payment and personal-data form fields are presentation only.
- The router push after adding to the cart is navigation.
- The AI flows and their pages, authentication, the dashboard's static statistics, catalog rendering, and the orders and inventory pages are left out. They are external services or static presentation.

## Findings

| source | as written | input that shows it | evidently intended | confidence | as-written member | corrected member |
|---|---|---|---|---|---|---|
| src/app/dashboard/personal-cash-flow/page.tsx:130-132 | `handleClearMonth` empties the whole ledger. | A ledger with one January transaction, cleared with February selected, loses the January transaction. | The dialog (line 193) says that month's transactions are deleted, so only the selected month should be removed. | high (not executed) | PersonalCashFlow.ClearMonthLosesOtherMonths | PersonalCashFlow.ClearMonthEmptiesView |
| src/app/dashboard/general-cash-flow/page.tsx:101-134 | The merge copies the first report of each month shallowly. The selected archived month's business list is the same array, which the merge extends with the month's other reports before the cards are computed. | An archived month with a business report holding an income of 100 and a personal report holding an income of 50 gives a table income of 150 and card income of 200. | The cards sum the same transactions the table shows. | high (not executed) | GeneralCashFlow.CardsAsWrittenDoubleCount | GeneralCashFlow.CardsMatchTable |
