# Ledger for companies — a verified model of its bookkeeping core

The system is a small accounting web application. Accounts (parties, banks,
general-ledger accounts) carry an opening balance. Transactions post debits
and credits against them. Ledger views show a running balance with daily or
monthly subtotals. Inventory movements are valued at weighted average cost.
The application also has bulk importers, search routes, a CSV export and a
few interactive widgets.

This project models the computational core of that system in Dafny:

- the running-balance and per-period totals engine (`Ledger`);
- the weighted-average-cost engine (`Wac`);
- the transaction routes: ledger read, search and bulk import
  (`TransactionsRoute`, `TransactionsSearch`, `TransactionsBulk`);
- the product, category, party/bank search and inventory routes
  (`Products`, `Categories`, `AccountSearch`, `Inventory`);
- the CSV export (`Csv`);
- the client logic of the ledger-entry sheet, the ledger table, the sidebar
  and the party autocomplete (`CreateLedger`, `LedgerTable`, `Sidebar`,
  `PartyAutocomplete`).

Shared pieces are in their own modules:

- `Text`: `trim`, `split`, `toLowerCase` and `Number(...)` on decimal text;
- `SearchParams`: the clamped `limit` parameter;
- `Dates`: instants, day/month buckets and Mongo date windows;
- `Json`: meta values;
- `Wrappers`: `Option` and `Result`.

Pure code is modelled as functions with lemmas. Loops that build results
step by step are methods with loop invariants, proved equal to a
reference function. Stateful components are classes whose methods state
their whole new state. Database queries are modelled by what they select
from a given collection. The database itself, `ObjectId.isValid`,
`new Date(text)`, date formatting and regular-expression matching are passed
in as parameters.

## Model

| member | source | states |
|---|---|---|
| Ledger.NetAppend | src/lib/ledger.ts:28-33 | The net (debits minus credits) of two consecutive runs of transactions is the sum of their nets. |
| Ledger.RunningRows | src/lib/ledger.ts:15-45 | There is one ledger row per transaction. |
| Ledger.RunningAt | src/lib/ledger.ts:19-36 | Row i carries transaction i's fields and the balance opening + net of transactions 0..i. |
| Ledger.ComputeRunning | src/lib/ledger.ts:15-45 | The loop that accumulates `running += debit - credit` produces exactly `RunningRows`. |
| Ledger.RunningStep | src/lib/ledger.ts:28-33 | Each balance is the previous balance plus this transaction's debit minus credit. |
| Ledger.RunningSplit | src/lib/ledger.ts:15-45 | Running a ledger over a+b is running a, then running b from a's closing balance. |
| Ledger.GroupTotals | src/lib/ledger.ts:47-59 | The Map-building loop yields, in first-seen key order, each bucket's debit sum, credit sum and last running balance. |
| Ledger.NoRowsNoTotals | src/lib/ledger.ts:50-55 | A key no row falls into has zero debit, credit and closing. |
| Ledger.FirstSeenKeysAreTheKeys | src/lib/ledger.ts:50-58 | The listed keys are distinct and are exactly the buckets of the rows. |
| Ledger.FirstSeenOrder | src/lib/ledger.ts:57-58 | Bucket a precedes bucket b only if some row of a comes before every row of b. |
| Ledger.ClosingIsLastRow | src/lib/ledger.ts:51-55 | A bucket's closing is the running balance of its last row. |
| Ledger.BucketsPartitionTotals | src/lib/ledger.ts:47-59 | Summing a side over all buckets gives that side's total over all rows. |
| Ledger.GroupSpec | src/lib/ledger.ts:47-59 | One item per distinct bucket key, keys never repeated, the period echoed; the items' debits (credits) add up to the debits (credits) of all rows. |
| Ledger.SeedExample | src/app/api/dev/seed/route.ts:11-16 | For the seeded account (opening 500000 debit) the balances are 400000, 550000, 542500, and there are two day buckets with the right sums. |
| Wac.InsertPermutes | src/lib/wac.ts:13 | Inserting by date adds exactly that movement to the bag. |
| Wac.InsertSorted | src/lib/wac.ts:13 | Inserting into a date-sorted list keeps it sorted. |
| Wac.SortByDate | src/lib/wac.ts:13 | The date sort returns a date-ordered permutation of its input. |
| Wac.AtDateAppend | src/lib/wac.ts:13 | The movements at one date of a+b are those of a followed by those of b. |
| Wac.NothingAtEarlierDate | src/lib/wac.ts:13 | A sorted list whose first date is later than d holds nothing at d. |
| Wac.InsertAtDate | src/lib/wac.ts:13 | Insertion appends the movement after those of the same date. |
| Wac.SortIsStable | src/lib/wac.ts:13 | The sort is stable: movements with equal dates keep their input order. |
| Wac.Replay | src/lib/wac.ts:14-26 | The replayed quantity is purchases minus consumptions. |
| Wac.TotalsWithout | src/lib/wac.ts:17-26 | Removing one movement takes its quantity out of the purchased or the consumed total. |
| Wac.TotalsArePermutationInvariant | src/lib/wac.ts:17-26 | Purchased and consumed totals do not depend on the order of the movements. |
| Wac.ComputeSummary | src/lib/wac.ts:12-29 | The loop yields the replay of the date-sorted movements. Its qty is purchases minus consumptions, avg is value/qty when qty > 0 and 0 otherwise, and no movements gives all zeros. |
| Wac.SortedQty | src/lib/wac.ts:12-29 | The final quantity after sorting is purchases minus consumptions. |
| Wac.Apply | src/lib/wac.ts:18-25 | A purchase adds its quantity and its cost at its rate (0 when absent); any other movement takes its quantity out, and when stock remains on hand the average cost does not move. |
| Wac.Summarize | src/lib/wac.ts:27-28 | The summary carries the stock's quantity and value; avg is value/qty when qty > 0 and 0 otherwise. |
| Wac.OversellIsNotClamped | src/lib/wac.ts:17-28 | Selling 5 from nothing leaves qty -5, value 0, avg 0. |
| Wac.WorkedExample | src/lib/wac.ts:12-29 | Buying 100@10 and 50@12, then selling 60 (given out of order), gives qty 90, value 960, avg 32/3. |
| Wac.SortedPermutationsAgree | src/lib/wac.ts:13 | Two date-sorted orderings of the same movements with distinct dates are equal. |
| Wac.OrderOfInputIrrelevant | src/lib/wac.ts:12-29 | With distinct dates, the summary does not depend on the order in which the movements are given. |
| Csv.Show | src/utils/csv.ts:5 | `null`/`undefined` print as the empty string and strings as themselves. |
| Csv.Escape | src/utils/csv.ts:5 | Doubling quotes adds one character per quote. |
| Csv.UnescapeEscape | src/utils/csv.ts:5 | Escaping can be undone. |
| Csv.QuoteAll | src/utils/csv.ts:6-8 | Each field is wrapped in quotes, one output per field. |
| Csv.Labels | src/utils/csv.ts:6 | The header line lists the header labels in order. |
| Csv.CellsOf | src/utils/csv.ts:8 | A row's cells are the values at the header keys, in header order. |
| Csv.Cells | src/utils/csv.ts:7-8 | One cell line per row, in order. |
| Csv.Lines | src/utils/csv.ts:6-9 | One text line per table line. |
| Csv.QuotedBodyRoundTrip | src/utils/csv.ts:5 | An escaped value followed by a closing quote reads back as that value. |
| Csv.FieldRoundTrip | src/utils/csv.ts:6-8 | A quoted field reads back as its value, with the rest of the input left over. |
| Csv.FieldsRoundTrip | src/utils/csv.ts:6-8 | A joined line of quoted fields reads back as its fields. |
| Csv.LinesRoundTrip | src/utils/csv.ts:7-10 | Lines joined with newlines read back as the table. |
| Csv.ToCsvRoundTrip | src/utils/csv.ts:1-11 | The export reads back as the header labels followed by each row's cells: nothing is lost or shifted, whatever the values hold (quotes, commas, newlines). |
| Csv.NoRowsIsHeaderLine | src/utils/csv.ts:10 | With no rows the export is the header line and a trailing newline, which reads back as the header alone. |
| Csv.ToCsv | src/utils/csv.ts:1-11 | The export starts with the header line followed by a newline. |
| TransactionsRoute.SignedOpening | src/app/api/transactions/route.ts:35 | The opening balance counts positive for a debit opening and negative otherwise; a missing balance counts as 0. |
| TransactionsRoute.PreWindow | src/app/api/transactions/route.ts:37-38 | The pre-query selects dates strictly before `from`, or everything when `from` is absent. |
| TransactionsRoute.RangeWindow | src/app/api/transactions/route.ts:48-54 | The range query selects dates with from ≤ date ≤ to, each bound only when given. |
| TransactionsRoute.Select | src/app/api/transactions/route.ts:40-42 | A query returns no more transactions than the account has. |
| TransactionsRoute.SelectKeepsMatches | src/app/api/transactions/route.ts:56-60 | A query returns exactly the transactions inside its window. |
| TransactionsRoute.SelectKeepsOrder | src/app/api/transactions/route.ts:56-60 | A query keeps the (date, _id) order of the account's transactions. |
| TransactionsRoute.PeriodOf | src/app/api/transactions/route.ts:20 | A missing or empty period means "day"; any other value is kept. |
| TransactionsRoute.OpeningAsWritten | src/app/api/transactions/route.ts:35-45 | Without `from`, the route's opening is the signed opening plus the net of the whole history. |
| TransactionsRoute.Opening | src/app/api/transactions/route.ts:35-45 | The intended opening: the signed opening alone without `from`, and the route's opening when `from` is given. |
| TransactionsRoute.Get | src/app/api/transactions/route.ts:14-66 | An invalid id or unknown account gives the empty reply. Otherwise the opening is what the route's pre-query gives: the signed opening plus the net of the transactions before `from`, or of every transaction when `from` is absent. The rows are the running ledger of the window from that opening, and the totals are grouped by period. When `from` is given and the history is chronological, the shown rows are the tail of the account's whole ledger up to `to`. |
| TransactionsRoute.NothingBeforeInRange | src/app/api/transactions/route.ts:48-54 | No transaction strictly before `from` lies in the range window. |
| TransactionsRoute.PreThenRange | src/app/api/transactions/route.ts:37-54 | For chronological history, the pre-rows followed by the range rows are all rows up to `to`. |
| TransactionsRoute.ShownRowsAreHistoryTail | src/app/api/transactions/route.ts:34-62 | The running ledger up to `to` from the signed opening equals the pre-rows' ledger followed by the shown rows from the computed opening. The shown balances continue the account's history. |
| TransactionsRoute.OpeningAsWrittenCountsTwice | src/app/api/transactions/route.ts:37-45 | Without `from`, the route's pre-query counts every transaction in the opening as well as in the rows: a single debit of 100 shows a balance of 200. |
| TransactionsRoute.SelectUnbounded | src/app/api/transactions/route.ts:37-54 | A query with no date bound returns every transaction, in order. |
| TransactionsRoute.OpeningAsWrittenDoubleCounts | src/app/api/transactions/route.ts:37-62 | For any non-empty history requested without `from` or `to`, the route shows every transaction and its last balance is the signed opening plus twice the net; the intended opening ends it at the signed opening plus the net once. |
| TransactionsSearch.ToObjectId | src/app/api/transactions/search/route.ts:8-11 | An id converts only when present, non-empty and valid, and then to itself. |
| TransactionsSearch.TxLimit | src/app/api/transactions/search/route.ts:44-45 | The limit lies in [1, 2000]; it is 500 when missing, empty or not a number. |
| TransactionsSearch.PushedMeaning | src/app/api/transactions/search/route.ts:48-83 | An `$and` of the pushed clauses holds exactly when every pushed clause holds; an empty `$and` becomes `{}`. |
| TransactionsSearch.TextClauseMeans | src/app/api/transactions/search/route.ts:50-57 | The text clause holds exactly when `q` is empty or matches the description or voucher number. |
| TransactionsSearch.DateClauseMeans | src/app/api/transactions/search/route.ts:59-64 | The date clause holds exactly when the date lies within the given bounds. |
| TransactionsSearch.PartyClauseMeans | src/app/api/transactions/search/route.ts:66-70 | With a valid party id, a transaction matches when either its `accountId` or its `account` field is that id. Otherwise the clause holds for every transaction. |
| TransactionsSearch.CategoryClauseMeans | src/app/api/transactions/search/route.ts:72-81 | With a category, a transaction matches on a top-level `categoryId` (as ObjectId when valid, else raw) or on `meta.categoryId`. |
| TransactionsSearch.ClausesMeanWanted | src/app/api/transactions/search/route.ts:48-81 | The four clauses together hold exactly for the wanted transactions. |
| TransactionsSearch.BuildQuery | src/app/api/transactions/search/route.ts:38-83 | The query is `{}` exactly when no parameter applies. A transaction satisfies the query exactly when it is wanted by every given parameter. |
| TransactionsSearch.NormalizeRow | src/app/api/transactions/search/route.ts:93-101 | A row keeps id and date; a missing voucher number or description becomes '', a missing debit or credit 0; meta is kept when it is an object and becomes `{}` otherwise. |
| TransactionsSearch.SumsAppend | src/app/api/transactions/search/route.ts:103-110 | Debit and credit sums split over concatenation. |
| TransactionsSearch.Totals | src/app/api/transactions/search/route.ts:103-110 | The reduce yields the sums of the rows' debits and credits. |
| TransactionsSearch.Respond | src/app/api/transactions/search/route.ts:93-110 | One normalised row per document, and totals equal to the documents' debit and credit sums. |
| TransactionsBulk.AccountOf | src/app/api/transactions/bulk/route.ts:56-59 | A row posts to its party exactly when `partyId` is non-empty and valid, otherwise to "Unassigned". |
| TransactionsBulk.Normalize | src/app/api/transactions/bulk/route.ts:44-69 | A row is skipped exactly when it has no date or is blank (no amount, no description, no voucher). A kept row has the parsed date, trimmed description, trimmed voucher (absent when empty), its amounts, account and category meta. |
| TransactionsBulk.Normalized | src/app/api/transactions/bulk/route.ts:44-70 | Each incoming row has one outcome. |
| TransactionsBulk.Each | src/app/api/transactions/bulk/route.ts:44-70 | The loop considers each row independently, in order. |
| TransactionsBulk.Post | src/app/api/transactions/bulk/route.ts:21-76 | A missing or empty body inserts nothing. Otherwise the documents are the kept rows in order, and `inserted` is their count, at most the number of rows. |
| TransactionsBulk.KeptDocsBound | src/app/api/transactions/bulk/route.ts:44-72 | No more documents than rows are produced. |
| TransactionsBulk.KeptDocsAppend | src/app/api/transactions/bulk/route.ts:44-70 | Importing a+b produces a's documents followed by b's. |
| TransactionsBulk.NormalizedAppend | src/app/api/transactions/bulk/route.ts:44-70 | Row outcomes split over concatenation. |
| TransactionsBulk.KeptDocsAreFilled | src/app/api/transactions/bulk/route.ts:50-54 | Every stored document has an amount or text, a trimmed description and a trimmed non-empty voucher if any. |
| TransactionsBulk.DatedAmountsAreAllKept | src/app/api/transactions/bulk/route.ts:45-54 | Rows that all have a date and a debit are all inserted. |
| Products.ListLimit | src/app/api/products/route.ts:23-24 | The list limit lies in [1, 300]: 300 when missing or not a number, 1 when empty. |
| Products.ListFilter | src/app/api/products/route.ts:22-27 | A name pattern is present exactly when `q` is non-empty, and is `q` itself. |
| Products.PriceOf | src/app/api/products/route.ts:37 | The listed price is `meta.price` when it is a number and absent otherwise. |
| Products.UnitOf | src/app/api/products/route.ts:38 | The listed unit is `meta.unit` when it is a string and '' otherwise. |
| Products.ListingOf | src/app/api/products/route.ts:35-46 | A listing keeps id and name, shows a missing code as '', and takes price and unit from meta. |
| Products.Listings | src/app/api/products/route.ts:35-46 | One listing per product, in order. |
| Products.Create | src/app/api/products/route.ts:51-87 | Invalid JSON and a missing or blank name give 400. Otherwise the product has the trimmed name and code, meta.price only for a numeric price, and meta.unit only for a non-blank unit (trimmed); the reply echoes these. |
| Products.CreatedListsAsReplied | src/app/api/products/route.ts:35-86 | A created product, once stored, is listed exactly as the creation reply described it. |
| Products.StoredListsAsReplied | src/app/api/products/route.ts:35-86 | Any stored product whose meta was built as the creation does lists as the reply. |
| Products.StoredPrice | src/app/api/products/route.ts:37-72 | A price stored by the creation reads back as the creation's number. |
| Products.StoredUnit | src/app/api/products/route.ts:38-72 | A unit stored by the creation reads back as the trimmed unit, or '' when none was stored. |
| Categories.SkipRun | src/app/api/categories/route.ts:16 | Skipping a run of non-slug characters leaves a suffix that starts with a slug character or is empty. |
| Categories.CollapseIsSlug | src/app/api/categories/route.ts:16 | Replacing each run of other characters by `-` gives only `[a-z0-9-]` with no `--`. |
| Categories.CollapseKeeps | src/app/api/categories/route.ts:16 | The replacement keeps every letter and digit, in order. |
| Categories.CollapseOfSlug | src/app/api/categories/route.ts:16 | A well-formed slug is unchanged by the replacement. |
| Categories.Collapse | src/app/api/categories/route.ts:16 | The replacement never lengthens the text and leaves a non-empty text non-empty. |
| Categories.Slug | src/app/api/categories/route.ts:16 | The slug of any name holds only `[a-z0-9-]` with no `--`, is no longer than the name, and is empty only for an empty name. |
| Categories.SlugKeepsLettersAndDigits | src/app/api/categories/route.ts:16 | The slug keeps the letters and digits of the lower-cased name. |
| Categories.SlugIsIdempotent | src/app/api/categories/route.ts:16 | Slugging a slug changes nothing. |
| Categories.SlugEnds | src/app/api/categories/route.ts:16 | Leading and trailing runs become dashes; they are not stripped. |
| Categories.Create | src/app/api/categories/route.ts:11-27 | A missing or empty name gives 400. A name of white space only passes that test but fails the schema's `required` check once trimmed. Otherwise the stored name is the trimmed name, non-empty and unchanged by a second trim. The slug comes from the name as sent, and is already in the form the schema's `trim` and `lowercase` on it (src/models/LedgerCategory.ts:12-13) produce. The category has the four default columns date, description, debit, credit. |
| Categories.StoredSlugUnchanged | src/models/LedgerCategory.ts:13 | A well-formed slug is unchanged by the schema's trim and lower-casing. |
| AccountSearch.EscapeRegex | src/app/api/parties/search/route.ts:7 | Escaping adds one backslash per metacharacter. |
| AccountSearch.EscapeRegexIsLiteral | src/app/api/banks/search/route.ts:8 | The escaped text is a pattern that matches exactly the original text (literally). |
| AccountSearch.PlainTextIsUnchanged | src/app/api/parties/search/route.ts:7 | Text without metacharacters is not changed. |
| AccountSearch.FilterFor | src/app/api/parties/search/route.ts:14-19 | The filter has the account type, and a case-insensitive name condition exactly when the trimmed `q` is non-empty, whose pattern spells the trimmed `q` literally. |
| AccountSearch.SearchLimit | src/app/api/banks/search/route.ts:22-23 | The limit lies in [1, 50]; it is 10 when missing, empty or not a number. |
| AccountSearch.SelectsMeaning | src/app/api/banks/search/route.ts:25-26 | A filter for a kind and text keeps exactly accounts of that kind whose name contains the text, ignoring case. |
| AccountSearch.FilterMeaning | src/app/api/banks/search/route.ts:21-26 | The route's filter keeps exactly the accounts of its kind whose name contains the trimmed query. |
| AccountSearch.Choices | src/app/api/banks/search/route.ts:33-37 | One `{ id, name, code }` per account in order, with a missing code shown as ''. |
| AccountSearch.Matching | src/app/api/parties/search/route.ts:21 | The query returns no more accounts than exist. |
| AccountSearch.MatchingMembers | src/app/api/parties/search/route.ts:21 | The query returns exactly the accounts the filter selects. |
| AccountSearch.Listed | src/app/api/parties/search/route.ts:23-26 | At most `limit` choices are listed. |
| AccountSearch.ListedAt | src/app/api/parties/search/route.ts:23-26 | The listed choices are the first accounts found, in order. |
| AccountSearch.ListedAll | src/app/api/parties/search/route.ts:23-26 | When no more than `limit` accounts are found, all of them are listed. |
| AccountSearch.ListedCount | src/app/api/parties/search/route.ts:15-16 | The number of results let through lies in [1, 50]. |
| AccountSearch.Get | src/app/api/parties/search/route.ts:11-28 | The route never lists more than 50 entries, and lists none exactly when no account matches. |
| AccountSearch.Search | src/app/api/banks/search/route.ts:21-37 | The search lists exactly as many entries as the smaller of the limit and the number of matching accounts. |
| AccountSearch.FoundMembers | src/app/api/parties/search/route.ts:14-21 | The accounts found are exactly those of the requested kind whose name contains the trimmed query. |
| AccountSearch.SearchIsSound | src/app/api/banks/search/route.ts:21-37 | Every listed entry is the entry of a found account of the right kind whose name contains the query. |
| AccountSearch.SearchIsComplete | src/app/api/banks/search/route.ts:21-37 | When the matches fit within the limit, every matching account is listed. |
| SearchParams.ClampedNumber | src/app/api/banks/search/route.ts:23 | A number is clamped to [1, hi]: values below go to 1, above go to hi, inside are kept; a non-number gives the fallback. |
| SearchParams.LimitOr | src/app/api/parties/search/route.ts:15-16 | With `||`, a missing, empty or non-numeric parameter gives the fallback, and the result lies in [1, hi]. |
| SearchParams.LimitNullish | src/app/api/products/route.ts:23-24 | With `??`, only a missing parameter gives the fallback; an empty one reads as 0 and clamps to 1. |
| SearchParams.InRangeIsKept | src/app/api/products/route.ts:23-24 | A numeric parameter inside the range is used as it is, under either fallback style. |
| Inventory.ToEngine | src/app/api/inventory/summary/route.ts:26-37 | Opening and purchase movements become purchases; the other types keep their type. Date is kept, a missing qty is 0, and a numeric rate is kept. |
| Inventory.ToEngineAll | src/app/api/inventory/summary/route.ts:26-37 | One engine movement per stored movement, in order. |
| Inventory.Summary | src/app/api/inventory/summary/route.ts:13-42 | A missing or invalid productId gives 400. Otherwise the reply is the WAC summary of the product's movements, whose qty is purchases minus consumptions. |
| Inventory.OpeningDoc | src/app/api/inventory/opening/bulk/route.ts:22-36 | An opening row becomes an opening movement of its product, on its parsed date, with no party and no selling rate, at avgCost (0 when absent); meta holds exactly value = qty × avgCost, avgCost and note ('' when absent). |
| Inventory.PurchaseDoc | src/app/api/inventory/purchases/bulk/route.ts:34-43 | A row becomes a purchase movement of its quantity at its rate, with its date, party and product, no selling rate, and its meta or `{}`. |
| Inventory.OpeningBulk | src/app/api/inventory/opening/bulk/route.ts:15-43 | A body that is missing, empty or holds an invalid row gives 400. Otherwise there is one opening movement per row, in order. |
| Inventory.OpeningRowValuation | src/app/api/inventory/opening/bulk/route.ts:22-34 | An imported opening alone values the stock at the row's qty and value, with average avgCost when qty is positive. |
| Inventory.WasteDoc | src/app/api/inventory/purchases/bulk/route.ts:45-54 | A row's waste becomes a waste movement of the waste quantity, with the row's date, party and product, without a rate, with the row's meta and reason "purchase-row" unless one is given. |
| Inventory.ExpandPurchases | src/app/api/inventory/purchases/bulk/route.ts:32-55 | The loop yields each row's purchase, followed by its waste when there is some; there is one document per row plus one per waste. |
| Inventory.PurchasesBulk | src/app/api/inventory/purchases/bulk/route.ts:24-58 | A missing, empty or invalid body gives 400. Otherwise the documents are the expanded rows. |
| Inventory.Expand | src/app/api/inventory/purchases/bulk/route.ts:32-55 | The expansion has one document per row plus one per waste. |
| Inventory.ExpandAppend | src/app/api/inventory/purchases/bulk/route.ts:32-55 | Expanding a+b is expanding a, then b. |
| Inventory.ExpandLayout | src/app/api/inventory/purchases/bulk/route.ts:32-55 | Row i's purchase sits at index i plus the wastes before it, and its waste follows it directly. |
| Inventory.PurchaseRowStock | src/app/api/inventory/purchases/bulk/route.ts:34-54 | A purchase row with waste adds qty at its rate, then takes out the waste at the new average. |
| Inventory.SalesBulk | src/app/api/inventory/sales/bulk/route.ts:22-41 | A missing, empty or invalid body gives 400. Otherwise there is one sale per row with its qty, sell rate and meta, and no cost rate. |
| Inventory.SaleIsCostedAtAverage | src/app/api/inventory/sales/bulk/route.ts:30-38 | An imported sale takes its quantity out of stock at the running average cost. |
| Inventory.SaleDoc | src/app/api/inventory/sales/bulk/route.ts:30-38 | A row becomes a sale movement of its quantity, with its date, party, product and selling rate, no cost rate, and its meta or `{}`. |
| CreateLedger.Num | src/app/components/CreateLedgerClient.tsx:140 | An empty cell counts as 0, a number as itself, and numeric text as its value. |
| CreateLedger.PerRowRemaining | src/app/components/CreateLedgerClient.tsx:161-169 | Row i's remaining is the account closing plus total due minus credit over rows 0..i. |
| CreateLedger.Totals | src/app/components/CreateLedgerClient.tsx:172-181 | The footer sums the total-due, debit and credit columns, and the remaining is the account closing plus the net due. |
| CreateLedger.NetDueIsDueMinusCredit | src/app/components/CreateLedgerClient.tsx:172-181 | The net due is the total-due column sum minus the credit column sum. |
| CreateLedger.RemainingIsLastRow | src/app/components/CreateLedgerClient.tsx:161-181 | The footer's remaining equals the last row's remaining. |
| CreateLedger.DebitDoesNotMoveRemaining | src/app/components/CreateLedgerClient.tsx:161-169 | Editing a debit cell does not change any remaining. |
| CreateLedger.EmptyRows | src/app/components/CreateLedgerClient.tsx:183-185 | n new rows, each empty. |
| CreateLedger.FirstEmptyRow | src/app/components/CreateLedgerClient.tsx:200 | The index found is the first row with no date, description or amounts, and none when no row is empty. |
| CreateLedger.FetchedClosingIsNet | src/app/components/CreateLedgerClient.tsx:149-155 | The closing taken from a fetched ledger is its opening plus the net of its transactions. |
| CreateLedger.Sheet.constructor | src/app/components/CreateLedgerClient.tsx:102-130 | The sheet starts with ten empty rows, closing 0 and not yet seeded. |
| CreateLedger.Sheet.AddRows | src/app/components/CreateLedgerClient.tsx:183-185 | n empty rows are appended; nothing else changes. |
| CreateLedger.Sheet.SetCell | src/app/components/CreateLedgerClient.tsx:187-195 | Only the named cell of the named row changes. |
| CreateLedger.Sheet.OnDateChanged | src/app/components/CreateLedgerClient.tsx:212-226 | The row gets the date. When it has no total due, it gets the remaining of the rows above it; other cells and rows are untouched. |
| CreateLedger.Sheet.OnAccountChanged | src/app/components/CreateLedgerClient.tsx:149-155 | The closing becomes the fetched ledger's closing (0 when none) and seeding is re-armed. |
| CreateLedger.Sheet.SeedFirstRow | src/app/components/CreateLedgerClient.tsx:198-209 | For an account ledger, once, the first empty row gets the positive closing as total due. Otherwise nothing changes. |
| CreateLedger.CustomKeys | src/app/components/CreateLedgerClient.tsx:233 | The custom columns are exactly the columns other than the core keys. |
| CreateLedger.MetaOf | src/app/components/CreateLedgerClient.tsx:235-239 | Meta holds exactly the custom keys whose cells are filled, with their values. |
| CreateLedger.BuildMeta | src/app/components/CreateLedgerClient.tsx:235-239 | The loop yields that meta. |
| CreateLedger.Save | src/app/components/CreateLedgerClient.tsx:232-256 | The saved payload is each row's payload, keeping only those with a date, an amount, a description or a voucher number. |
| CreateLedger.SavePayloadShape | src/app/components/CreateLedgerClient.tsx:233-256 | No more payloads than rows, each worth saving, with meta only from filled custom columns. |
| CreateLedger.TotalDueAloneIsDropped | src/app/components/CreateLedgerClient.tsx:254-256 | A row holding only a total due is not saved. |
| LedgerTable.GetMeta | src/app/components/LedgerTable.tsx:31-43 | The loop follows the dotted path through objects and stops with nothing at the first missing key; missing meta gives nothing. |
| LedgerTable.DescendAppend | src/app/components/LedgerTable.tsx:35-41 | Following a+b is following a, then b from there. |
| LedgerTable.SingleSegment | src/app/components/LedgerTable.tsx:31-43 | A path without dots reads that key of meta. |
| LedgerTable.DottedPath | src/app/components/LedgerTable.tsx:31-43 | "head.rest" reads head, then follows rest. |
| LedgerTable.ColumnValue | src/app/components/LedgerTable.tsx:113-119 | A `meta.` column reads the meta path; the date column shows the formatted date. |
| LedgerTable.RunEndsInSubtotal | src/app/components/LedgerTable.tsx:96-104 | Every row is followed, within its bucket, by exactly one subtotal row at the end of its run. |
| LedgerTable.SubtotalIsLastOfItsKey | src/app/components/LedgerTable.tsx:96-104 | In chronological rows, no later row shares a subtotalled row's bucket. |
| LedgerTable.OneSubtotalPerKey | src/app/components/LedgerTable.tsx:96-104 | In chronological rows, each bucket gets one subtotal. |
| LedgerTable.LastByKey | src/app/components/LedgerTable.tsx:46-50 | The map holds exactly the keys of the totals. |
| LedgerTable.TotalsByKey | src/app/components/LedgerTable.tsx:46-50 | The loop yields that map, with later totals overriding earlier ones. |
| LedgerTable.LastByKeyOfDistinct | src/app/components/LedgerTable.tsx:46-50 | With distinct keys, each total is found under its own key. |
| LedgerTable.SubtotalOf | src/app/components/LedgerTable.tsx:165-177 | A missing bucket's subtotal shows 0, 0, 0; otherwise its debit, credit and closing. |
| LedgerTable.ClosingOfLastRow | src/app/components/LedgerTable.tsx:96-105 | The last row of a bucket has the bucket's closing as its running balance. |
| LedgerTable.SubtotalMatchesItsRows | src/app/components/LedgerTable.tsx:96-177 | A subtotal row shows its bucket's debit and credit sums and the running balance of the row above it. |
| Sidebar.ActiveHref | src/app/components/Sidebar.tsx:48-60 | The loop picks the longest item exactly equal to, or a `/`-prefix of, the path; the dashboard only on `/admin` itself. |
| Sidebar.LongestMatches | src/app/components/Sidebar.tsx:49-56 | The pick is '' or a matching item. |
| Sidebar.LongestIsLongest | src/app/components/Sidebar.tsx:49-56 | No matching item is longer than the pick. |
| Sidebar.Active | src/app/components/Sidebar.tsx:48-60 | The active href is '' or a matching item, and no matching item is longer. When some item other than '' and the dashboard matches, the active href is not ''. |
| Sidebar.LongestFindsSection | src/app/components/Sidebar.tsx:49-58 | When an item other than '' and the dashboard matches, the pick is neither '' nor the dashboard standing in for a sub-path. |
| Sidebar.ShortMatchUnderAdmin | src/app/components/Sidebar.tsx:51-53 | Under `/admin/`, a matching href of at most six characters is '' or `/admin`. |
| Sidebar.DashboardOnlyWhenExact | src/app/components/Sidebar.tsx:58 | The dashboard is active only on `/admin` itself. |
| Sidebar.ItemsAreDistinct | src/app/components/Sidebar.tsx:7-17 | The menu hrefs are distinct. |
| Sidebar.AtMostOneActive | src/app/components/Sidebar.tsx:47-79 | At most one menu item is highlighted. |
| Sidebar.OnlyFirstMatches | src/app/components/Sidebar.tsx:49-56 | When only the first item matches, it is picked. |
| Sidebar.NoSectionForLookalikePath | src/app/components/Sidebar.tsx:51-53 | `/admin/categoriesX` highlights nothing: a prefix must end at `/`. |
| PartyAutocomplete.Down | src/app/components/PartyAutocomplete.tsx:78-80 | ArrowDown moves to the next option, starts at 0 from none, stops at the last one, and gives -1 for an empty list. |
| PartyAutocomplete.Up | src/app/components/PartyAutocomplete.tsx:81-83 | ArrowUp moves to the previous option, wraps from none to the last, and stops at 0. |
| PartyAutocomplete.EnterChoice | src/app/components/PartyAutocomplete.tsx:84-86 | Enter chooses exactly when the active index is a valid position, and then that party. |
| PartyAutocomplete.ArrowsKeepIndexOk | src/app/components/PartyAutocomplete.tsx:78-83 | The arrows keep the index within the list (or -1 when it is empty). |
| PartyAutocomplete.EmptyListUpThenEnter | src/app/components/PartyAutocomplete.tsx:81-86 | On an empty list ArrowUp sets index 0, and Enter then chooses nothing. |
| PartyAutocomplete.PressesDown | src/app/components/PartyAutocomplete.tsx:78-80 | n ArrowDowns move n places, stopping at the last option. |
| PartyAutocomplete.Box.constructor | src/app/components/PartyAutocomplete.tsx:22-25 | The box starts closed, with the given text, no list and no active option. |
| PartyAutocomplete.Box.SyncValue | src/app/components/PartyAutocomplete.tsx:29 | A new parent value replaces the text only. |
| PartyAutocomplete.Box.Type | src/app/components/PartyAutocomplete.tsx:69 | Typing sets the text and reports a name-only choice. |
| PartyAutocomplete.Box.Focus | src/app/components/PartyAutocomplete.tsx:70 | Focus opens the list. |
| PartyAutocomplete.Box.PressOutside | src/app/components/PartyAutocomplete.tsx:48-55 | A mouse press outside closes the list. |
| PartyAutocomplete.Box.Fetched | src/app/components/PartyAutocomplete.tsx:38-42 | Results replace the list and activate the first option (none when empty). |
| PartyAutocomplete.Box.Choose | src/app/components/PartyAutocomplete.tsx:57-61 | Choosing reports the party, shows its name and closes. |
| PartyAutocomplete.Box.MouseEnter | src/app/components/PartyAutocomplete.tsx:107 | Hovering an option makes it active. |
| PartyAutocomplete.Box.KeyDown | src/app/components/PartyAutocomplete.tsx:76-90 | When closed, keys do nothing. Otherwise the arrows move the index, Enter chooses the active party if there is one, and Escape closes. |
| Text.TrimStart | src/app/api/transactions/bulk/route.ts:50 | The result is a suffix of the input starting with a non-space. |
| Text.TrimEnd | src/app/api/transactions/bulk/route.ts:50 | The result is a prefix of the input ending with a non-space. |
| Text.Trim | src/app/api/transactions/bulk/route.ts:50-51 | The result is a slice of the input that neither starts nor ends with whitespace. |
| Text.TrimTwice | src/app/api/products/route.ts:60-63 | Trimming is idempotent. |
| Text.TrimCutsSpace | src/app/api/transactions/bulk/route.ts:50-51 | Only whitespace is cut, at both ends. |
| Text.TrimEmpty | src/app/api/products/route.ts:65 | A string trims to empty exactly when it is all whitespace. |
| Text.Split | src/app/components/LedgerTable.tsx:33 | Splitting gives at least one part, none holding the separator. |
| Text.JoinSplit | src/app/components/LedgerTable.tsx:33 | Joining the parts of a split gives back the string. |
| Text.SplitJoin | src/app/components/LedgerTable.tsx:33 | Splitting a join of separator-free parts gives back the parts. |
| Text.SplitPrefix | src/app/components/LedgerTable.tsx:33 | Splitting "p.tail" gives p followed by the parts of tail. |
| Text.LowerChar | src/app/api/categories/route.ts:16 | Upper-case ASCII letters go to lower case; every other character is kept. |
| Text.Lower | src/app/api/categories/route.ts:16 | Lower-casing keeps the length. |
| Text.LowerAt | src/app/api/categories/route.ts:16 | Lower-casing works character by character. |
| Text.NumberOfDigits | src/app/api/products/route.ts:23 | `Number` of a string of digits is its decimal value. |
| Text.NumberOfNatText | src/app/api/parties/search/route.ts:15 | `Number` of a fallback numeral such as '10' is that number. |
| Text.JsNumber | src/app/api/banks/search/route.ts:22 | `Number` of a blank string is 0, and of a string of digits (white space trimmed) its decimal value. |
| Dates.KeyBetween | src/lib/ledger.ts:50 | A date between two dates of one bucket lies in that bucket. |
| Dates.KeyOf | src/lib/ledger.ts:50 | A date's bucket is its calendar day when the period is "day" and its year and month otherwise. |

## Left out

- Persistence. The model has no database connection, no `insertMany` or `create` calls and no `.sort`/`.limit` evaluation. A collection is a sequence in (date, _id) order, and a `limit` is a count applied to the matches.
- Categories.Create: the duplicate-key error that the unique index on `slug` raises when another category has the same slug is not modelled, because the model has no collection of stored categories. The `createdAt` and `updatedAt` timestamps are not modelled either.
- The transaction `POST` that creates a single transaction (src/app/api/transactions/route.ts:69-105) is not modelled. It is a schema-validated insert with no logic beyond it.
- The creation of the "Unassigned" account in the bulk import is not modelled. Rows without a valid party post to an abstract `Unassigned` reference.
- `ObjectId.isValid`, `new Date(text)`, zod parsing of the inventory bodies and dayjs formatting are parameters or abstract predicates. Date bucket keys are the `Key` datatype rather than formatted strings. Time zones are not modelled.
- Text.JsNumber: only optionally signed decimal numerals with surrounding white space are read. NaN, Infinity, hexadecimal, binary and octal literals and exponent notation are read as not a number. NaN and Infinity do fall back to the default in the routes, but `Number` gives a finite value for the literal and exponent forms, which the routes then clamp: `limit=1e2` lists 50 entries and `limit=0x10` lists 16, while the model falls back to the default. The limits of SearchParams.ClampedNumber, SearchParams.LimitOr, SearchParams.LimitNullish, TransactionsSearch.TxLimit, AccountSearch.SearchLimit and Products.ListLimit differ from the source for such input.
- Text.Lower: lower-cases ASCII letters only; Unicode case mapping is not modelled.
- Floating-point arithmetic is modelled as exact real arithmetic. Rounding and NaN do not occur in the model.
- Regular-expression matching. In the party and bank search, a pattern is given a meaning only when it spells literal text, which is all the routes produce. The raw `q` patterns of the product list and the transaction search are passed to an abstract `regexMatch`.
- Request bodies whose fields have the wrong JSON type (for example a numeric `name`) are not modelled. Fields are strings or absent.
- AccountSearch.ListedCount: a fractional `limit` is cut to its whole part; how the database treats fractional limits is outside the model.
- Csv.Show: numbers are printed through a `showNum` parameter instead of JavaScript's `String(...)`; booleans print as "true" and "false" directly; `toLocaleString` in the table is not modelled.
- LedgerTable.GetMeta: arrays and prototype properties reached through `in` are not modelled; meta values are JSON values.
- React rendering, fetch calls, debouncing, DOM events and styling are not modelled. The components are modelled through their state and event handlers.
- The inventory summary over all products (src/app/api/inventory/summary/all/route.ts) is not part of this model.
- Wac.OrderOfInputIrrelevant: proved for movements with distinct dates only. With equal dates, the stable sort keeps input order (Wac.SortIsStable), and the order of the movements can then change the average.

## Findings

| source | as written | input that shows it | evidently intended | confidence | as-written member | corrected member |
|---|---|---|---|---|---|---|
| src/app/api/transactions/route.ts:37-45 | Without `from`, the pre-query has no date condition. Every transaction of the account is then counted in the opening and again in the rows. | An account with opening 0 (debit) and one debit of 100, requested without `from` or `to`: the row shows a balance of 200. | The opening holds only transactions strictly before `from`, and none when `from` is absent; the row then shows 100. | not executed | TransactionsRoute.OpeningAsWrittenDoubleCounts | TransactionsRoute.ShownRowsAreHistoryTail |
