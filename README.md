# Apex-PoS core, modelled in Dafny

Apex-PoS is a point-of-sale system for a shop selling in Kuwaiti dinars. It has three parts:

- an Express server over PostgreSQL (`server.js`);
- a React front end: the sales page, the administrator dashboard, and the credit-sale and credit-payment dialogs;
- a browser API client (`services/apiClient.ts`).

This project models the bookkeeping at the heart of the system and proves what it promises:

- **The contractor credit ledger.** Contractors buy on credit up to a limit and pay back later. Each credit sale or payment moves the contractor's `total_credits` and appends a `credit_transactions` row whose `balance_after` records the new balance. The store keeps an invariant (`Server.DbOk`): every contractor's balance is its log replayed from 0, every snapshot is the balance after its row, and the balance is never negative. Every handler preserves that invariant.
- **Document numbering.** The next `SALE-2025-NNNNNN` or `REFUND-2025-NNNNNN` is computed in SQL: the largest numeric suffix plus one, padded to six digits by `LPAD`. The model covers PostgreSQL's truncation past six digits, the INTEGER overflow of `MAX(...) + 1`, and the refund query as written, which reads the suffix from the wrong position; the refund handler uses that query, so after REFUND-2025-010000 it answers 500.
- **The handlers** for sales, refunds, users, contractors, credit sales and payments. Each is a guard chain with a fixed error order and fixed status codes. Each is a method on the class `Server.Store`, proved equal to a pure outcome function, and the properties are proved about that function.
- **Cart and pricing on the sales page.** Adding (with merging), updating and removing lines are methods on `SalesPage.Page` over its cart. They are proved equal to functions whose properties are lemmas: one line per item, every line priced, exactly one position removed. Also modelled: the clamped discount, the total and the submit guard.
- **The credit dialogs.** Covered are the contractor search, the unclamped discount and the request shape of a credit sale, and which contractors a payment may be taken from. Also covered is the default payment description, proved to agree with the server's.
- **The API client's** error-message selection, its status mapping for `login` and `getSaleByNumber`, and its checks before `createSale` and `createRefund`.
- **Reports.** The daily report (four fixed payment groups, top five items by quantity) and both CSV exports. The dashboard's export quotes each cell as section 2, rule 7 of RFC 4180 asks, and its `csvContent` text is proved to read back cell for cell (the data URI built from it is not modelled; see Left out).

Money and quantities are `real` (dinars and units). The model has no floating-point rounding. Dates are a day number. The database is a value `Server.Db` with one field per table, and each SERIAL id is the row's position plus one. The CHECK constraints of `scripts/init-db.js` are predicates on the row types (`Types.SaleRowOk`, `Types.SaleItemOk`, `Types.RefundAmountOk`). A row that breaks one makes its INSERT fail with 500.

Modules, one per file:
`Wrappers`, `Text` (trim, lower case, join/split), `Seqs` (filter), `Types` (types.ts and the CHECKs), `Ledger`, `Numbering`, `Server`, `Reports`, `Csv`, `SalesPage`, `CreditSales`, `CreditPayment`, `Dashboard`, `ApiClient`.

## Model

| member | source | states |
|---|---|---|
| Ledger.PaymentBalance | server.js:766 | `max(0, current - amount)`: never negative, 0 exactly when the amount covers the balance, never above the old balance for a non-negative payment |
| Ledger.LedgerAppend | server.js:704-715 | appending a row whose `balance_after` is the stepped balance keeps the log consistent with that balance |
| Ledger.TxnsOf | server.js:621-626 | a contractor's rows are rows of that contractor only, no more than the whole log |
| Ledger.TxnsOfMembership | server.js:621-626 | a row is in a contractor's log exactly when it is in the whole log and names that contractor |
| Ledger.SqlSum | server.js:803-805 | SQL `SUM` is NULL over no rows, otherwise the sum of that type's amounts |
| Ledger.ReplayBetweenNetAndDebts | server.js:766 | the replayed balance is between (credit sales − payments) and the credit sales: the floor only forgives overpayment |
| Ledger.ReplayWithoutPayments | server.js:669 | with no payments the balance is the sum of the credit sales |
| Ledger.History | server.js:621-626 | the 50 newest rows, newest first: row i is the (i+1)-th from the end |
| Ledger.HistoryNewestFirst | server.js:621-626 | ids decrease along the history, and every row left out is older than every row shown |
| Numbering.DigitsOfValue | server.js:307 | `n::text` read back as digits gives n |
| Numbering.LpadDigitsValue | server.js:307 | below one million, `LPAD(n::text, 6, '0')` is six digits worth n |
| Numbering.MaxSuffix | server.js:307 | `COALESCE(MAX(CAST(SUBSTRING(...))),0)` fails exactly when a matching row's cast fails; otherwise it bounds every suffix and, when non-zero, is one of them |
| Numbering.NextNumber | server.js:306-310 | the next number exists exactly when every cast succeeds and `MAX(...) + 1` stays within INTEGER, and is the prefix followed by six characters |
| Numbering.NextNumberFresh | server.js:306-310 | with the suffix read from where it starts and all suffixes below 999999, the next number is new and its suffix exceeds every existing one |
| Numbering.SaleNumberFresh | server.js:306-310 | the next sale number is not yet taken while every sale suffix is below 999999 |
| Numbering.SaleNumberWrapsAfterMax | server.js:307 | after 999999 the seven digits of 1000000 are truncated by `LPAD` to 100000, a number already issued |
| Numbering.AsWrittenSuffixAgrees | server.js:416 | for an issued refund number below 10000, reading from 15 and from 13 give the same suffix |
| Numbering.RefundAsWrittenFreshBelow10000 | server.js:415-419 | as written, the refund number is still fresh while every refund suffix is below 10000 |
| Numbering.RefundAsWrittenCollides | server.js:416 | as written, after REFUND-2025-010000 the query proposes REFUND-2025-010000 again |
| Numbering.RefundNumberFresh | server.js:415-419 | with the suffix read from 13, the refund number is fresh while suffixes are below 999999 |
| Numbering.RefundCorrectedAfterCollisionCase | server.js:416 | with the suffix read from 13, the same two refunds lead to REFUND-2025-010001 |
| Server.BearerToken | server.js:52-57 | a token is only produced from a present header and is never empty |
| Server.BearerTokenOfHeader | server.js:53 | `Bearer <t>` yields t; no header yields no token |
| Server.FirstBadItem | server.js:322-328 | every line before the index passes the `sale_items` CHECKs, and the one at the index (if any) fails |
| Server.InsertSaleOk | server.js:314-328 | inserting a sale and its lines one by one, stopping at the first rejected line, keeps the database invariant |
| Server.RecordSaleSpec | server.js:292-348 | a sale is created exactly when numbering, the CHECKs and the number's uniqueness allow; it is completed, has the cashier's id, the method and total sent, the next sale number and all its lines; contractors and ledger are untouched; otherwise 500 |
| Server.RecordSaleNumberFresh | server.js:306-310 | while every sale suffix is below 999999 the generated number is not taken |
| Server.OrNull | server.js:594 | `x \|\| null`: empty or absent becomes NULL, anything else is kept |
| Server.LimitOrDefault | server.js:594 | `credit_limit \|\| 10000`: absent or 0 becomes 10000 |
| Server.CreateContractorSpec | server.js:582-607 | a blank name gets 400 with nothing written; otherwise the new contractor has a fresh id, the trimmed non-empty name, balance 0, the defaulted limit and an empty log, and no other table changes; the invariant holds |
| Server.CreditSaleRejections | server.js:654-677 | unknown contractor: 404, nothing written; `current + total > credit_limit`: 400, nothing written; reaching the limit exactly is not refused |
| Server.CreditSaleAccepted | server.js:679-715 | an accepted credit sale stores a completed credit sale for the contractor with its lines, sets the balance to exactly old + total, within the limit, and appends one credit-sale row of the total whose snapshot is the new balance |
| Server.CreditSaleOk | server.js:642-742 | a credit sale, accepted or not, keeps the ledger and table invariants |
| Server.PaymentDescription | server.js:779 | `description \|\| ``${payment_method} payment``` |
| Server.PaymentSpec | server.js:747-796 | missing or non-positive amount: 400 before any look-up; unknown contractor: 404; neither writes; otherwise the balance becomes `max(0, old − amount)`, between 0 and the old balance, one payment row is appended and the returned balance equals its snapshot; invariant kept |
| Server.BalanceIsReplay | server.js:705-715 | in every valid state a contractor's balance is its log replayed from 0, and is non-negative |
| Server.ContractorDetails | server.js:610-641 | 404 exactly for an unknown id; otherwise the contractor and its 50 newest rows |
| Server.HistoryHeadIsBalance | server.js:621-626 | the newest history row's `balance_after` is the contractor's current balance |
| Server.CreditReportOf | server.js:799-819 | 404 exactly for an unknown id; otherwise the contractor's row, the size of its log, and the SQL sums (NULL over no rows) of its credit sales and of its payments |
| Server.CreditReportBracketsBalance | server.js:803-805 | in a valid state the balance lies between debts − payments and the debts (a NULL sum read as 0), and is the debts when nothing was paid |
| Server.RefundSpec | server.js:406-439 | with the number query as written: unknown sale: 404, nothing written; a stored refund has the number the as-written query proposes, not used before, the request's sale, amount and reason, the actor as creator, and marks that sale refunded whatever its status, changing no other sale or field; a failed INSERT writes nothing; invariant kept |
| Server.RefundCollisionIsServerError | server.js:415-437 | as written, with REFUND-2025-009999 and REFUND-2025-010000 stored, a refund of a known sale gets 500 and nothing is written |
| Server.RefundCreatedBelow10000 | server.js:415-434 | while every refund suffix is below 10000, a refund of a known sale with an acceptable amount and a reason is stored |
| Server.RoleOf | server.js:179 | only `admin` and `cashier` are roles |
| Server.CreateUserSpec | server.js:159-203 | guards in order: non-admin 403; missing credentials, username under 3, password under 6, unknown role 400; 409 exactly when all pass and the username is taken; 201 exactly when all pass and the username is free; a created user is named after its new username |
| Server.FreshOk | scripts/init-db.js:153-157 | the tables as created, holding only the seeded users with distinct usernames, satisfy the invariant |
| Server.Store.InsertLines | server.js:322-328 | the `for…of` loop appends the lines up to the first one a CHECK rejects, and reports whether it stopped |
| Server.Store.RecordSale | server.js:292-348 | the handler's new state and response are those of `RecordSaleOutcome`, and the invariant is kept |
| Server.Store.CreateContractor | server.js:582-607 | new state and response are those of `CreateContractorOutcome`; invariant kept |
| Server.Store.CreditSale | server.js:642-742 | new state and response are those of `CreditSaleOutcome`; invariant kept |
| Server.Store.Charge | server.js:704-715 | the UPDATE of the balance and the INSERT of the credit-sale row, as `ChargeOutcome` |
| Server.Store.CreditPayment | server.js:747-796 | new state and response are those of `PaymentOutcome`; invariant kept |
| Server.Store.CreateRefund | server.js:406-439 | new state and response are those of `RefundOutcome`, numbering as written; invariant kept |
| Server.Store.CreateUser | server.js:159-203 | new state and response are those of `CreateUserOutcome`; invariant kept |
| Reports.SalesOn | server.js:474-477 | the day's sales are sales of that day only |
| Reports.SalesOnMembership | server.js:474-477 | a sale is counted exactly when it is of that day, whatever its status |
| Reports.MethodTotalsSumToRevenue | server.js:479-494 | the four payment groups add up to the revenue |
| Reports.MethodTotalUnused | server.js:489-494 | a method no sale used contributes 0 |
| Reports.SalesByPayment | server.js:479-494 | exactly four entries, Cash, KNET, Cheque, Credit in that order, each the `SUM(total_amount)` of that method's sales (0 when none), together the revenue |
| Reports.Names | server.js:497-501 | `GROUP BY item_name_en`: each sold name once, and only sold names |
| Reports.InsertDescending | server.js:502 | inserting into a list sorted by decreasing total keeps it sorted |
| Reports.SortDesc | server.js:502 | the sort is a permutation of the groups |
| Reports.SortDistinct | server.js:501-502 | sorting keeps the names distinct |
| Reports.TopItemsLength | server.js:503 | the top list has min(number of items sold, 5) entries |
| Reports.TopItemsOrdered | server.js:502-503 | the top list is in decreasing quantity and names each item once |
| Reports.LinesOnMembership | server.js:498-500 | a line is counted for the day exactly when one of the rows carries it and its sale was made that day |
| Reports.TopItemsValues | server.js:497-507 | each entry is an item sold that day with the sum of its quantities |
| Reports.TopItemsExcluded | server.js:502-503 | an item sold but left out sold no more than any item shown |
| Reports.DailyReportSpec | server.js:469-520 | the count is the number of the day's sales and the revenue their sum; the breakdown is the four fixed groups, each the sum of that method's sales of the day, together the revenue; the top list has at most five entries in decreasing quantity |
| Reports.DailyReportAbsentMethod | server.js:489-494 | a method nobody paid with that day is shown with 0 |
| Reports.ServerCells | server.js:544-553 | eight cells, one under each header: the sale number, the date and time texts, the cashier's name (`null` when absent), the status, the total text, the method and `knet_reference \|\| cheque_number \|\| ''` |
| Reports.QuoteInCellBreaksRecord | server.js:557 | as written, a reference holding `"` gives a record that does not parse |
| Reports.QuoteCommaSplitsCell | server.js:557 | as written, a reference holding `","` reads back as two cells |
| Reports.AsWrittenAgreesWithoutQuotes | server.js:557 | without quotes in a cell the as-written wrapping is the RFC 4180 quoting |
| Reports.HeaderOnlyExport | server.js:555-558 | a day without sales exports the header line alone, which reads back as the header and no rows |
| Reports.ServerCsvRoundTrip | server.js:543-558 | with quoting, the export reads back as the header and every row's eight cells; a day without sales is the header line alone and reads back as no rows |
| Csv.Escape | components/Dashboard.tsx:115 | escaping never shortens a cell |
| Csv.ReadQuotedEscape | components/Dashboard.tsx:115 | an escaped cell followed by its closing quote reads back as the cell |
| Csv.CellRoundTrip | components/Dashboard.tsx:115 | stripping the outer quotes and halving doubled quotes gives back any cell |
| Csv.RecordRoundTrip | components/Dashboard.tsx:115 | a record of quoted cells joined by commas reads back as its cells |
| Csv.RecordsRoundTrip | components/Dashboard.tsx:114-116 | records joined by line feeds read back in order |
| Csv.DocumentRoundTrip | components/Dashboard.tsx:110-116 | a plain header line and quoted records read back as the header and the rows |
| Dashboard.ItemsCell | components/Dashboard.tsx:107 | no items give an empty cell, one item gives `name (qty)`, and more items give the first's `name (qty)`, `; `, then the cell of the rest |
| Dashboard.RowOf | components/Dashboard.tsx:98-108 | nine cells in header order; sale number, cashier, status, method, `knet_reference \|\| cheque_number \|\| ''` and the items cell in their columns |
| Dashboard.ExportRoundTrip | components/Dashboard.tsx:82-116 | the `csvContent` text (before `encodeURI`) reads back as the header and every sale's nine cells, whatever quotes, commas or line feeds they hold |
| Dashboard.UpdatePrice | components/Dashboard.tsx:140 | same length; the matching item takes the new price, every other item is unchanged |
| Dashboard.UpdatePriceStep | components/Dashboard.tsx:133-140 | without an item being edited or with an empty price field the list is unchanged; otherwise it is `UpdatePrice` with the edited item's id and the returned price |
| Dashboard.UpdatePriceKeepsList | components/Dashboard.tsx:140 | ids, names and units stay, and repeating the update changes nothing |
| Dashboard.DeleteItem | components/Dashboard.tsx:186 | no item with that id is left |
| Dashboard.DeleteItemSpec | components/Dashboard.tsx:186 | an item stays exactly when its id differs, in the original order |
| Dashboard.AddItem | components/Dashboard.tsx:153-167 | refused with "All fields are required" exactly when a field is empty; otherwise the created item is appended |
| Dashboard.AvgTicket | components/Dashboard.tsx:381-383 | 0 with no sales; otherwise the average times the count is the revenue |
| Dashboard.Percentage | components/Dashboard.tsx:399 | 0 when there is no revenue; otherwise the share times the total is 100 times the value, between 0 and 100 for a part of the total |
| Dashboard.PercentagesSumTo100 | components/Dashboard.tsx:396-399 | with revenue, the four method shares add up to 100 |
| SalesPage.FindLine | components/SalesPage.tsx:101 | `findIndex`: the first line of the item, or −1 when there is none |
| SalesPage.AddRejected | components/SalesPage.tsx:95-100 | no selection, an unknown item or a quantity that is not positive leaves the cart unchanged |
| SalesPage.AddMerges | components/SalesPage.tsx:101-108 | an item already in the cart grows its line by the quantity, re-priced, with the length and other lines unchanged |
| SalesPage.AddAppends | components/SalesPage.tsx:109-121 | a new item is appended as one line at its list price |
| SalesPage.AddKeepsCartWellFormed | components/SalesPage.tsx:94-122 | adding keeps one line per item and every line priced |
| SalesPage.UpdateQtySpec | components/SalesPage.tsx:133-139 | a negative quantity is a no-op; otherwise only that line changes, to the new quantity (0 allowed) re-priced; both cart invariants kept |
| SalesPage.Removed | components/SalesPage.tsx:141-145 | `splice(index, 1)`: the lines before the start stay, the ones after move up by one; an index past the end removes nothing |
| SalesPage.RemoveSpec | components/SalesPage.tsx:141-145 | exactly position `index` is removed (as a multiset too), the rest keep their order and both cart invariants |
| SalesPage.Page.AddItem | components/SalesPage.tsx:94-122 | the in-place update of the copied cart gives `AddedCart` |
| SalesPage.Page.UpdateQty | components/SalesPage.tsx:133-139 | the in-place update gives `UpdatedQty` |
| SalesPage.Page.Remove | components/SalesPage.tsx:141-145 | the `splice` gives `Removed` |
| SalesPage.SubtotalNonNegative | components/SalesPage.tsx:159-162 | lines with non-negative totals give a non-negative subtotal |
| SalesPage.SubtotalAppend | components/SalesPage.tsx:159-162 | the subtotal is the sum of the line totals, line by line |
| SalesPage.DiscountBounds | components/SalesPage.tsx:164-174 | in both modes the discount is between 0 and the subtotal, the total is subtotal − discount and between 0 and the subtotal, and the corrected percentage is between 0 and 100 |
| SalesPage.DiscountAsWritten | components/SalesPage.tsx:164-172 | `discountCalc` as written: the amount is the clamped one in both modes, amount mode reports 0 %, percent mode reports the typed value, and within [0, 100] it agrees with the corrected discount |
| SalesPage.PercentDiscountShare | components/SalesPage.tsx:168-170 | a percentage between 0 and 100 takes that share of the subtotal |
| SalesPage.CanSubmit | components/SalesPage.tsx:176-182 | a sale can be submitted only from a non-empty, idle page with a payment method chosen and, for KNET and cheque, a non-blank reference; cash and credit need nothing more |
| SalesPage.SaleRequestOf | components/SalesPage.tsx:190-200 | the request carries the cart, its subtotal, the discount and total, and only the chosen method's reference |
| SalesPage.SubmittedSalePassesClientCheck | components/SalesPage.tsx:177-182 | a sale the page lets through passes `createSale`'s reference checks |
| SalesPage.ClientCheckAllowsSubmit | components/SalesPage.tsx:177-182 | conversely, a sale the client would send can be submitted from a non-empty, idle page |
| SalesPage.SubmittedRowPassesChecks | components/SalesPage.tsx:164-174 | with the corrected discount the stored sale passes the `sales` CHECK constraints whatever was typed |
| SalesPage.RawPercentFailsCheck | components/SalesPage.tsx:170 | as written, 150 % on 10 KWD is applied as 100 % but reported as 150, which the CHECK refuses |
| SalesPage.RefundCall | components/SalesPage.tsx:247-255 | a refund is sent exactly with a loaded sale, a non-blank reason and confirmation |
| SalesPage.RefundIsFull | components/SalesPage.tsx:261-265 | the refund is always of the sale's whole total, with the trimmed reason |
| SalesPage.RecentAsWrittenShowsOldest | components/SalesPage.tsx:82 | as written, on a newest-first list of more than ten sales the page shows the ten oldest, oldest first, never the newest |
| SalesPage.RecentShowsNewest | components/SalesPage.tsx:82 | the corrected list is the newest ones, newest first, and everything left out is older |
| SalesPage.SubmitKeepsNewestFirst | components/SalesPage.tsx:204 | a new sale goes to the top, the list stays newest first and at most ten long |
| SalesPage.Page.LoadRecent | components/SalesPage.tsx:81-82 | the page's list becomes `slice(-10).reverse()` of the fetched sales, as written |
| SalesPage.Page.SaleCompleted | components/SalesPage.tsx:203-206 | the recorded sale goes in front of the list, cut to ten, and the cart is emptied |
| CreditSales.Matching | components/CreditSalesModal.tsx:101-103 | every contractor listed matches the search |
| CreditSales.MatchingSpec | components/CreditSalesModal.tsx:101-103 | a contractor is listed exactly when its lower-cased name contains the lower-cased term, in the original order |
| CreditSales.EmptySearchListsAll | components/CreditSalesModal.tsx:101-103 | an empty search lists everyone |
| CreditSales.AddContractor | components/CreditSalesModal.tsx:45-68 | refused with "Contractor name required" exactly for a blank name; otherwise the contractor is appended and selected |
| CreditSales.AddGuardAgreesWithServer | components/CreditSalesModal.tsx:46-49 | the dialog refuses exactly the names the server answers with 400 |
| CreditSales.TotalOf | components/CreditSalesModal.tsx:80 | `max(0, subtotal − discount)`: never negative |
| CreditSales.TotalBounded | components/CreditSalesModal.tsx:107 | a discount within [0, subtotal] gives a total within [0, subtotal] |
| CreditSales.UnclampedDiscounts | components/CreditSalesModal.tsx:79-80 | the discount is not clamped: −5 on 10 makes the total 15; 150 % makes it 0 |
| CreditSales.ConfirmSale | components/CreditSalesModal.tsx:70-90 | refused with "Select contractor and items" exactly without a contractor or items; otherwise the request carries the contractor's id, the items and their subtotal, the unclamped discount (the typed amount, or that percentage of the subtotal, with the typed percentage reported), `Math.max(0, subtotal − discount)` and the notes `Credit sale for <name>` |
| CreditSales.UnclampedDiscountRefused | components/CreditSalesModal.tsx:79-90 | the unclamped −5 KWD or 150 % reaches the server, whose insert refuses it under the `sales` CHECKs: 500, nothing written, although the limit allows the sale |
| CreditSales.ShownBalanceIsCharged | components/CreditSalesModal.tsx:267 | the "After Sale" balance is what the server checks against the limit, becomes the new balance when accepted, and above the limit the server answers 400 |
| CreditPayment.Outstanding | components/CreditPaymentModal.tsx:36 | only contractors who owe something are offered |
| CreditPayment.OutstandingSpec | components/CreditPaymentModal.tsx:36 | a contractor is offered exactly when its balance is positive, in order |
| CreditPayment.SearchKeepsOutstanding | components/CreditPaymentModal.tsx:65-67 | the search lists exactly the owing contractors whose name matches |
| CreditPayment.Description | components/CreditPaymentModal.tsx:54 | `description \|\| ``${paymentMethod} payment``` |
| CreditPayment.DescriptionAgreesWithServer | components/CreditPaymentModal.tsx:54 | the server keeps the client's description, and an empty one gets the same default on both sides |
| CreditPayment.ProcessPayment | components/CreditPaymentModal.tsx:42-63 | refused with "Select contractor and enter amount" exactly without a contractor or with an empty amount; otherwise the contractor's id, the parsed amount, the method and the defaulted description are sent |
| CreditPayment.PaymentDescribed | components/CreditPaymentModal.tsx:54 | a payment is never sent with an empty description |
| ApiClient.ErrorMessage | services/apiClient.ts:15-27 | JSON `error`, else JSON `message`, else `HTTP <status>`; for a non-JSON or unparsable body the status text, else `HTTP <status>`; never empty |
| ApiClient.HandleResponse | services/apiClient.ts:14-39 | throws exactly for a status outside 200-299, with the status and the chosen message; otherwise the JSON data, a parse error, or the text |
| ApiClient.ErrorMessageNeverEmpty | services/apiClient.ts:14-30 | a failure always carries a non-empty message |
| ApiClient.Login | services/apiClient.ts:48-72 | null exactly for 401; the user exactly for an ok JSON answer with one; other errors are raised with their status |
| ApiClient.GetSaleByNumber | services/apiClient.ts:236-260 | undefined exactly for 404; otherwise what `handleResponse` gives |
| ApiClient.CreateSaleCheck | services/apiClient.ts:187-195 | no error exactly when KNET has a non-blank reference and cheque a non-blank number; the KNET message is the one for KNET |
| ApiClient.CashAndCreditUnchecked | services/apiClient.ts:187-195 | cash and credit sales are never stopped |
| ApiClient.CreateRefund | services/apiClient.ts:271-294 | blank reason first, then `amount <= 0`, each with its message; otherwise the body with the trimmed reason |
| ApiClient.SentRefundIsAcceptable | services/apiClient.ts:277-294 | what is sent has a positive amount and a non-blank, already trimmed reason |
| Text.Trim | services/apiClient.ts:277 | `trim()`, over all of ECMAScript's white space and line terminators: empty exactly for a blank string, no white space at its ends, and no longer |
| Text.TrimIsSlice | services/apiClient.ts:277 | the result is a contiguous middle `s[a..b]` of the input, with only white space before `a` and after `b` |
| Text.TrimIdempotent | services/apiClient.ts:293 | trimming twice is trimming once |
| Text.JoinSplitOn | server.js:53 | joining the pieces of `split(c)` with c gives the string back |
| Seqs.FilterMembership | components/Dashboard.tsx:186 | an element survives `filter` exactly when it was there and passes the test |
| Seqs.FilterIsSubsequence | components/CreditSalesModal.tsx:101-103 | `filter` keeps the relative order |

## Left out

- Authentication: `jwt.sign`/`jwt.verify` and bcrypt are foreign libraries. The user making a request is a parameter of each handler; only the token's place in the header is modelled.
- Audit-log rows, console logging, CORS, the health checks and `/api/debug-login`: plumbing with no stateable core.
- Items (`/api/items`), sale look-ups and listings, refund look-ups and `/api/audit-logs`: plain queries outside the bookkeeping modelled here.
- Concurrency: the read-then-write race between the balance SELECT and UPDATE, and the missing transactions, are not modelled. Handlers run one at a time. The partial writes of a sale whose line is rejected are modelled.
- JavaScript coercion: `parseFloat`, `parseInt`, `Number(...) || 0`, NaN and node-pg's NUMERIC-as-string are not modelled. Parsed values are parameters (`Option<real>` where the parse can fail). The credit sale compares the raw `credit_limit`, which the model reads as a number.
- Floating point, `toFixed`, `format3`, `toLocaleDateString`/`toLocaleTimeString`: amounts are exact reals and rendered dates and totals are given as text.
- The DOM: the download link and data URI of the export, JSX, hooks, and form resets after a success. `Dashboard.ExportRoundTrip` is about the `csvContent` string, not the downloaded file: `encodeURI` (components/Dashboard.tsx:118) leaves `#` unescaped, so a cell holding `#` (a cheque number `#123`) starts the URI's fragment and the file is cut short there.
- The confirmation dialog of a refund is a boolean parameter of `SalesPage.RefundCall`.
- Cart aliasing: the page copies the cart array but mutates the shared line objects (`newCart[i].quantity += qty`). The model treats lines as values, so the old cart is never changed through the new one.
- `createContractor`, `createCreditSale`, `processPayment` and `getContractors` are called by the dialogs but do not exist in `services/apiClient.ts`. The dialogs are modelled up to the arguments they would send, and the server side is modelled instead.
- The daily report's `total_revenue` sums every sale of the day, cancelled and refunded ones included (server.js:474-479). The model follows the code, not a reading of the report as completed sales only.
- The dashboard CSV separates records with LF, not the CRLF of section 2, rule 1 of RFC 4180. The model follows the code, and the round trip is proved for LF.
- The ordering of equal totals in `ORDER BY total DESC`: SQL leaves it open, and the model fixes one, an insertion sort's.
- `Server.Store.RecordSale`, `Server.Store.CreditSale`: the sale's `items` and `cashier_name` fields of the JSON response are not modelled; the response is the stored sale row.
- ItemsCell: a sale stored without lines comes from `GET /api/sales` (server.js:355-368) with one `json_agg` item whose fields are all null, not an empty list; the model starts from the list of lines and gives such a sale an empty cell.
- Unicode case folding: `Text.ToLower` maps only A-Z, while `toLowerCase` folds every cased letter, so the contractor search treats `é` and `É` as different where the dialog does not. Unicode's case tables are outside this model.
- String lengths: Dafny's `string` counts code points, while the username and password length guards (server.js:173, 176) count UTF-16 units; the two differ only outside the Basic Multilingual Plane.
- Numbering.CastInteger: only a run of decimal digits is read as an INTEGER, while PostgreSQL's input also takes a leading sign and surrounding white space (`'+12'`, `' 7'`); every stored number is one the server generated, so no handler meets such a suffix.
- Request shapes: `Server.SaleRequest` and `Server.CreditSaleRequest` are typed, with real amounts, a `PaymentMethod` and a list of lines. server.js:292-348 takes whatever JSON arrives: a missing `subtotal` or `total_amount` fails NOT NULL with 500, an unknown `payment_method` fails the CHECK of scripts/init-db.js:65 with 500, and a missing `items` throws in the `for…of` after the sale row is stored, leaving a sale without lines and answering 500. None of these requests can be written in the model.
- The schema script: scripts/init-db.js creates no `contractors` or `credit_transactions` table, although `sales.contractor_id` references `contractors(id)` (scripts/init-db.js:60), so the script as it stands stops at the `sales` table. `Server.FreshOk` assumes all of the tables the server uses exist, empty apart from the seeded users.
- The seed guard `usersCheck.rows[0].count === 0` (scripts/init-db.js:147) compares node-pg's COUNT, which arrives as a string, with a number, so the default users are plausibly never inserted; `Server.FreshOk` holds for any list of users with distinct usernames, the empty one included.
- components/CreditSalesModal.tsx:162 and :266 write `contractor.(Number(total_credits) || 0)`, which is not valid TypeScript, so the dialog as written does not compile; both lines only display the current balance, which the model leaves out, and `CreditSales.BalanceAfter` follows line 267.
- Column limits: the VARCHAR(50) of `username`, `knet_reference` and `cheque_number`, the range and rounding of NUMERIC(10,3) and NUMERIC(5,2), the `sale_items.item_id` foreign key and ON DELETE RESTRICT on sold items would each make an INSERT or DELETE fail with 500; the model checks only the CHECK, UNIQUE and contractor references above, since these depend on data (the item table, text widths) it does not hold.
- Dashboard.AddItem, Dashboard.UpdatePrice, Dashboard.DeleteItem: only the success paths are modelled; the catch branches (components/Dashboard.tsx:145-147, 171-172, 189-191) leave the list unchanged and only set an error message, which belongs to the DOM.
- Page.SaleCompleted: the reset of the KNET reference, cheque number, discount field and payment choice after a sale, which are form fields and not part of `SalesPage.Page`.

## Findings

| source | as written | input that shows it | evidently intended | confidence | as-written member | corrected member |
|---|---|---|---|---|---|---|
| server.js:416 | the refund query reads the suffix with `SUBSTRING(refund_number FROM 15)`, but in `REFUND-2025-NNNNNN` the suffix starts at position 13 | refunds REFUND-2025-009999 and REFUND-2025-010000 exist; the suffix of the second reads as 0, so the next number is REFUND-2025-010000 again and the INSERT fails on UNIQUE, so the handler as modelled answers 500 (Server.RefundCollisionIsServerError) | read from position 13, giving REFUND-2025-010001 | high, not executed | Numbering.RefundAsWrittenCollides | Numbering.RefundNumberFresh |
| components/SalesPage.tsx:82 | the list of recent sales is `salesData.slice(-10).reverse()` on a list the server sorts newest first | any newest-first list of eleven or more sales: the page shows the ten oldest, oldest first, and not the newest sale | the ten newest first, as after a sale (`[sale, ...recentSales].slice(0, 10)`) | medium, not executed | SalesPage.RecentAsWrittenShowsOldest | SalesPage.RecentShowsNewest |
| components/SalesPage.tsx:170 | in percent mode the applied percentage is clamped to [0, 100] but `percent: val` reports the raw value | 150 % on a 10 KWD cart: 100 % is applied but 150 is sent as `discount_percentage`, which the `sales` CHECK (0-100) refuses, so the sale fails with 500 | report the clamped percentage that was applied | high, not executed | SalesPage.RawPercentFailsCheck | SalesPage.SubmittedRowPassesChecks |
| server.js:557 | the server CSV wraps each cell as `"${cell}"` without doubling the quotes inside it | a KNET reference `1","2` reads back as two cells, and `5"` gives a record that cannot be parsed | double inner quotes, as the dashboard export does (section 2, rule 7 of RFC 4180) | high, not executed | Reports.QuoteCommaSplitsCell | Reports.ServerCsvRoundTrip |
