# ERP feed, sync and reconciliation core of the CNK CRM, in Dafny

This project models the part of the CNK CRM that reads the accounting (ERP)
export, brings its customers, purchase invoices and offers into the local
store, and computes monthly reconciliation statements from it. It also models
the record operations that keep the store's invariants. Every operation is a
pure function over immutable datatypes:

- **Store.** The Dexie database is a record `Store.Db` of tables
  `map<string, R>`, keyed by primary key. `Store.Valid` states the schema's
  invariants:
  - every record sits under its own id;
  - no two customers share a present `currentCode`;
  - no two users share a `username`.
- **Injected values.** "Now" is an `Instant`, rendered as an ISO string by
  `Calendar.IsoString`. Identifiers that `uuidv4` would draw come from an
  oracle sequence of fresh ids. `Date.now()` and `Math.random()` are
  parameters as well.
- **Parser input.** The export text and the offer catalogue that the parser
  reads (the `CSV_DATA` literal and `MOCK_ERP_OFFERS`) are a `Feed.Source`
  parameter. The module-level `cachedData` is explicit state: an
  `Option<Parsed>` threaded through `Feed.ParseErpData` and the syncs.
- **Syncs.** Each sync takes the store, the parse cache, the value
  `fetchErpCsvData` resolved with (a `Feed.Parse`), one clock reading and the
  id oracle. It returns the new state and a `SyncResult`.
  - `ErpSync.FetchedFeed` states that every fetch of a source meets the
    syncs' requirements.
  - `ErpSync.FeedStable` states that fetches of the same source at two
    instants differ only in the fallback dates of undated invoices.

Modules follow the program's structure:

- `Text`, `JsNumber`, `Calendar`: the JavaScript string and number built-ins
  the core relies on (`trim`, `split`, `replace`, `parseInt`, `parseFloat`,
  `toISOString().slice`).
- `Normalise`: `parseCurrency`, `parseDate`, `parseNumber`.
- `Feed`: `parseErpData`, `fetchErpCsvData`.
- `Aggregator`: `getInvoicesForReconciliation`.
- `Records`: the record shapes and enum domains of `types.ts`.
- `Store`: the schema, its unique indexes, listing order and the Dexie write
  primitives.
- `ErpSync`, `InvoiceSync`, `OfferSync`: `ErpContext`.
- `Reconciliations`: `ReconciliationContext`.
- `ReconciliationPage`: the reconciliation dialog's handlers.
- `Data`: `DataContext`.
- `Personnel`: `PersonnelContext`.
- `Seed`: `seedDatabase`.
- `Seqs`, `Wrappers`: generic helpers.

## Model

| member | source | states |
|---|---|---|
| Text.Split | services/erpApiService.ts:80 | splitting on `;` yields at least one part, no part contains the separator, and joining the parts with the separator gives back the line |
| Text.SplitJoin | services/erpApiService.ts:80 | splitting a separator-joined list of separator-free parts returns exactly those parts (the other half of the round trip) |
| Text.SplitLength | services/erpApiService.ts:44-45 | a string splits into one more part than it has separators, so `d.m.y` has exactly three parts when it has exactly two dots |
| Text.RemoveAllAppend | services/erpApiService.ts:38 | removing every `.` distributes over concatenation |
| Text.DecimalValue | contexts/DataContext.tsx:142 | the decimal rendering of a timestamp reads back as the same number |
| Text.PadValue | services/erpApiService.ts:47-49 | a zero-padded decimal reads back as the number it renders |
| Text.SuffixValue | contexts/DataContext.tsx:142 | the last k characters of a decimal rendering denote the number modulo 10^k |
| JsNumber.ParseIntDigits | services/erpApiService.ts:56 | `parseInt` of a digit run followed by a non-digit is the value of the digit run |
| JsNumber.ParseIntPad | services/erpApiService.ts:47-49 | `parseInt` reads a zero-padded decimal back as its number |
| JsNumber.ParseFloatPoint | services/erpApiService.ts:38 | `parseFloat` of `a.b` with digit strings `a` and `b` is the integer part plus the decimal fraction |
| JsNumber.ToNumberPad | services/erpApiService.ts:173 | `Number` of a zero-padded decimal is that number |
| Calendar.IsoString | pages/ReconciliationPage.tsx:101 | the ISO timestamp is 24 characters; its first 10 are the day and its first 7 the `YYYY-MM` month |
| Normalise.ParseCurrency | services/erpApiService.ts:36-40 | an absent or empty cell gives 0, and so does a cell without a single digit, since `parseFloat` finds no number there |
| Normalise.ParseCurrencyLira | services/erpApiService.ts:36-40 | any lira cell ` ₺1.234,56 ` (thousands grouped by dots, two decimals after a comma, padded by spaces) parses to its amount in lira, kuruş/100 |
| Normalise.ParseCurrencyThousand | services/erpApiService.ts:36-40 | ` ₺1.000,00 ` parses to 1000 |
| Normalise.ParseCurrencyExample | services/erpApiService.ts:36-40 | ` ₺3.288,00 ` parses to 3288 |
| Normalise.UngroupThousands | services/erpApiService.ts:38 | removing the dots from a thousands-grouped digit string gives back the digits |
| Normalise.ParseDate | services/erpApiService.ts:42-52 | an absent or empty cell, a cell without a dot, one that does not split into exactly three parts, or one with a part where `parseInt` finds no number falls back to now |
| Normalise.ParseDateParts | services/erpApiService.ts:44-51 | any three non-empty digit strings `a.b.c` give the day whose year, month and day are the decimal values of `c`, `b` and `a`, leading zeros included |
| Normalise.ParseDateCell | services/erpApiService.ts:42-52 | every date rendered as `d.mm.yyyy` parses back to itself, whatever now is |
| Normalise.ParseDateExample | services/erpApiService.ts:42-52 | `7.08.2025` is 7 August 2025 |
| Normalise.ParseNumber | services/erpApiService.ts:54-58 | an absent or empty cell gives 0, and so does a cell without a single digit, since `parseInt` finds no number there |
| Normalise.ParseNumberDecimal | services/erpApiService.ts:54-58 | a decimal cell, padded with spaces or not, parses to its number |
| Feed.NonBlankMembers | services/erpApiService.ts:76 | a line survives the blank-line filter exactly when it is a line of the text whose trim is not empty |
| Feed.Headers | services/erpApiService.ts:80 | headers are the trimmed `;`-separated fields of the header line, one per field |
| Feed.IndexOf | services/erpApiService.ts:81 | `indexOf` is -1 exactly when the name is absent, and otherwise the first position holding it |
| Feed.ChooseTotalColumn | services/erpApiService.ts:83-100 | with several `Genel Toplam` headers and a first data row carrying `₺`, `$` or `€` in one of them, the first such column; otherwise the first `Genel Toplam` column; -1 exactly when there is none |
| Feed.LayoutOf | services/erpApiService.ts:80-100 | every column position, the total column included, is resolved once from the headers and used for every row |
| Feed.ItemOf | services/erpApiService.ts:137-141 | the single invoice line is `CSV_ITEM`; a non-zero count is kept and a zero count becomes 1; for a non-negative count quantity·price equals the total, and for a count of zero or less the price is the total |
| Feed.ParsedLinesCarryTotals | services/erpApiService.ts:128-141 | every parsed invoice has exactly one line, and that line accounts for the invoice total: a positive quantity times the price gives the total, a negative one leaves the total as the price |
| Feed.Keep | services/erpApiService.ts:114-142 | a kept row appends one invoice, seeds its code's customer only when the code is new, and leaves every other entry as it was |
| Feed.ParseRowsWellFormed | services/erpApiService.ts:105-143 | the codes are distinct and are exactly the customer map's keys, each entry carries its own code, and every invoice's code is a key |
| Feed.InvoicesFollowRows | services/erpApiService.ts:105-143 | the invoices are exactly one per kept row, in row order |
| Feed.ParseRowsAppend | services/erpApiService.ts:105-143 | the invoices of two blocks of rows are the invoices of each block, concatenated |
| Feed.SkippedRowIgnored | services/erpApiService.ts:108-112 | a row that is too short, not a purchase invoice, cancelled or without a code changes neither the customer map nor the invoices |
| Feed.CustomerKeys | services/erpApiService.ts:111-126 | a code is a key of the customer map exactly when some kept row carries it |
| Feed.FirstSeenWins | services/erpApiService.ts:114-126 | a code's customer entry is built from the first kept row carrying that code |
| Feed.KeptCodeIsKey | services/erpApiService.ts:111-133 | the code of every kept row is a key of the customer map |
| Feed.Priced | services/erpApiService.ts:145-150 | an offer's `toplam` is the sum of its item amounts, `kdv` is a fifth of it, `genelToplam` is `toplam + kdv`; every other field is the catalogue's |
| Feed.PricedCatalogue | services/erpApiService.ts:145-150 | every catalogue offer is priced, in catalogue order |
| Feed.FeedTable | services/erpApiService.ts:76-78 | the export yields a table exactly when, after blank lines are dropped, a header line remains that is not empty once its BOM is stripped |
| Feed.ParseFeed | services/erpApiService.ts:73-155 | a parsed export is well formed, has no more invoices than characters and prices the whole catalogue; there is none exactly when the header line is missing |
| Feed.ParseErpData | services/erpApiService.ts:73-78 | a cached result is returned unchanged; a missing header gives the empty result and caches nothing; otherwise the result is cached |
| Feed.FetchErpCsvData | services/erpApiService.ts:160-169 | clearing the cache first, the fetch always gives a well-formed result, and it gives the priced catalogue whenever the export has a header |
| Feed.FetchDates | services/erpApiService.ts:134 | two fetches differ only in the fallback dates of invoices whose date cell does not parse |
| Seqs.FilterMembers | services/erpApiService.ts:176-183 | an element is kept by a filter exactly when it is in the input and passes the test |
| Seqs.FilterAppend | contexts/PersonnelContext.tsx:27-37 | filtering distributes over concatenation, so relative order is kept |
| Seqs.FilterPartition | contexts/ErpContext.tsx:115-131 | a filter and its complement together have as many elements as the input |
| Store.CodeOwner | services/dbService.ts:28 | the owner of a code is the one stored customer carrying it, or none does |
| Store.ListDescending | contexts/ReconciliationContext.tsx:18 | the listing has one record per key, each a stored record, in descending `createdAt` order |
| Store.ListedComplete | contexts/DataContext.tsx:39 | every stored record appears in the listing |
| Store.DescendingDistinct | contexts/DataContext.tsx:39 | no key is listed twice |
| Store.StrLtTransitive | contexts/ReconciliationContext.tsx:18 | the string order used for `orderBy` is transitive |
| Store.PutAll | contexts/ErpContext.tsx:86-88 | `bulkPut` leaves exactly the old keys plus the keys of the records put |
| Store.PutAllStores | contexts/ErpContext.tsx:133-135 | a record put with no later record under its key is the stored value |
| Store.PutAllKeeps | contexts/ErpContext.tsx:133-135 | a key not put keeps its record |
| Store.PutAllFrom | contexts/ErpContext.tsx:182-184 | every key put holds the last record put under it |
| Store.AddCustomerRecord | services/dbService.ts:28 | `add` succeeds exactly when the id is free and the code is not taken, and otherwise reports which constraint failed |
| Store.AddRecord | contexts/PersonnelContext.tsx:46 | `add` succeeds exactly when the key is free, and then stores the record and keeps every other one |
| Store.AddCustomerRecordsSound | contexts/DataContext.tsx:86-88 | `bulkAdd` keeps every stored customer, adds one record per accepted candidate, and keeps ids and codes unique |
| Store.AddCustomerRecordsNew | contexts/DataContext.tsx:86-88 | a new key after `bulkAdd` holds the candidate that carried it |
| Aggregator.Statement | services/erpApiService.ts:184-188 | a statement invoice drops the ledger code, blanks `customerId` and `userId`, and keeps every other field |
| Aggregator.SelectMembers | services/erpApiService.ts:175-188 | a statement is selected exactly when some parsed invoice has the customer code and a date in the period |
| Aggregator.SelectAppend | services/erpApiService.ts:175-188 | the selection of two blocks is the concatenation of their selections, so parse order is kept |
| Aggregator.SelectNoPeriod | services/erpApiService.ts:173 | a period that does not parse selects nothing |
| Aggregator.InvoicesForReconciliation | services/erpApiService.ts:171-189 | reads the cached parse when there is one, and selects nothing when nothing parses or the period is malformed |
| Aggregator.SumOfSelection | pages/ReconciliationPage.tsx:126 | the total over the selected statements is the sum over the matching parsed invoices |
| Aggregator.WholeMonth | services/erpApiService.ts:177-181 | for a `YYYY-MM` period, any day of that year and month qualifies, and no other day does |
| Aggregator.ParsePeriodIsoMonth | services/erpApiService.ts:173 | the current month's `YYYY-MM` string reads back as its year and month |
| ErpSync.UpdateErpSettings | contexts/ErpContext.tsx:40-42 | the settings record is replaced and nothing else in the store changes |
| ErpSync.Stamped | contexts/ErpContext.tsx:100 | only the named `lastSync*` field is stamped; every other settings field is kept |
| ErpSync.Finish | contexts/ErpContext.tsx:137 | with settings present, the sync succeeds with its report and stamps its timestamp; without settings, the settings put has no key and the sync fails, leaving the store as its earlier writes left it |
| ErpSync.Upserts | contexts/ErpContext.tsx:71-84 | one record to put per parsed code |
| ErpSync.UpsertId | contexts/ErpContext.tsx:72-82 | a known code keeps the id of the stored customer carrying it; an unknown one gets the next drawn id, not a key of the store |
| ErpSync.UpsertIdsDistinct | contexts/ErpContext.tsx:71-88 | the records put have pairwise distinct ids |
| ErpSync.StoredRelinked | contexts/ErpContext.tsx:75 | after the put, a stored customer is `{...existing, ...parsed}`: its ledger fields are the parsed ones when its code was parsed; id, `createdAt` and every CRM field are unchanged |
| ErpSync.StoredParsed | contexts/ErpContext.tsx:75 | a stored customer whose code was parsed takes the parsed ledger fields and keeps everything else |
| ErpSync.StoredUnparsed | contexts/ErpContext.tsx:65-66 | a stored customer whose code was not parsed is untouched |
| ErpSync.UpsertNew | contexts/ErpContext.tsx:78-82 | a new customer is the parsed fields under a drawn id, created now, with no CRM data |
| ErpSync.AddedKeyNew | contexts/ErpContext.tsx:77-82 | every key the put adds is a drawn id holding the parsed customer of an unknown code |
| ErpSync.UpsertsValid | services/dbService.ts:28 | after the put, customers are still keyed by id and codes are still unique |
| ErpSync.CodeMap | contexts/ErpContext.tsx:91-93 | the read-back map sends each parsed code present in the store to the customer carrying it |
| ErpSync.ResolvedCode | contexts/ErpContext.tsx:86-93 | after the put, each parsed code maps to a customer holding that code's parsed ledger fields |
| ErpSync.CodeMapCovers | contexts/ErpContext.tsx:91-95 | after the put, every parsed code is resolved |
| ErpSync.StoredAllRelinked | contexts/ErpContext.tsx:65-88 | every customer stored before the put is still stored, relinked to the parsed fields of its code |
| ErpSync.AddedAllNew | contexts/ErpContext.tsx:77-82 | every customer the put adds is fresh: a drawn id, created now, parsed fields only |
| ErpSync.Counted | contexts/ErpContext.tsx:68-84 | new and updated counts add up to the number of parsed codes, and nothing is new exactly when every parsed code is already stored |
| ErpSync.Resolve | contexts/ErpContext.tsx:61-96 | the resolved table is keyed with unique codes, the cache is untouched, and `added + updated` is the parsed customer count |
| ErpSync.ResolveCustomers | contexts/ErpContext.tsx:61-96 | `_syncCustomersFromCSV` leaves a valid store, and `added + updated` equals `totalCount`, the parsed customer count |
| ErpSync.ResolverAddsNothing | contexts/ErpContext.tsx:71-84 | the resolver adds no customer exactly when every parsed code is already stored |
| ErpSync.ResolverLinks | contexts/ErpContext.tsx:86-95 | the returned map's keys are exactly the parsed codes, and each goes to a stored customer holding that code's parsed fields |
| ErpSync.ResolverMerges | contexts/ErpContext.tsx:65-75 | every previously stored customer keeps its id, `createdAt` and CRM fields and takes the parsed ledger fields of its code |
| ErpSync.ResolverCreates | contexts/ErpContext.tsx:76-82 | every new customer has a drawn id not already in the store, `createdAt` now, and only the parsed fields |
| ErpSync.ResolverReadsBack | contexts/ErpContext.tsx:90-93 | the returned map is read from the store after the put |
| ErpSync.UpsertsKeepOwners | contexts/ErpContext.tsx:71-93 | when every parsed code is already stored, the put leaves each code with the same owner |
| ErpSync.ResolverKeepsMap | contexts/ErpContext.tsx:65-93 | when every parsed code is already stored, the returned map is the map the store already had |
| ErpSync.ResolverKnowsAll | contexts/ErpContext.tsx:86-93 | after the resolver, every parsed code is stored |
| ErpSync.FetchedFeed | services/erpApiService.ts:160-169 | any fetch gives a well-formed result with no more codes than export characters |
| ErpSync.FeedStable | services/erpApiService.ts:160-169 | fetches of the same export at two instants have the same codes, customers and offers, and invoices equal up to fallback dates |
| ErpSync.SyncCustomers | contexts/ErpContext.tsx:98-102 | `syncCustomers` keeps the store valid, changes only customers and settings, and succeeds exactly when settings exist |
| ErpSync.SyncCustomersReport | contexts/ErpContext.tsx:98-102 | a successful sync reports kind `Müşteri`, fetched equal to the parsed customer count and to `added + updated`, and stamps `lastSyncCustomers` with now |
| ErpSync.ResyncCustomersAddsNothing | contexts/ErpContext.tsx:65-87 | running `syncCustomers` again on an unchanged export adds nothing |
| ErpSync.ResyncSameMap | contexts/ErpContext.tsx:86-95 | a second resolver run on an unchanged export returns the same code-to-id map |
| ErpSync.SyncStock | contexts/ErpContext.tsx:143-146 | `syncStock` reports kind `Stok` with all counts 0, and changes nothing |
| InvoiceSync.WriteInvoices | contexts/ErpContext.tsx:111-135 | added, updated and dropped invoices add up to the parsed count |
| InvoiceSync.KeptExactlyResolved | contexts/ErpContext.tsx:115-118 | an invoice survives exactly when its ledger code is in the customer map |
| InvoiceSync.InvoiceKeys | contexts/ErpContext.tsx:133-135 | after the put, the invoice keys are the old keys plus the numbers of the surviving invoices |
| InvoiceSync.InvoiceRecord | contexts/ErpContext.tsx:123-135 | a key not written keeps its invoice; a written key holds a surviving parsed invoice linked to its customer id, with user `user-cnk` |
| InvoiceSync.InvoicesKeyed | contexts/ErpContext.tsx:133-135 | after the put, invoices are still keyed by id |
| InvoiceSync.NothingAdded | contexts/ErpContext.tsx:120-121 | nothing counts as added exactly when every surviving invoice's number was a stored key before the write |
| InvoiceSync.RewriteAddsNothing | contexts/ErpContext.tsx:111-134 | writing the same surviving invoices again counts none as added |
| InvoiceSync.SyncInvoices | contexts/ErpContext.tsx:104-140 | `syncInvoices` resolves customers, then puts the surviving invoices; it changes only customers, invoices and settings; it succeeds when settings exist and every surviving invoice has a number; fetched is the parsed count, which equals added + updated + dropped |
| InvoiceSync.SyncInvoicesKeys | contexts/ErpContext.tsx:133-135 | the stored invoice keys grow by exactly the numbers of the surviving invoices |
| InvoiceSync.SyncInvoicesLinks | contexts/ErpContext.tsx:115-131 | each written invoice keeps the parsed fields, has user `user-cnk`, and points to the stored customer holding its code's parsed fields |
| InvoiceSync.SyncInvoicesKeeps | contexts/ErpContext.tsx:133-135 | an invoice the feed does not rewrite is unchanged |
| InvoiceSync.ResyncInvoicesAddsNothing | contexts/ErpContext.tsx:111-134 | running `syncInvoices` again on an unchanged export succeeds and adds nothing |
| OfferSync.OfferMatch | contexts/ErpContext.tsx:155-156 | the stored offer with a given `teklifNo` (the greatest id when several share it), or none exactly when no stored offer has that number |
| OfferSync.WriteOffers | contexts/ErpContext.tsx:155-184 | added, updated and dropped offers add up to the parsed count |
| OfferSync.UpsertedOffer | contexts/ErpContext.tsx:165-179 | a matched offer is `{...existing, ...parsed, customerId}` under the stored id; an unmatched one is the parsed offer under a drawn id that is not yet a key |
| OfferSync.CreatedStored | contexts/ErpContext.tsx:172-184 | every created offer is stored as built |
| OfferSync.StoredOfferKept | contexts/ErpContext.tsx:170 | every stored offer keeps its id, number, `createdAt` and follow-up draft |
| OfferSync.WrittenOffer | contexts/ErpContext.tsx:161-184 | every key the put touches holds a kept parsed offer linked to its customer; a new key is a drawn id created now |
| OfferSync.NumberStored | contexts/ErpContext.tsx:161-184 | after the put, every surviving offer's number is stored |
| OfferSync.OffersKeyed | contexts/ErpContext.tsx:182-184 | after the put, offers are still keyed by id |
| OfferSync.NoOfferAdded | contexts/ErpContext.tsx:165-172 | nothing counts as added exactly when every surviving offer's number is already stored |
| OfferSync.ReupsertAddsNothing | contexts/ErpContext.tsx:155-180 | upserting the same offers again counts none as added |
| OfferSync.SyncOffers | contexts/ErpContext.tsx:148-188 | `syncOffers` resolves customers, then upserts the surviving offers by number; it changes only customers, offers and settings; it succeeds exactly when settings exist |
| OfferSync.SyncOffersReport | contexts/ErpContext.tsx:186-187 | a successful sync reports kind `Teklif`, fetched equal to the parsed count and to added + updated + dropped, and stamps `lastSyncOffers` |
| OfferSync.SyncOffersKeepsIdentity | contexts/ErpContext.tsx:165-170 | every previously stored offer keeps its id, number, `createdAt` and follow-up draft |
| OfferSync.SyncOffersMerges | contexts/ErpContext.tsx:165-170 | an offer matched by number stays under its stored id and takes the parsed fields and the resolved customer id |
| OfferSync.SyncOffersCreates | contexts/ErpContext.tsx:171-178 | an unmatched offer gets a fresh drawn id, `createdAt` now and the resolved customer id, and keeps its parsed number |
| OfferSync.SyncOffersLinks | contexts/ErpContext.tsx:162-163 | a surviving offer's code resolves to a stored customer holding that code's parsed fields |
| OfferSync.ResyncOffersAddsNothing | contexts/ErpContext.tsx:155-180 | running `syncOffers` again on an unchanged export adds nothing |
| Reconciliations.AddReconciliation | contexts/ReconciliationContext.tsx:20-32 | fails with nothing stored when there is no user; otherwise the new record has a fresh id, status `pending`, `createdAt` now and `createdBy` the user, and its id is returned |
| Reconciliations.Apply | contexts/ReconciliationContext.tsx:34-36 | each field present in the patch takes the patch value; every absent field keeps the stored value |
| Reconciliations.UpdateReconciliation | contexts/ReconciliationContext.tsx:34-36 | only the named record changes, by the patch; a missing id changes nothing |
| Reconciliations.Listing | contexts/ReconciliationContext.tsx:18 | one entry per stored reconciliation, in descending `createdAt` order |
| Reconciliations.NoChangesIdentity | contexts/ReconciliationContext.tsx:34-36 | an empty patch changes nothing |
| Reconciliations.UpdateIdempotent | contexts/ReconciliationContext.tsx:34-36 | applying the same patch twice equals applying it once |
| Reconciliations.DisjointUpdatesCommute | contexts/ReconciliationContext.tsx:34-36 | patches touching disjoint fields commute |
| Reconciliations.AddedIsListed | contexts/ReconciliationContext.tsx:18-32 | a new reconciliation is listed, with the submitted data |
| ReconciliationPage.OpenForm | pages/ReconciliationPage.tsx:98-104 | a new dialog starts at the current-account type, amount 0 and this month's `YYYY-MM` period; an existing one shows its own fields, with a missing period defaulting to this month |
| ReconciliationPage.LedgerCode | pages/ReconciliationPage.tsx:117-118 | a chosen customer yields a code exactly when it is stored and has a non-empty `currentCode` |
| ReconciliationPage.HandleSyncFromErp | pages/ReconciliationPage.tsx:113-130 | an empty customer or period changes nothing; a missing customer or code only raises the error notice; otherwise the amount becomes the sum of the matching invoices' totals, which are the statements shown |
| ReconciliationPage.StatusActions | pages/ReconciliationPage.tsx:210-215 | agree and disagree are offered exactly while the status is pending, and neither keeps it pending |
| ReconciliationPage.HandleStatusUpdate | pages/ReconciliationPage.tsx:179-183 | writes only the status of the open reconciliation, and does nothing when none is open |
| ReconciliationPage.HandleSubmit | pages/ReconciliationPage.tsx:170-177 | with an open reconciliation, only its form fields change; otherwise a new pending one is added with the form's fields, when a user is signed in |
| ReconciliationPage.DefaultPeriodIsThisMonth | pages/ReconciliationPage.tsx:101 | the default period selects exactly the invoices dated in the current year and month |
| ReconciliationPage.DecidedOnce | pages/ReconciliationPage.tsx:179-215 | once agreed or disagreed, a reconciliation offers no more status actions |
| ReconciliationPage.ReopenShowsSubmitted | pages/ReconciliationPage.tsx:98-104 | reopening a submitted reconciliation shows the form as submitted |
| ReconciliationPage.SyncTwiceStable | pages/ReconciliationPage.tsx:113-130 | pressing sync twice gives the same amount and statements |
| Data.AddCustomer | contexts/DataContext.tsx:45-59 | stores the given fields under a fresh id with `createdAt` now and returns that id; fails when the id or the code is taken |
| Data.UpdateCustomer | contexts/DataContext.tsx:61-63 | `put` stores the record under its id wholesale, replacing any record there, and touches no other record; a code owned by another customer is refused |
| Data.DeleteCustomer | contexts/DataContext.tsx:65-67 | removes exactly that id and keeps every other record |
| Data.CustomerListing | contexts/DataContext.tsx:39 | one entry per stored customer, in descending `createdAt` order |
| Data.BulkAddCustomers | contexts/DataContext.tsx:69-90 | keeps every stored customer and only adds non-duplicate candidates; the returned count is the number of records added |
| Data.ImportedOnly | contexts/DataContext.tsx:70-84 | every customer the import adds is a candidate whose email and name were unknown to the store before the loop |
| Data.KnownAfterImport | contexts/DataContext.tsx:71-76 | after an import, every candidate counts as a duplicate |
| Data.ReimportAddsNothing | contexts/DataContext.tsx:69-90 | importing the same candidates again adds nothing and returns 0 |
| Data.BatchNotDeduplicated | contexts/DataContext.tsx:70-77 | two identical new candidates in one batch are both added, because the duplicate test reads the snapshot taken before the loop |
| Data.AllKeptAdded | contexts/DataContext.tsx:86-89 | when every candidate is new and the put accepts them all, the return value is the batch size |
| Data.DeleteUndoesAdd | contexts/DataContext.tsx:45-67 | deleting the customer just added restores the table |
| Data.UpdateWithStoredIsNoop | contexts/DataContext.tsx:61-63 | putting a stored customer back changes nothing |
| Data.OfferNumber | contexts/DataContext.tsx:142 | an offer number is `TEK-` followed by at most six digits |
| Data.OfferNumberDigits | contexts/DataContext.tsx:142 | the digits after `TEK-` are the timestamp modulo 10^6 |
| Data.AddOffer | contexts/DataContext.tsx:138-152 | stores the given offer under a fresh id with `createdAt` now and the timestamp-derived number |
| Data.BulkAddOffers | contexts/DataContext.tsx:158-170 | stores every input, without deduplication, under its own fresh id, and returns the input length |
| Data.OffersAllStored | contexts/DataContext.tsx:159-168 | after the put, the table grows by the input length and holds each input as built |
| Personnel.ForUser | contexts/PersonnelContext.tsx:27-37 | a record is listed exactly when it is stored for that user |
| Personnel.ForUserAppend | contexts/PersonnelContext.tsx:27-37 | stored order is kept: a record appended to the list is appended to its owner's list only |
| Personnel.ForUserPartition | contexts/PersonnelContext.tsx:27-37 | one user's records and everyone else's add up to all the records |
| Personnel.LeaveRequestsForUser | contexts/PersonnelContext.tsx:27-29 | exactly the leave requests of that user |
| Personnel.KmRecordsForUser | contexts/PersonnelContext.tsx:31-33 | exactly the km readings of that user |
| Personnel.LocationHistoryForUser | contexts/PersonnelContext.tsx:35-37 | exactly the location points of that user |
| Personnel.AddLeaveRequest | contexts/PersonnelContext.tsx:39-47 | stores the request under a fresh id, `pending`, with `requestDate` now, and keeps every other request |
| Personnel.KmDate | contexts/PersonnelContext.tsx:53 | a given non-empty date is kept; otherwise the first 10 characters of now's ISO string |
| Personnel.AddKmRecord | contexts/PersonnelContext.tsx:49-56 | stores the reading under a fresh id, dated as given or today |
| Personnel.AddLocationRecord | contexts/PersonnelContext.tsx:58-65 | stores the point under a fresh id, stamped now |
| Personnel.AddedLeaveListed | contexts/PersonnelContext.tsx:27-47 | a new request appears, pending, at the end of its owner's list |
| Personnel.UndatedKmIsToday | contexts/PersonnelContext.tsx:43-53 | an undated reading is dated on the day of the same instant's request stamp |
| Seed.AdminUser | services/dbService.ts:60-64 | the admin user is `admin-default` with the configured username, and has a non-empty password: the configured one when set |
| Seed.SeedCustomers | services/dbService.ts:81-85 | seeded customers get ids `1..n` in input order and `createdAt` now |
| Seed.SeedAppointments | services/dbService.ts:89-94 | seeded appointments get ids `mock-apt-1..n`, user `user-cnk` and `createdAt` now |
| Seed.SeedCustomerIdsDistinct | services/dbService.ts:83 | seeded customer ids are pairwise distinct |
| Seed.SeedAppointmentIdsDistinct | services/dbService.ts:91 | seeded appointment ids are pairwise distinct |
| Seed.SeedDatabase | services/dbService.ts:50-106 | a store that already has users is returned unchanged; otherwise the two built-in users, seeded customers and appointments, and default settings are written, and nothing else changes |
| Seed.SeededCustomer | services/dbService.ts:80-87 | the i-th seeded customer is stored under id i+1 |
| Seed.SeededAppointment | services/dbService.ts:88-96 | the i-th seeded appointment is stored under `mock-apt-(i+1)` for `user-cnk` |
| Seed.SeedOnce | services/dbService.ts:52-56 | seeding a seeded store changes nothing |
| Seed.SeedEmptySucceeds | services/dbService.ts:77-98 | seeding an empty store succeeds when the admin username differs from `cnk` and the seeded codes are distinct |
| Seed.SeedKeepsValid | services/dbService.ts:26-44 | seeding keeps the schema's keys and unique indexes |
| Seed.BuiltInUsersValid | services/dbService.ts:27 | the two built-in users have distinct ids and usernames |

## Left out

- `syncIncomingInvoices` and `syncOutgoingInvoices` (contexts/ErpContext.tsx:44-58) call fetchers that are not part of this model. Their record types and settings fields are missing from `types.ts` as well.
- PDF generation, the customer detail modal, the admin dashboard and all JSX, React state, notifications and the simulated latency. These are presentation code or foreign calls.
- The AI helpers (`generateReconciliationEmail`, `analyzeDisagreement`) and the `mailto` link. They are foreign calls.
- Concurrency: async scheduling, and the window between two clicks of a sync or submit button. Each operation is modelled as one atomic step.
- JavaScript dates:
  - Dates are `(year, month, day)` and "now" is a parameter.
  - `new Date(y, m, d)` overflow normalisation, time zones and `toLocaleString` are not modelled.
  - `Normalise.ParseDate` keeps the parsed year as it is. `new Date(year, month, day)` reads a year from 0 to 99 as 1900 plus that year, and for a year outside the range of JavaScript dates `toISOString()` throws a `RangeError` (services/erpApiService.ts:51). So the source's `parseDate` is not total, and the model's is.
  - A parsed date is kept as a date, not re-rendered as an ISO string.
  - Each operation reads the clock once, so all timestamps of one call are equal.
- Floating point: amounts are exact `real`s. `parseInt`/`parseFloat`/`Number` are decimal numeric-prefix scanners. Exponents, hexadecimal, `Infinity` and signed zero are not read.
- `uuidv4`, `Date.now()` and `Math.random()` are an oracle of fresh ids, a millisecond parameter and a sequence of salt strings.
- `toLowerCase` is a function parameter of the bulk customer import; Unicode case mapping is not modelled.
- The export literal, the offer catalogue, the seed customers and appointments, and the default admin come from `constants`, which is not part of this model. They are parameters.
- Dexie:
  - The store is a record of maps. Indexes are their invariants.
  - `bulkAdd`/`bulkPut` keep the records they accept and report failure when one is refused; there is no rollback.
  - Only `seedDatabase` runs in a transaction, and its failure leaves the store as it was.
  - `where(...).anyOf(...)` and `customers.find` are lookups by key or by unique code.
- The live-query arrays of `PersonnelContext` are a sequence parameter.
- `ReconciliationContext` takes a `Partial<Reconciliation>`. Its patch excludes `id`, because changing the primary key through `update` is refused by the store.
- `syncInvoices` and `syncOffers` each call `fetchErpCsvData` twice. Both calls parse the same export, so one fetch result stands for both. `ErpSync.FeedStable` states that they can differ only in the fallback dates of invoices whose date cell does not parse. `syncInvoices` stores the invoices of its second fetch, dates included (contexts/ErpContext.tsx:122-127), so in the source an undated invoice gets the second fetch's clock reading; the model stores the fallback date of the one feed it is given.
- `Feed.CustomerOf` gives an empty name when the row has no `Ticari Unvanı` cell. The source stores `undefined` there (services/erpApiService.ts:117), and `c.name.toLowerCase()` in the bulk customer import (contexts/DataContext.tsx:72) would then throw. The model's names are always strings.
- The React `erpSettings` value the syncs spread from is the stored settings record. A stale render is not modelled.
- The rows of the export literal are not reproduced. `Feed.ChooseTotalColumn` states the column rule in both directions, and the currency and date examples are proved on their cells.
- ErpSync.FeedStable: states that two fetches agree up to invoice dates. It does not state that the fallback dates equal the respective clock readings.
- OfferSync.ResyncOffersAddsNothing: states "no offer added" only for a second run that succeeds. Whether it succeeds depends only on the settings record.
