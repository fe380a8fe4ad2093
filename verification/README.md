# Invoice analytics dashboard: aggregation and seeding, in Dafny

This project models the two pieces of pure logic in an invoice-analytics
dashboard's API.

**The dashboard folds** (`apps/api/src/index.ts`). The read-only endpoints
fetch rows from the database and then fold them in TypeScript. Each fold
is modelled as a pure function over a sequence of already-fetched rows:

- `/api/stats`: year-to-date spend and the average invoice value.
- `/api/invoice-trends`: invoice count and spend per month, in ascending
  month order.
- `/api/vendors/top10`: spend per vendor name; the ten largest, largest
  first.
- `/api/category-spend`: spend per line-item category.
- `/api/cash-outflow`: four fixed due-date ranges and the amount due in
  each.
- `/api/invoices`: the search/status filter, page arithmetic and row
  formatting of the invoice list.

**The seed script** (`apps/api/prisma/seed.ts`). The model covers:

- the keyword categoriser for line items;
- the collection of distinct organization, department and user ids, and
  the parent rows created from them;
- the per-record mapping from the nested extraction payload to document,
  invoice, vendor, customer, payment and line-item rows;
- the loop that isolates each record in its own `try`, keeps the rows a
  failing record wrote before it threw, and counts completed records in
  `processedCount`.

Conventions:

- Money is integer cents and instants are integer milliseconds. Every
  other numeric payload leaf (`srNo`, `quantity`, `netDays`,
  `discountPercentage`, `discountDays`) is an integer too, so fractional
  quantities and percentages are not modelled.
- A nullable column or an absent JSON field is an `Option`.
- JavaScript's falsy defaults are explicit functions. `Text.StrOr` and
  `Text.StrOrNull` model `s || x`; `Amounts.NumOrNull` models `n || null`
  for numbers, so a zero becomes null.
- `Math.ceil` of a division becomes exact integer ceiling division
  (`Amounts.CeilDiv`).
- `parseInt` and `BigInt(string)` are modelled on strings (`Numerals`).
- Grouping "into a JavaScript object" is one generic fold, `Grouping.GroupBy`.
  It keeps groups in first-appearance order, and `Grouping.Sort` sorts them.
  Every handler's result is related by lemmas to a reference definition
  written directly over the input rows (for example `Trends.DatedIn` and
  `Trends.SpendIn`).

Module layout:

| file | module | models |
|---|---|---|
| maybe.dfy | Maybe | `Option` |
| text.dfy | Text | `toLowerCase` (ASCII), `includes`, `slice(0, n)`, string falsy defaults |
| amounts.dfy | Amounts | `Math.abs(x \|\| 0)`, number falsy default, ceiling division |
| numerals.dfy | Numerals | `parseInt`, `BigInt(string)`, decimal numerals |
| schema.dfy | Schema | the stored rows |
| grouping.dfy | Grouping | accumulate-into-object and sort |
| stats.dfy, trends.dfy, top_vendors.dfy, category_spend.dfy, cash_outflow.dfy, invoice_listing.dfy | one per endpoint | the dashboard folds |
| categorizer.dfy | Categorizer | `categorizeItem` |
| payload.dfy | Payload | the exported JSON records |
| parents.dfy | Parents | distinct ids, organizations, departments, users |
| normalizer.dfy | Normalizer | one record's loop body |
| ingestion.dfy | Ingestion | the document loop and `processedCount` |

Overdue payments land in "8-30 days". The cash-outflow code (apps/api/src/index.ts:250-258)
tests `daysUntilDue <= 7 && daysUntilDue >= 0`
first, so a negative day count falls to the next test, `<= 30`, and lands in
"8-30 days". `CashOutflow.RangeOf` states this as an if-and-only-if, and
`CashOutflow.RangeBoundaries` shows it for a payment 45 days overdue.

## Model

| member | source | states |
|---|---|---|
| Text.Includes | apps/api/prisma/seed.ts:32-33 | `s.includes(p)` is true exactly when `p` occurs in `s` at some index |
| Text.StrOr | apps/api/prisma/seed.ts:158-159 | `s \|\| fallback`: a present non-empty string is kept; null, undefined and "" give the fallback |
| Text.StrOrNull | apps/api/prisma/seed.ts:148 | `s \|\| null`: stored exactly when present and non-empty, and then unchanged |
| Text.Lower | apps/api/prisma/seed.ts:31 | `toLowerCase`: the same length, each character replaced by its lower-case form |
| Text.Prefix | apps/api/prisma/seed.ts:77-105 | `slice(0, 8)`: the first n characters (counted as Unicode scalar values, not UTF-16 code units), or the whole string when shorter |
| Amounts.Spend | apps/api/src/index.ts:46 | `Math.abs(total \|\| 0)`: a null total spends 0; otherwise the absolute value |
| Amounts.NumOrNull | apps/api/prisma/seed.ts:155-157 | `n \|\| null`: a number is stored exactly when present and non-zero |
| Amounts.CeilDiv | apps/api/src/index.ts:243-245 | the result q is the least integer with a <= q*b, i.e. `Math.ceil(a / b)` exactly |
| Numerals.ParseIntShow | apps/api/src/index.ts:279-280 | `parseInt` reads back the decimal numeral of every integer a double holds exactly (magnitude at most 2^53) |
| Numerals.ParseInt | apps/api/src/index.ts:279-280 | `parseInt`: after a `0x` prefix the result is a number iff a hexadecimal digit follows it, otherwise iff a decimal digit follows the optional sign; a negative result needs a leading `-`; a plain decimal numeral gives its value |
| Numerals.ParseBigInt | apps/api/prisma/seed.ts:124 | `BigInt` succeeds iff the trimmed text is blank or a numeral (signed decimal, or unsigned after `0x`, `0o` or `0b`); blank text gives 0; a negative result needs a leading `-`; a plain decimal numeral gives its value |
| Numerals.ParseIntPrefix | apps/api/src/index.ts:279-280 | `parseInt` reads a leading run of decimal digits as its value and ignores the text after it ("2abc" gives 2) |
| Numerals.ParseIntHexPrefix | apps/api/src/index.ts:279-280 | after `0x` or `0X`, `parseInt` reads the hexadecimal digits as their value and ignores the text after them ("0x1A" gives 26) |
| Numerals.ParseBigIntShow | apps/api/prisma/seed.ts:124 | `BigInt(text)` reads back the decimal numeral of every integer |
| Categorizer.Categorize | apps/api/prisma/seed.ts:30-35 | Marketing iff the lower-cased description contains "marketing" or "advertising"; Facilities iff not and it contains "facility", "facilities" or "rent"; the label is always one of the three |
| Categorizer.NoDescriptionIsOperations | apps/api/prisma/seed.ts:31 | a null or empty description is Operations |
| Categorizer.CategorizeIgnoresCase | apps/api/prisma/seed.ts:31 | lower-casing the description first changes nothing |
| Categorizer.MarketingWins | apps/api/prisma/seed.ts:32-33 | a description with both a marketing keyword and "rent" is Marketing, because that test comes first |
| Grouping.GroupBy | apps/api/src/index.ts:101-113 | one group per distinct key, the keys being exactly the entry keys; the counts add up to the number of entries and the totals to their sum |
| Grouping.GroupByCounts | apps/api/src/index.ts:105-110 | each group's count is the number of entries under its key (at least 1) and its total is their sum |
| Grouping.Sort | apps/api/src/index.ts:116-122 | the result is a permutation of the groups, sorted by the rank |
| Trends.EntriesAgree | apps/api/src/index.ts:101-113 | the per-month entries are exactly the dated invoices |
| Trends.InvoiceTrends | apps/api/src/index.ts:101-122 | the months come out in ascending order (strictly so by `Trends.InvoiceTrendsAscending`) |
| Trends.InvoiceTrendsAscending | apps/api/src/index.ts:116-122 | months come out strictly ascending, so each appears once |
| Trends.InvoiceTrendsMonths | apps/api/src/index.ts:101-122 | a month is listed iff some dated invoice falls in it |
| Trends.InvoiceTrendsPerMonth | apps/api/src/index.ts:106-111 | each month's count is the number of invoices dated in it (at least 1); its spend is their absolute totals, with a null total counting 0 |
| Trends.InvoiceTrendsConserve | apps/api/src/index.ts:101-113 | the counts add up to the number of dated invoices and the spends to their whole spend |
| Trends.UndatedIgnored | apps/api/src/index.ts:101-102 | appending an invoice without a date leaves the trends unchanged |
| TopVendors.EntriesAgree | apps/api/src/index.ts:147-157 | a name is aggregated iff some vendor row goes by it; its sum is the spend of those rows |
| TopVendors.TopVendors | apps/api/src/index.ts:144-166 | `.slice(0, 10)` of the ranking: the first ten ranked names with their totals, or all of them when fewer |
| TopVendors.TopVendorsBound | apps/api/src/index.ts:160-166 | at most 10 vendors; fewer only when every vendor name is listed |
| TopVendors.TopVendorsOrdered | apps/api/src/index.ts:153-165 | names are distinct and totals never increase down the list |
| TopVendors.TopVendorsTotals | apps/api/src/index.ts:147-163 | every listed name is a vendor's name; its total is the whole spend under that name |
| TopVendors.TopVendorsAreTop | apps/api/src/index.ts:160-166 | an unlisted vendor means the list is full and that vendor spent no more than the tenth |
| TopVendors.RankOf | apps/api/src/index.ts:160-165 | every vendor name has a place in the full ranking, holding its whole spend |
| TopVendors.UnnamedVendorsMerge | apps/api/src/index.ts:148-156 | null and empty vendor names fall into one "Unknown Vendor" entry with their combined spend |
| CategorySpend.CategorySpend | apps/api/src/index.ts:188-204 | the list of categories is empty exactly when there are no line items |
| CategorySpend.EntriesAgree | apps/api/src/index.ts:188-196 | a category is aggregated iff some line item has it (null or "" meaning "Operations"); its sum is their absolute spend |
| CategorySpend.CategorySpendEntries | apps/api/src/index.ts:188-204 | categories are distinct; a category is listed iff some line item has it; its total is that category's spend |
| CategorySpend.CategorySpendConserves | apps/api/src/index.ts:188-204 | the totals add up to the absolute spend of all line items |
| CashOutflow.DaysUntilDue | apps/api/src/index.ts:243-245 | d is the ceiling of (due - now) / 86 400 000 ms: (d-1) days < due - now <= d days |
| CashOutflow.RangeOf | apps/api/src/index.ts:250-258 | "0-7 days" iff 0 <= d <= 7; "8-30 days" iff d < 0 or 8 <= d <= 30; "31-60 days" iff 31 <= d <= 60; "60+ days" iff d > 60 |
| CashOutflow.CashOutflow | apps/api/src/index.ts:232-265 | exactly four ranges in the fixed order; each amount is the spend of the dated payments in that range; the four add up to the spend of all dated payments |
| CashOutflow.RangeBoundaries | apps/api/src/index.ts:243-258 | due now and in exactly 7 days is "0-7"; 1 ms past 7 days is "8-30"; 30 days is "8-30"; 60 is "31-60"; 1 ms past 60 is "60+"; 45 days overdue is "8-30" |
| Stats.ComputeStats | apps/api/src/index.ts:24-51 | totals count all invoices and documents; the spend is the absolute spend of invoices dated on or after the year start; the average times the number of ALL invoices is that spend, or 0 when there are none |
| Stats.YtdSpendAdditive | apps/api/src/index.ts:45-48 | the year-to-date spend of two batches is the sum of their spends |
| Stats.OlderInvoicesIgnored | apps/api/src/index.ts:34-48 | undated invoices and invoices dated before the year start add nothing |
| InvoiceListing.Filter | apps/api/src/index.ts:286-311 | a row is kept iff (no or empty search, or the search occurs case-insensitively in the invoice id or vendor name) and (no or empty status, or the status equals the document's) |
| InvoiceListing.FilterMultiset | apps/api/src/index.ts:286-323 | a matching row is kept as many times as it occurs; others not at all |
| InvoiceListing.FilterAppend | apps/api/src/index.ts:286-323 | filtering a concatenation filters each part, so the kept rows stay in their order |
| InvoiceListing.FormatAll | apps/api/src/index.ts:332-340 | one listed row per row, in order |
| InvoiceListing.Format | apps/api/src/index.ts:332-340 | a listed row keeps the id, invoice id, date, status and document id; its total is the absolute invoice total (null as 0); the vendor name falls back to "Unknown" when the vendor or its name is missing or empty |
| InvoiceListing.ListInvoices | apps/api/src/index.ts:277-350 | page and limit are `parseInt` of the query (defaults "1" and "50"); total counts all matches; the rows are the matches from the skip on, at most limit of them, formatted; totalPages is ceil(total/limit); it fails iff a number is NaN, the limit is negative, or the page is below 1 with a positive limit (a skip beyond 64 bits is not modelled) |
| InvoiceListing.SkipSign | apps/api/src/index.ts:279-281 | `(page - 1) * limit` is negative exactly when the page is below 1 and the limit positive; otherwise it is the skip the listing uses |
| InvoiceListing.PageOf | apps/api/src/index.ts:326-327 | `skip`/`take` on a list: at most limit rows, the consecutive rows from the skip on; a full page when enough rows remain, a non-empty one when any remain |
| InvoiceListing.PageSize | apps/api/src/index.ts:326-348 | with a positive limit, pages 1 to totalPages are non-empty and all but the last are full |
| InvoiceListing.PagesCoverAll | apps/api/src/index.ts:326-348 | pages 1 to totalPages, concatenated, are exactly the matching rows in order |
| InvoiceListing.SecondPageOfHundredTwenty | apps/api/src/index.ts:277-348 | with 120 matches and the default limit, page 2 holds 50 rows and there are 3 pages |
| Parents.AddDistinct | apps/api/prisma/seed.ts:60-69 | `Set.add` on an insertion-ordered set: members are the old ones plus the new one, no duplicates, old order kept |
| Parents.Organizations | apps/api/prisma/seed.ts:59-65 | the organization ids collected in a `Set` have no duplicates |
| Parents.Departments | apps/api/prisma/seed.ts:60-66 | the department ids collected in a `Set` have no duplicates |
| Parents.Users | apps/api/prisma/seed.ts:61-68 | the user ids collected in a `Set` have no duplicates |
| Parents.CollectedOrganizations | apps/api/prisma/seed.ts:64-65 | an organization id is collected iff some record has it |
| Parents.CollectedDepartments | apps/api/prisma/seed.ts:64-66 | a department id is collected iff some record has it |
| Parents.CollectedUsers | apps/api/prisma/seed.ts:64-68 | a user id is collected iff it is some record's uploader or non-empty assignee |
| Parents.FirstOrganization | apps/api/prisma/seed.ts:85 | `Array.from(organizations)[0]` is the first record's organization |
| Parents.CreateParents | apps/api/prisma/seed.ts:71-110 | one organization, department and user row per collected id, in collection order |
| Parents.ParentsDistinct | apps/api/prisma/seed.ts:73-110 | no organization, department or user id is created twice |
| Parents.ParentsCoverRecord | apps/api/prisma/seed.ts:64-110 | every record's organization, department, uploader and non-empty assignee has a row |
| Parents.ParentsOnlyMentioned | apps/api/prisma/seed.ts:64-110 | every parent row created is for an id some record mentions |
| Parents.ParentsOwnedByFirst | apps/api/prisma/seed.ts:84-108 | every department and user belongs to the first record's organization, which is created |
| Parents.DisplayNames | apps/api/prisma/seed.ts:77-105 | organization, department and user names and the e-mail share the first 8 characters of the id (all of it when shorter), counting Unicode scalar values rather than UTF-16 code units |
| Normalizer.WrapperDate | apps/api/prisma/seed.ts:131-135 | a `{ $date }` wrapper gives null when absent and its instant when present; an invalid date makes the write throw |
| Normalizer.LeafDate | apps/api/prisma/seed.ts:149-154 | a date leaf is null when missing or empty; otherwise it is the instant its text denotes, and an invalid date throws |
| Normalizer.DocumentOf | apps/api/prisma/seed.ts:119-138 | the document row is written iff the size is a `BigInt` numeral within 64 bits and every date is valid; it keeps the id, name, path, type, status, parent ids and flag, stores the parsed size and instants, and a truthy assignee and analytics id |
| Normalizer.InvoiceOf | apps/api/prisma/seed.ts:145-161 | written iff its date leaves are valid; the invoice id and amounts are `x \|\| null`, the dates the leaves' instants; currency and document type keep a non-empty value and default to "EUR" and "Invoice" |
| Normalizer.PaymentOf | apps/api/prisma/seed.ts:196-214 | written iff its due and discount dates are valid; the dates are the leaves' instants and every other leaf is `x \|\| null`, so zero net days are null |
| Normalizer.LineItemOf | apps/api/prisma/seed.ts:222-233 | the line item belongs to the document; its description is the leaf or ""; its category is `categorizeItem` of that description; the numbers are `x \|\| null` |
| Normalizer.VendorOf | apps/api/prisma/seed.ts:165-177 | the vendor row belongs to the document and every leaf is `x \|\| null` |
| Normalizer.CustomerOf | apps/api/prisma/seed.ts:180-190 | the customer row belongs to the document and every leaf is `x \|\| null` |
| Normalizer.Then | apps/api/prisma/seed.ts:117-237 | later writes run only after earlier ones completed, and are then exactly the later stage's writes appended; a throw keeps the earlier writes |
| Normalizer.InvoiceStage | apps/api/prisma/seed.ts:141-162 | completes iff the section is absent, or present with a value and valid dates; writes one invoice row exactly when it completes with the section present, and that row holds the invoice columns built from the section's value and the summary |
| Normalizer.VendorStage | apps/api/prisma/seed.ts:165-177 | completes iff the section is absent or has a value; one vendor row exactly when present, holding the vendor columns built from the section's value |
| Normalizer.CustomerStage | apps/api/prisma/seed.ts:180-190 | completes iff the section is absent or has a value; one customer row exactly when present, holding the customer columns built from the section's value |
| Normalizer.PaymentStage | apps/api/prisma/seed.ts:193-215 | completes iff the section is absent, or present with a value and valid dates; one payment row exactly when it completes with the section present, holding the payment columns built from the section's value |
| Normalizer.ItemStage | apps/api/prisma/seed.ts:218-235 | one line item per listed item, in order, up to the first `null` item; completes iff no item is `null` |
| Normalizer.ItemStageShape | apps/api/prisma/seed.ts:218-235 | the item loop writes only line items of the record's document |
| Normalizer.Normalize | apps/api/prisma/seed.ts:116-237 | a record writes nothing iff its document row is rejected; otherwise the document row comes first |
| Normalizer.NormalizeShape | apps/api/prisma/seed.ts:119-235 | every row belongs to the record's document; the tables are written in the order document, invoice, vendor, customer, payment, line items; only the first row is a document row |
| Normalizer.NormalizeCompletes | apps/api/prisma/seed.ts:117-237 | a record runs to the end iff it is well formed: an acceptable document, a value in each present section, valid dates, no `null` item |
| Normalizer.NormalizeCounts | apps/api/prisma/seed.ts:141-235 | a completed record wrote one document, one row per present section and one line item per listed item |
| Normalizer.NormalizeLineItems | apps/api/prisma/seed.ts:218-234 | the line items written are the listed items, in order, each with description and category as the mapping defines; all of them when the record completes |
| Normalizer.InvoiceWithoutValue | apps/api/prisma/seed.ts:141-148 | a present invoice section without a value throws after the document row, which stays |
| Normalizer.NullItemStops | apps/api/prisma/seed.ts:221-234 | a `null` at position k stops the record after exactly k line items |
| Normalizer.FileSizeKept | apps/api/prisma/seed.ts:124 | a size written as the numeral of a 64-bit integer is stored as that integer |
| Normalizer.OversizedFileRejected | apps/api/prisma/seed.ts:119-124 | a size beyond 64 bits makes the record write nothing |
| Normalizer.NonNumericSizeRejected | apps/api/prisma/seed.ts:119-124 | a size that is neither blank nor a `BigInt` numeral makes `BigInt` throw, so the record writes nothing and stops |
| Ingestion.Step | apps/api/prisma/seed.ts:116-243 | writes are append-only; a new id appends exactly the rows normalizing the record writes; the count goes up by one iff the id is new and the record is well formed; a stored id leaves everything unchanged |
| Ingestion.Run | apps/api/prisma/seed.ts:116-244 | the count grows by at most the number of records; earlier rows are kept |
| Ingestion.Seed | apps/api/prisma/seed.ts:114-246 | `processedCount` never exceeds the number of records |
| Ingestion.SkipIsOmit | apps/api/prisma/seed.ts:116-243 | a record whose document row is rejected, or whose id is already stored, has the same effect as leaving it out |
| Ingestion.FailedRecordKeepsRows | apps/api/prisma/seed.ts:117-243 | a record that throws after its document row keeps its rows but is not counted |
| Ingestion.SeedStoreOk | apps/api/prisma/seed.ts:116-244 | no two stored documents share an id, and every row's document is stored no later than the row |
| Ingestion.RunCountsWellFormed | apps/api/prisma/seed.ts:116-244 | from any store that lacks the records' distinct ids, the count grows by exactly the number of well-formed records |
| Ingestion.SeedCountsWellFormed | apps/api/prisma/seed.ts:114-246 | with distinct ids, `processedCount` is the number of well-formed records, and all of them when all are well formed |

## Left out

- Database queries, Express routing, CORS, the health check and the
  `/api/chat-with-data` relay (apps/api/src/index.ts:357-390). These are
  I/O; the handlers are modelled as functions of the rows the queries
  return. A `where` clause the database evaluates (`invoiceDate: { not:
  null }`, `gte: ytdStart`) is modelled by the fold's own test, which gives
  the same rows.
- The database `orderBy` in the trends query and the caller-chosen sort in
  the invoice list. The listing receives its rows already in order.
- `toFixed(2)` and `parseFloat`. Amounts are exact integer cents, so the
  rounding to two decimals does nothing in the model.
- The mock percentage changes in `/api/stats` (apps/api/src/index.ts:54-69),
  built from `Math.floor` with 0.94 and 0.86 and constant 8.2 and 12.5.
  They are placeholder float arithmetic.
- Local-time `Date` decomposition and date-text parsing. The month key of an
  instant (`monthOf`), the start of the year (`ytdStart`), the current
  instant (`now`) and the date-text parser (`toInstant`, of type `Normalizer.Clock`) are
  parameters.
  Ordering month keys as numbers stands for comparing the "YYYY-MM" strings.
- Stats.ComputeStats: the average is an exact real, not a float rounded to
  two decimals.
- TopVendors.TopVendorsOrdered: the order among vendors with equal totals
  is not stated. It depends on object key order and sort stability.
- TopVendors.EntriesAgree: the handler sums into a plain object, so a
  vendor named like an `Object.prototype` member (`constructor`, `toString`,
  `valueOf`, ...) starts from the inherited function, `+=` builds a string and
  `toFixed` then throws, and a vendor named `__proto__` is dropped. The model
  keys a map by name and lists such vendors like any other.
- CategorySpend.CategorySpendEntries: the same plain-object accumulation
  goes wrong for a stored category named like an `Object.prototype` member.
  The seed only stores Marketing, Facilities and Operations, and the model
  treats every name alike.
- Numerals.ParseInt: the value is an exact integer. JavaScript's `parseInt`
  returns a double, so numerals beyond 2^53 are rounded; `ParseIntShow`,
  `ParseIntPrefix` and `ParseIntHexPrefix` are stated only up to that bound, and `page` and `limit` values that large
  are not modelled.
- CategorySpend.CategorySpendEntries: the order of the categories is not
  stated. It is object key order (first appearance, but numeric-looking keys
  first), which the endpoint does not promise.
- InvoiceListing.ListInvoices: a negative `take` is a request to page
  backwards, and a NaN or negative `skip` is rejected by the database. The
  model reports all three as errors instead of modelling backward paging.
  The skip `(page - 1) * limit` is a double handed to the database, and a
  skip beyond the database's 64-bit offset (page 4294967297 with limit
  4294967296 gives 2^64) makes the query fail with a 500. The model
  computes the skip on unbounded integers and answers such a query with an
  empty page, so that failure is not modelled.
  The model assumes that the database's `contains` matches `%` and `_`
  literally, as the model's substring test does.
- Text.Prefix: the length counts characters (Unicode scalar values), while
  `slice(0, 8)` counts UTF-16 code units. For ids with characters outside
  the Basic Multilingual Plane the source keeps fewer characters, or cuts a
  surrogate pair in half, which a Dafny string cannot hold. Such ids are
  not modelled, and `Parents.DisplayNames` holds for the others.
- Text.Lower: only ASCII letters are lower-cased. Unicode case mapping is
  not modelled, so `Categorize` and the case-insensitive search agree with
  the source on ASCII text only.
- The payload is typed. A leaf holding a value of the wrong JSON type (a
  string where a number is expected), which the database would reject, is
  not modelled. The `BIC` key of the payment section is the field `bic`.
- Normalizer.DocumentOf: the database's other constraints are not part of
  this model, because the schema file is not part of it. These include
  foreign keys to rows the parent loop created and unique columns. Only the
  document primary key (checked in `Ingestion.Step`) and the 64-bit size
  range are modelled.
- The parent loops run outside any `try`. In the model they cannot fail:
  their ids are distinct, and other constraints (such as a unique e-mail)
  are not part of this model. The unused `emailIndex` counter is left out.
- Reading the data file, JSON parsing, clearing the tables with
  `deleteMany`, console logging (including the progress line every ten
  records) and `process.exit`.
- The web front end and the Python query service, which are not part of
  this model.
