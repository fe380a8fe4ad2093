/** `GET /api/invoices`: the invoice table filtered by an optional search
    text and an optional document status, then cut into pages. Sorting is
    done by the database (`orderBy` on a caller-chosen column), so the rows
    arrive here already in the requested order. */
module InvoiceListing {
  import opened Maybe
  import opened Text
  import opened Amounts
  import opened Numerals
  import opened Schema

  const DefaultPage := "1"
  const DefaultLimit := "50"
  const UnknownVendor := "Unknown"

  /** An invoice row joined with its document's status and vendor. */
  datatype InvoiceWithDocument = InvoiceWithDocument(
    id: string,
    invoice: Invoice,
    status: string,
    vendor: Option<Vendor>)

  /** The query string: every parameter may be absent. */
  datatype Query = Query(
    search: Option<string>,
    status: Option<string>,
    page: Option<string>,
    limit: Option<string>)

  datatype ListedInvoice = ListedInvoice(
    id: string,
    invoiceId: Option<string>,
    invoiceDate: Option<int>,
    vendorName: string,
    invoiceTotal: nat,
    status: string,
    documentId: string)

  /** `totalPages` is `None` where JavaScript computes `Infinity` or `NaN`
      (a limit of zero), which JSON writes as `null`. */
  datatype Pagination = Pagination(total: nat, page: int, limit: int, totalPages: Option<int>)

  datatype Listing = Listing(invoices: seq<ListedInvoice>, pagination: Pagination)

  datatype ListError =
    | NotANumber      // `page` or `limit` is not numeric, so `skip` is NaN
    | NegativeSkip    // page below 1 with a positive limit
    | NegativeLimit   // a negative `take`, which the database reads as paging backwards

  datatype Result = Ok(listing: Listing) | Err(error: ListError)

  /** Prisma's `contains` with `mode: 'insensitive'` on a nullable column. */
  predicate ContainsInsensitive(column: Option<string>, text: string) {
    column.Some? && Includes(Lower(column.value), Lower(text))
  }

  /** The `where` clause. An empty search or status is falsy and filters
      nothing. */
  predicate Matches(row: InvoiceWithDocument, search: Option<string>, status: Option<string>) {
    && (|| search.None? || search.value == ""
        || ContainsInsensitive(row.invoice.invoiceId, search.value)
        || (row.vendor.Some? && ContainsInsensitive(row.vendor.value.vendorName, search.value)))
    && (status.None? || status.value == "" || row.status == status.value)
  }

  /** The matching rows, in their original order. */
  function Filter(rows: seq<InvoiceWithDocument>, search: Option<string>, status: Option<string>): (r: seq<InvoiceWithDocument>)
    ensures |r| <= |rows|
    ensures forall x :: x in r <==> x in rows && Matches(x, search, status)
  {
    if |rows| == 0 then []
    else
      var front := Filter(rows[..|rows| - 1], search, status);
      var x := rows[|rows| - 1];
      assert rows == rows[..|rows| - 1] + [x];
      if Matches(x, search, status) then front + [x] else front
  }

  /** Each matching row is kept as often as it occurs; the others not at all. */
  lemma {:induction false} FilterMultiset(rows: seq<InvoiceWithDocument>, search: Option<string>, status: Option<string>)
    ensures forall x :: multiset(Filter(rows, search, status))[x] == if Matches(x, search, status) then multiset(rows)[x] else 0
  {
    if |rows| > 0 {
      var front := rows[..|rows| - 1];
      var last := rows[|rows| - 1];
      FilterMultiset(front, search, status);
      assert rows == front + [last];
      assert multiset(rows) == multiset(front) + multiset{last};
      if Matches(last, search, status) {
        assert Filter(rows, search, status) == Filter(front, search, status) + [last];
        assert multiset(Filter(rows, search, status)) == multiset(Filter(front, search, status)) + multiset{last};
      } else {
        assert Filter(rows, search, status) == Filter(front, search, status);
      }
    }
  }

  lemma FilterSnoc(rows: seq<InvoiceWithDocument>, x: InvoiceWithDocument, search: Option<string>, status: Option<string>)
    ensures Filter(rows + [x], search, status)
         == Filter(rows, search, status) + (if Matches(x, search, status) then [x] else [])
  {
    assert (rows + [x])[..|rows|] == rows;
  }

  /** Filtering a concatenation filters each part: the kept rows stay in
      their order. With the multiset clause of `Filter`, this fixes the
      result to be the matching rows as a subsequence. */
  lemma {:induction false} FilterAppend(a: seq<InvoiceWithDocument>, b: seq<InvoiceWithDocument>,
                                        search: Option<string>, status: Option<string>)
    ensures Filter(a + b, search, status) == Filter(a, search, status) + Filter(b, search, status)
    decreases |b|
  {
    if |b| == 0 {
      assert a + b == a;
    } else {
      var front := b[..|b| - 1];
      var last := b[|b| - 1];
      var tail := if Matches(last, search, status) then [last] else [];
      assert b == front + [last];
      assert a + b == (a + front) + [last];
      calc {
        Filter(a + b, search, status);
        == { FilterSnoc(a + front, last, search, status); }
        Filter(a + front, search, status) + tail;
        == { FilterAppend(a, front, search, status); }
        (Filter(a, search, status) + Filter(front, search, status)) + tail;
        ==
        Filter(a, search, status) + (Filter(front, search, status) + tail);
        == { FilterSnoc(front, last, search, status); }
        Filter(a, search, status) + Filter(b, search, status);
      }
    }
  }

  /** One listed row: `vendorName` falls back to "Unknown" when the vendor
      or its name is missing or empty, and the total is its absolute value. */
  function Format(row: InvoiceWithDocument): (r: ListedInvoice)
    ensures r.id == row.id && r.invoiceId == row.invoice.invoiceId
    ensures r.invoiceDate == row.invoice.invoiceDate
    ensures r.status == row.status && r.documentId == row.invoice.documentId
    ensures r.invoiceTotal == Spend(row.invoice.invoiceTotal)
    ensures row.vendor.Some? ==> r.vendorName == StrOr(row.vendor.value.vendorName, UnknownVendor)
    ensures row.vendor.None? ==> r.vendorName == UnknownVendor
  {
    var name := if row.vendor.Some? then StrOr(row.vendor.value.vendorName, UnknownVendor) else UnknownVendor;
    ListedInvoice(row.id, row.invoice.invoiceId, row.invoice.invoiceDate, name,
                  Spend(row.invoice.invoiceTotal), row.status, row.invoice.documentId)
  }

  function FormatAll(rows: seq<InvoiceWithDocument>): (r: seq<ListedInvoice>)
    ensures |r| == |rows|
    ensures forall i :: 0 <= i < |rows| ==> r[i] == Format(rows[i])
  {
    if |rows| == 0 then [] else [Format(rows[0])] + FormatAll(rows[1..])
  }

  /** `a * b` on naturals, by repeated addition. Spelling the product out
      keeps the page arithmetic below linear for the verifier;
      `TimesIsProduct` says it is the product. */
  function Times(a: nat, b: nat): nat {
    if a == 0 then 0 else Times(a - 1, b) + b
  }

  lemma {:induction false} TimesIsProduct(a: nat, b: nat)
    ensures Times(a, b) == a * b
  {
    if a > 0 {
      TimesIsProduct(a - 1, b);
    }
  }

  /** The handler's `skip`, `(page - 1) * limit`, for the pages it accepts:
      a page below 1 is only accepted with a limit of 0, where the skip is 0. */
  function SkipOf(page: int, limit: nat): nat {
    if page <= 1 then 0 else Times(page - 1, limit)
  }

  /** `(page - 1) * limit` is negative exactly when the page is below 1 and
      the limit positive, and otherwise it is `SkipOf(page, limit)`. */
  lemma SkipSign(page: int, limit: nat)
    ensures (page - 1) * limit < 0 <==> page < 1 && limit > 0
    ensures (page - 1) * limit >= 0 ==> SkipOf(page, limit) == (page - 1) * limit
  {
    if page > 1 {
      TimesIsProduct(page - 1, limit);
    }
  }

  /** `skip, take: limit` on a list. */
  function PageOf<T>(xs: seq<T>, skip: nat, limit: nat): (r: seq<T>)
    ensures |r| <= limit
    ensures skip < |xs| ==> |r| > 0 || limit == 0
    ensures skip + limit <= |xs| ==> |r| == limit
    ensures skip <= |xs| ==> |r| <= |xs| - skip && r == xs[skip..skip + |r|]
    ensures skip > |xs| ==> r == []
  {
    var lo := if skip <= |xs| then skip else |xs|;
    var hi := if lo + limit <= |xs| then lo + limit else |xs|;
    xs[lo..hi]
  }

  /** The handler. A negative skip (page below 1 with a positive limit) is
      written as `page < 1 && limit > 0`, which `SkipSign` shows to be the
      same test as `(page - 1) * limit < 0`. */
  function ListInvoices(rows: seq<InvoiceWithDocument>, q: Query): (r: Result)
    ensures r.Ok? ==>
      var p := r.listing.pagination;
      && ParseInt(q.page.GetOr(DefaultPage)) == Some(p.page)
      && ParseInt(q.limit.GetOr(DefaultLimit)) == Some(p.limit)
      && p.limit >= 0 && (p.page >= 1 || p.limit == 0)
      && p.total == |Filter(rows, q.search, q.status)|
      && r.listing.invoices == FormatAll(PageOf(Filter(rows, q.search, q.status), SkipOf(p.page, p.limit), p.limit))
      && (p.limit > 0 ==> p.totalPages == Some(CeilDiv(p.total, p.limit)))
      && (p.limit == 0 ==> p.totalPages.None?)
    ensures r.Err? <==>
      || ParseInt(q.page.GetOr(DefaultPage)).None?
      || ParseInt(q.limit.GetOr(DefaultLimit)).None?
      || ParseInt(q.limit.GetOr(DefaultLimit)).value < 0
      || (ParseInt(q.page.GetOr(DefaultPage)).value < 1 && ParseInt(q.limit.GetOr(DefaultLimit)).value > 0)
  {
    var pageNum := ParseInt(q.page.GetOr(DefaultPage));
    var limitNum := ParseInt(q.limit.GetOr(DefaultLimit));
    if pageNum.None? || limitNum.None? then Err(NotANumber)
    else if limitNum.value < 0 then Err(NegativeLimit)
    else if pageNum.value < 1 && limitNum.value > 0 then Err(NegativeSkip)
    else
      var page := pageNum.value;
      var limit := limitNum.value;
      var matching := Filter(rows, q.search, q.status);
      var total := |matching|;
      var totalPages := if limit > 0 then Some(CeilDiv(total, limit)) else None;
      Ok(Listing(FormatAll(PageOf(matching, SkipOf(page, limit), limit)), Pagination(total, page, limit, totalPages)))
  }

  /** Pages 1 to n, one after the other. */
  function PagesUpTo<T>(xs: seq<T>, n: nat, limit: nat): seq<T> {
    if n == 0 then [] else PagesUpTo(xs, n - 1, limit) + PageOf(xs, SkipOf(n, limit), limit)
  }

  lemma {:induction false} PagesUpToPrefix<T>(xs: seq<T>, n: nat, limit: nat)
    ensures PagesUpTo(xs, n, limit) == xs[..if Times(n, limit) <= |xs| then Times(n, limit) else |xs|]
  {
    if n > 0 {
      PagesUpToPrefix(xs, n - 1, limit);
      assert SkipOf(n, limit) == Times(n - 1, limit);
      assert Times(n, limit) == Times(n - 1, limit) + limit;
    }
  }

  /** Where page `p` of a list of `len` starts and ends, in terms of the page
      count `CeilDiv(len, limit)`. */
  lemma PageBounds(len: nat, p: int, limit: nat)
    requires limit > 0 && 1 <= p <= CeilDiv(len, limit)
    ensures SkipOf(p, limit) < len
    ensures p < CeilDiv(len, limit) ==> SkipOf(p, limit) + limit <= len
  {
    var n := CeilDiv(len, limit);
    TimesIsProduct(p - 1, limit);
    TimesIsProduct(n - 1, limit);
    assert SkipOf(p, limit) == (p - 1) * limit;
    MulMonotone(p - 1, n - 1, limit);
    if p < n {
      MulMonotone(p, n - 1, limit);
    }
  }

  lemma MulMonotone(a: int, b: int, c: nat)
    requires a <= b
    ensures a * c <= b * c
  {
    assert b * c - a * c == (b - a) * c;
  }

  /** Pages before the last one are full; the last one is not empty. */
  lemma PageSize<T>(xs: seq<T>, p: int, limit: nat)
    requires limit > 0 && 1 <= p <= CeilDiv(|xs|, limit)
    ensures |PageOf(xs, SkipOf(p, limit), limit)| > 0
    ensures p < CeilDiv(|xs|, limit) ==> |PageOf(xs, SkipOf(p, limit), limit)| == limit
  {
    PageBounds(|xs|, p, limit);
  }

  /** Paging through pages 1 to `totalPages` yields every matching row
      exactly once and in order; every one of those pages is non-empty and
      all but the last are full. */
  lemma PagesCoverAll<T>(xs: seq<T>, limit: nat)
    requires limit > 0
    ensures PagesUpTo(xs, CeilDiv(|xs|, limit), limit) == xs
    ensures forall p :: 1 <= p <= CeilDiv(|xs|, limit) ==> |PageOf(xs, SkipOf(p, limit), limit)| > 0
    ensures forall p :: 1 <= p < CeilDiv(|xs|, limit) ==> |PageOf(xs, SkipOf(p, limit), limit)| == limit
  {
    var n := CeilDiv(|xs|, limit);
    PagesUpToPrefix(xs, n, limit);
    TimesIsProduct(n, limit);
    assert Times(n, limit) >= |xs|;
    forall p | 1 <= p <= n
      ensures |PageOf(xs, SkipOf(p, limit), limit)| > 0
      ensures p < n ==> |PageOf(xs, SkipOf(p, limit), limit)| == limit
    {
      PageSize(xs, p, limit);
    }
  }

  lemma ParseTwo()
    ensures ParseInt("2") == Some(2)
  {
    assert !IsSpace('2');
    assert TrimStart("2") == "2";
    assert LeadingDigits("2", 10) == "2";
    assert ValueOf("2", 10) == 2;
  }

  lemma ParseFifty()
    ensures ParseInt("50") == Some(50)
  {
    assert !IsSpace('5');
    assert TrimStart("50") == "50";
    assert LeadingDigits("0", 10) == "0";
    assert LeadingDigits("50", 10) == "50";
    assert "50"[..1] == "5";
    assert ValueOf("50", 10) == 50;
  }

  /** A query whose page and limit parse to an accepted page and a positive
      limit lists that page of the matching rows. */
  lemma ListingOf(rows: seq<InvoiceWithDocument>, q: Query, page: int, limit: nat)
    requires ParseInt(q.page.GetOr(DefaultPage)) == Some(page)
    requires ParseInt(q.limit.GetOr(DefaultLimit)) == Some(limit)
    requires page >= 1 && limit > 0
    ensures var r := ListInvoices(rows, q);
      var matching := Filter(rows, q.search, q.status);
      && r.Ok?
      && r.listing.invoices == FormatAll(PageOf(matching, SkipOf(page, limit), limit))
      && r.listing.pagination == Pagination(|matching|, page, limit, Some(CeilDiv(|matching|, limit)))
  {
  }

  /** An example of `PageSize` and `PagesCoverAll` at work: with 120
      matching invoices and the default limit of 50, page 2 holds 50
      invoices and there are 3 pages. */
  lemma SecondPageOfHundredTwenty(rows: seq<InvoiceWithDocument>, search: Option<string>, status: Option<string>)
    requires |Filter(rows, search, status)| == 120
    ensures var r := ListInvoices(rows, Query(search, status, Some("2"), None));
      r.Ok? && |r.listing.invoices| == 50 && r.listing.pagination.totalPages == Some(3)
  {
    var q := Query(search, status, Some("2"), None);
    assert q.page.GetOr(DefaultPage) == "2";
    assert q.limit.GetOr(DefaultLimit) == "50";
    ParseTwo();
    ParseFifty();
    ListingOf(rows, q, 2, 50);
    assert CeilDiv(120, 50) == 3;
    assert SkipOf(2, 50) == 50 by {
      assert Times(1, 50) == Times(0, 50) + 50;
    }
  }
}
