/** `GET /api/stats`: the overview totals. The year-to-date spend sums the
    absolute invoice totals of the invoices dated on or after the start of
    the current year (`ytdStart`, computed from the local clock by the
    caller); the average divides that spend by the number of ALL invoices,
    dated or not, in this year or not. */
module Stats {
  import opened Maybe
  import opened Amounts
  import opened Schema

  datatype Totals = Totals(
    totalSpend: nat,
    totalInvoices: nat,
    documentsUploaded: nat,
    averageInvoiceValue: real)

  predicate InYear(inv: Invoice, ytdStart: int) {
    inv.invoiceDate.Some? && inv.invoiceDate.value >= ytdStart
  }

  /** Reference: the absolute spend of the invoices dated this year. */
  function YtdSpend(invoices: seq<Invoice>, ytdStart: int): nat {
    if |invoices| == 0 then 0
    else
      var inv := invoices[|invoices| - 1];
      YtdSpend(invoices[..|invoices| - 1], ytdStart) + (if InYear(inv, ytdStart) then Spend(inv.invoiceTotal) else 0)
  }

  /** The handler: `invoices` are all invoice rows, `documentCount` the
      number of document rows. */
  method ComputeStats(invoices: seq<Invoice>, documentCount: nat, ytdStart: int) returns (s: Totals)
    ensures s.totalInvoices == |invoices| && s.documentsUploaded == documentCount
    ensures s.totalSpend == YtdSpend(invoices, ytdStart)
    ensures |invoices| > 0 ==> s.averageInvoiceValue * (|invoices| as real) == s.totalSpend as real
    ensures |invoices| == 0 ==> s.averageInvoiceValue == 0.0
  {
    var spend: nat := 0;
    var i := 0;
    while i < |invoices|
      invariant 0 <= i <= |invoices|
      invariant spend == YtdSpend(invoices[..i], ytdStart)
    {
      assert invoices[..i + 1][..i] == invoices[..i];
      var inv := invoices[i];
      if inv.invoiceDate.Some? && inv.invoiceDate.value >= ytdStart {
        spend := spend + Spend(inv.invoiceTotal);
      }
      i := i + 1;
    }
    assert invoices[..i] == invoices;
    var average := 0.0;
    if |invoices| > 0 {
      average := spend as real / |invoices| as real;
      DivideBack(spend as real, |invoices| as real);
    }
    s := Totals(spend, |invoices|, documentCount, average);
  }

  /** Helper for `ComputeStats`: dividing by a positive count and
      multiplying back gives the dividend. */
  lemma DivideBack(a: real, n: real)
    requires n > 0.0
    ensures (a / n) * n == a
  {
  }

  /** The year-to-date spend does not depend on how the invoices are split:
      it adds up over any two batches. */
  lemma {:induction false} YtdSpendAdditive(a: seq<Invoice>, b: seq<Invoice>, ytdStart: int)
    ensures YtdSpend(a + b, ytdStart) == YtdSpend(a, ytdStart) + YtdSpend(b, ytdStart)
  {
    if |b| > 0 {
      var b' := b[..|b| - 1];
      YtdSpendAdditive(a, b', ytdStart);
      assert (a + b)[..|a + b| - 1] == a + b';
    } else {
      assert a + b == a;
    }
  }

  /** Invoices without a date or dated before the year began add nothing. */
  lemma {:induction false} OlderInvoicesIgnored(invoices: seq<Invoice>, ytdStart: int)
    requires forall i :: 0 <= i < |invoices| ==> !InYear(invoices[i], ytdStart)
    ensures YtdSpend(invoices, ytdStart) == 0
  {
    if |invoices| > 0 {
      OlderInvoicesIgnored(invoices[..|invoices| - 1], ytdStart);
    }
  }
}
