/** `GET /api/invoice-trends`: invoices with a date are grouped by the month
    of that date; each month reports how many invoices it holds and the sum
    of their absolute totals, months in ascending order.

    The month key is abstracted as `monthOf`, a map from an instant to an
    integer whose order is the order of the `"YYYY-MM"` strings (for
    example `12 * year + month - 1`); the local-time decomposition behind it
    is not modelled. */
module Trends {
  import opened Maybe
  import opened Amounts
  import opened Schema
  import opened Grouping

  datatype MonthTrend = MonthTrend(month: int, invoiceCount: nat, totalSpend: nat)

  /** One entry per dated invoice: its month and its spend. */
  function TrendEntries(invoices: seq<Invoice>, monthOf: int -> int): seq<Entry<int>> {
    if |invoices| == 0 then []
    else
      var inv := invoices[|invoices| - 1];
      var front := TrendEntries(invoices[..|invoices| - 1], monthOf);
      match inv.invoiceDate
      case None => front
      case Some(t) => front + [Entry(monthOf(t), Spend(inv.invoiceTotal))]
  }

  function ByMonth(g: Group<int>): int {
    g.key
  }

  function ToTrends(gs: seq<Group<int>>): (ts: seq<MonthTrend>)
    ensures |ts| == |gs|
    ensures forall i :: 0 <= i < |gs| ==> ts[i] == MonthTrend(gs[i].key, gs[i].count, gs[i].total)
  {
    if |gs| == 0 then [] else [MonthTrend(gs[0].key, gs[0].count, gs[0].total)] + ToTrends(gs[1..])
  }

  /** The handler's fold: group the dated invoices by month, then sort the
      months ascending. */
  function InvoiceTrends(invoices: seq<Invoice>, monthOf: int -> int): (r: seq<MonthTrend>)
    ensures forall i, j :: 0 <= i < j < |r| ==> r[i].month <= r[j].month
  {
    ToTrends(Sort(GroupBy(TrendEntries(invoices, monthOf)), ByMonth))
  }

  // Reference definitions, stated directly on the invoices.

  predicate InMonth(inv: Invoice, monthOf: int -> int, m: int) {
    inv.invoiceDate.Some? && monthOf(inv.invoiceDate.value) == m
  }

  /** The number of invoices dated in month `m`. */
  function DatedIn(invoices: seq<Invoice>, monthOf: int -> int, m: int): nat {
    if |invoices| == 0 then 0
    else
      var last := if InMonth(invoices[|invoices| - 1], monthOf, m) then 1 else 0;
      DatedIn(invoices[..|invoices| - 1], monthOf, m) + last
  }

  /** The absolute spend of the invoices dated in month `m`. */
  function SpendIn(invoices: seq<Invoice>, monthOf: int -> int, m: int): nat {
    if |invoices| == 0 then 0
    else
      var inv := invoices[|invoices| - 1];
      var last := if InMonth(inv, monthOf, m) then Spend(inv.invoiceTotal) else 0;
      SpendIn(invoices[..|invoices| - 1], monthOf, m) + last
  }

  /** The number of invoices that have a date. */
  function DatedCount(invoices: seq<Invoice>): nat {
    if |invoices| == 0 then 0
    else
      var last := if invoices[|invoices| - 1].invoiceDate.Some? then 1 else 0;
      DatedCount(invoices[..|invoices| - 1]) + last
  }

  /** The absolute spend of the invoices that have a date. */
  function DatedSpend(invoices: seq<Invoice>): nat {
    if |invoices| == 0 then 0
    else
      var inv := invoices[|invoices| - 1];
      var last := if inv.invoiceDate.Some? then Spend(inv.invoiceTotal) else 0;
      DatedSpend(invoices[..|invoices| - 1]) + last
  }

  function SumCounts(ts: seq<MonthTrend>): nat {
    if |ts| == 0 then 0 else ts[0].invoiceCount + SumCounts(ts[1..])
  }

  function SumSpend(ts: seq<MonthTrend>): nat {
    if |ts| == 0 then 0 else ts[0].totalSpend + SumSpend(ts[1..])
  }

  /** The entries are exactly the dated invoices. */
  lemma {:induction false} EntriesAgree(invoices: seq<Invoice>, monthOf: int -> int, m: int)
    ensures var es := TrendEntries(invoices, monthOf);
      && CountOf(es, m) == DatedIn(invoices, monthOf, m)
      && SumOf(es, m) == SpendIn(invoices, monthOf, m)
      && (m in EntryKeys(es) <==> DatedIn(invoices, monthOf, m) > 0)
      && |es| == DatedCount(invoices)
      && SumAll(es) == DatedSpend(invoices)
  {
    if |invoices| > 0 {
      var front := invoices[..|invoices| - 1];
      EntriesAgree(front, monthOf, m);
      var es := TrendEntries(invoices, monthOf);
      if invoices[|invoices| - 1].invoiceDate.Some? {
        var fe := TrendEntries(front, monthOf);
        assert es[..|es| - 1] == fe;
        AbsentKey(fe, m);
      }
    }
  }

  lemma {:induction false} ToTrendsSums(gs: seq<Group<int>>)
    ensures SumCounts(ToTrends(gs)) == Count(gs)
    ensures SumSpend(ToTrends(gs)) == Total(gs)
  {
    if |gs| > 0 {
      ToTrendsSums(gs[1..]);
      assert ToTrends(gs)[1..] == ToTrends(gs[1..]);
    }
  }

  /** Months come out strictly ascending. */
  lemma InvoiceTrendsAscending(invoices: seq<Invoice>, monthOf: int -> int)
    ensures var ts := InvoiceTrends(invoices, monthOf);
      forall i, j :: 0 <= i < j < |ts| ==> ts[i].month < ts[j].month
  {
    var gs := Sort(GroupBy(TrendEntries(invoices, monthOf)), ByMonth);
    GroupSortOrder(TrendEntries(invoices, monthOf), ByMonth);
    var ts := ToTrends(gs);
    forall i, j | 0 <= i < j < |ts|
      ensures ts[i].month < ts[j].month
    {
      assert ByMonth(gs[i]) <= ByMonth(gs[j]);
      assert gs[i].key != gs[j].key;
    }
  }

  /** There is one entry for every month that has a dated invoice, and for
      no other month. */
  lemma InvoiceTrendsMonths(invoices: seq<Invoice>, monthOf: int -> int, m: int)
    ensures var ts := InvoiceTrends(invoices, monthOf);
      DatedIn(invoices, monthOf, m) > 0 <==> exists i :: 0 <= i < |ts| && ts[i].month == m
  {
    var ts := InvoiceTrends(invoices, monthOf);
    if DatedIn(invoices, monthOf, m) > 0 {
      DatedMonthListed(invoices, monthOf, m);
    }
    if i :| 0 <= i < |ts| && ts[i].month == m {
      ListedMonthDated(invoices, monthOf, m, i);
    }
  }

  lemma DatedMonthListed(invoices: seq<Invoice>, monthOf: int -> int, m: int)
    requires DatedIn(invoices, monthOf, m) > 0
    ensures var ts := InvoiceTrends(invoices, monthOf);
      exists i :: 0 <= i < |ts| && ts[i].month == m
  {
    var es := TrendEntries(invoices, monthOf);
    var gs := Sort(GroupBy(es), ByMonth);
    var ts := ToTrends(gs);
    EntriesAgree(invoices, monthOf, m);
    GroupSortKeys(es, ByMonth, m);
    var i :| 0 <= i < |gs| && gs[i].key == m;
    assert ts[i].month == m;
    assert InvoiceTrends(invoices, monthOf) == ts;
  }

  lemma ListedMonthDated(invoices: seq<Invoice>, monthOf: int -> int, m: int, i: int)
    requires 0 <= i < |InvoiceTrends(invoices, monthOf)| && InvoiceTrends(invoices, monthOf)[i].month == m
    ensures DatedIn(invoices, monthOf, m) > 0
  {
    EntriesAgree(invoices, monthOf, m);
    GroupSortKeyAt(TrendEntries(invoices, monthOf), ByMonth, i);
  }

  /** Each month counts exactly the invoices dated in it and sums their
      absolute totals, a null total adding nothing. */
  lemma InvoiceTrendsPerMonth(invoices: seq<Invoice>, monthOf: int -> int, i: int)
    requires 0 <= i < |InvoiceTrends(invoices, monthOf)|
    ensures var t := InvoiceTrends(invoices, monthOf)[i];
      && 1 <= t.invoiceCount == DatedIn(invoices, monthOf, t.month)
      && t.totalSpend == SpendIn(invoices, monthOf, t.month)
  {
    var es := TrendEntries(invoices, monthOf);
    GroupSortAt(es, ByMonth, i);
    EntriesAgree(invoices, monthOf, InvoiceTrends(invoices, monthOf)[i].month);
  }

  /** Over all months the counts add up to the number of dated invoices and
      the spend to their whole absolute spend: nothing dated is dropped or
      counted twice. */
  lemma InvoiceTrendsConserve(invoices: seq<Invoice>, monthOf: int -> int)
    ensures SumCounts(InvoiceTrends(invoices, monthOf)) == DatedCount(invoices)
    ensures SumSpend(InvoiceTrends(invoices, monthOf)) == DatedSpend(invoices)
  {
    var es := TrendEntries(invoices, monthOf);
    GroupSortSums(es, ByMonth);
    ToTrendsSums(Sort(GroupBy(es), ByMonth));
    EntriesAgree(invoices, monthOf, 0);
  }

  /** An invoice without a date changes nothing in the trends. */
  lemma UndatedIgnored(invoices: seq<Invoice>, inv: Invoice, monthOf: int -> int)
    requires inv.invoiceDate.None?
    ensures InvoiceTrends(invoices + [inv], monthOf) == InvoiceTrends(invoices, monthOf)
  {
    assert (invoices + [inv])[..|invoices|] == invoices;
  }
}
