/** `GET /api/vendors/top10`: the spend of every vendor row is the absolute
    total of its document's invoice (nothing when the document has no
    invoice or the total is null), summed per vendor name; a missing or
    empty name is counted under "Unknown Vendor". The ten largest sums are
    returned, largest first. */
module TopVendors {
  import opened Maybe
  import opened Text
  import opened Amounts
  import opened Schema
  import opened Grouping

  const TopCount := 10
  const UnknownVendor := "Unknown Vendor"

  datatype VendorSpend = VendorSpend(vendorName: string, totalSpend: nat)

  /** A vendor row together with the invoice of the same document, if any. */
  datatype VendorWithInvoice = VendorWithInvoice(vendor: Vendor, invoice: Option<Invoice>)

  function NameOf(v: VendorWithInvoice): string {
    StrOr(v.vendor.vendorName, UnknownVendor)
  }

  function SpendOf(v: VendorWithInvoice): nat {
    if v.invoice.Some? then Spend(v.invoice.value.invoiceTotal) else 0
  }

  function VendorEntries(rows: seq<VendorWithInvoice>): (es: seq<Entry<string>>)
    ensures |es| == |rows|
    ensures forall i :: 0 <= i < |rows| ==> es[i] == Entry(NameOf(rows[i]), SpendOf(rows[i]))
  {
    if |rows| == 0 then []
    else VendorEntries(rows[..|rows| - 1]) + [Entry(NameOf(rows[|rows| - 1]), SpendOf(rows[|rows| - 1]))]
  }

  /** Sorting ascending on the negated total puts the largest total first. */
  function ByTotalDesc(g: Group<string>): int {
    -(g.total as int)
  }

  function ToSpends(gs: seq<Group<string>>): (r: seq<VendorSpend>)
    ensures |r| == |gs|
    ensures forall i :: 0 <= i < |gs| ==> r[i] == VendorSpend(gs[i].key, gs[i].total)
  {
    if |gs| == 0 then [] else [VendorSpend(gs[0].key, gs[0].total)] + ToSpends(gs[1..])
  }

  function Ranked(rows: seq<VendorWithInvoice>): seq<Group<string>> {
    Sort(GroupBy(VendorEntries(rows)), ByTotalDesc)
  }

  /** The handler's fold: sum per name, sort by sum descending, keep ten. */
  function TopVendors(rows: seq<VendorWithInvoice>): (r: seq<VendorSpend>)
    ensures |r| <= TopCount && |r| <= |Ranked(rows)|
    ensures |r| == TopCount || |r| == |Ranked(rows)|
    ensures forall i :: 0 <= i < |r| ==> r[i] == VendorSpend(Ranked(rows)[i].key, Ranked(rows)[i].total)
  {
    var gs := Ranked(rows);
    ToSpends(if |gs| <= TopCount then gs else gs[..TopCount])
  }

  // Reference definitions, stated directly on the vendor rows.

  /** Some vendor row goes by the name `n`. */
  predicate Named(rows: seq<VendorWithInvoice>, n: string) {
    exists i :: 0 <= i < |rows| && NameOf(rows[i]) == n
  }

  /** The spend of all vendor rows that go by the name `n`. */
  function VendorTotal(rows: seq<VendorWithInvoice>, n: string): nat {
    if |rows| == 0 then 0
    else
      var v := rows[|rows| - 1];
      VendorTotal(rows[..|rows| - 1], n) + (if NameOf(v) == n then SpendOf(v) else 0)
  }

  lemma {:induction false} EntriesAgree(rows: seq<VendorWithInvoice>, n: string)
    ensures SumOf(VendorEntries(rows), n) == VendorTotal(rows, n)
    ensures n in EntryKeys(VendorEntries(rows)) <==> Named(rows, n)
  {
    if |rows| > 0 {
      var front := rows[..|rows| - 1];
      EntriesAgree(front, n);
      var es := VendorEntries(rows);
      assert es[..|es| - 1] == VendorEntries(front);
      if Named(front, n) {
        var i :| 0 <= i < |front| && NameOf(front[i]) == n;
        assert rows[i] == front[i];
      }
      if Named(rows, n) && NameOf(rows[|rows| - 1]) != n {
        var i :| 0 <= i < |rows| && NameOf(rows[i]) == n;
        assert front[i] == rows[i];
      }
    }
  }

  /** At most ten vendors are returned, and fewer only when every vendor
      name is already among them. */
  lemma TopVendorsBound(rows: seq<VendorWithInvoice>, n: string)
    ensures |TopVendors(rows)| <= TopCount
    ensures |TopVendors(rows)| < TopCount && Named(rows, n) ==>
      exists i :: 0 <= i < |TopVendors(rows)| && TopVendors(rows)[i].vendorName == n
  {
    var gs := Ranked(rows);
    var es := VendorEntries(rows);
    var r := TopVendors(rows);
    if |r| < TopCount && Named(rows, n) {
      assert |r| == |gs|;
      EntriesAgree(rows, n);
      GroupSortKeys(es, ByTotalDesc, n);
      var i :| 0 <= i < |gs| && gs[i].key == n;
      assert r[i] == VendorSpend(gs[i].key, gs[i].total);
    }
  }

  /** Names are distinct and the totals never increase down the list. */
  lemma TopVendorsOrdered(rows: seq<VendorWithInvoice>)
    ensures var r := TopVendors(rows);
      forall i, j :: 0 <= i < j < |r| ==>
        r[i].vendorName != r[j].vendorName && r[i].totalSpend >= r[j].totalSpend
  {
    var gs := Ranked(rows);
    GroupSortOrder(VendorEntries(rows), ByTotalDesc);
    var r := TopVendors(rows);
    forall i, j | 0 <= i < j < |r|
      ensures r[i].vendorName != r[j].vendorName && r[i].totalSpend >= r[j].totalSpend
    {
      assert r[i].vendorName == gs[i].key && r[j].vendorName == gs[j].key;
      assert ByTotalDesc(gs[i]) <= ByTotalDesc(gs[j]);
    }
  }

  /** Each listed vendor is a name some row goes by, and its total is the
      whole spend of the rows with that name. */
  lemma TopVendorsTotals(rows: seq<VendorWithInvoice>, i: int)
    requires 0 <= i < |TopVendors(rows)|
    ensures var v := TopVendors(rows)[i];
      Named(rows, v.vendorName) && v.totalSpend == VendorTotal(rows, v.vendorName)
  {
    var es := VendorEntries(rows);
    var gs := Ranked(rows);
    assert TopVendors(rows)[i] == VendorSpend(gs[i].key, gs[i].total);
    GroupSortAt(es, ByTotalDesc, i);
    GroupSortKeyAt(es, ByTotalDesc, i);
    EntriesAgree(rows, gs[i].key);
  }

  /** A vendor left off the list spent no more than the last one on it. */
  lemma TopVendorsAreTop(rows: seq<VendorWithInvoice>, n: string)
    requires Named(rows, n)
    requires forall i :: 0 <= i < |TopVendors(rows)| ==> TopVendors(rows)[i].vendorName != n
    ensures |TopVendors(rows)| == TopCount
    ensures VendorTotal(rows, n) <= TopVendors(rows)[TopCount - 1].totalSpend
  {
    var r := TopVendors(rows);
    TopVendorsBound(rows, n);
    var k := RankOf(rows, n);
    var gs := Ranked(rows);
    GroupSortOrder(VendorEntries(rows), ByTotalDesc);
    assert ByTotalDesc(gs[TopCount - 1]) <= ByTotalDesc(gs[k]);
    assert r[TopCount - 1].totalSpend == gs[TopCount - 1].total;
  }

  /** The position of a vendor name in the full ranking. */
  lemma RankOf(rows: seq<VendorWithInvoice>, n: string) returns (k: nat)
    requires Named(rows, n)
    ensures k < |Ranked(rows)| && Ranked(rows)[k].key == n
    ensures Ranked(rows)[k].total == VendorTotal(rows, n)
  {
    var es := VendorEntries(rows);
    var gs := Sort(GroupBy(es), ByTotalDesc);
    assert gs == Ranked(rows);
    EntriesAgree(rows, n);
    GroupSortKeys(es, ByTotalDesc, n);
    k :| 0 <= k < |gs| && gs[k].key == n;
    GroupSortAt(es, ByTotalDesc, k);
  }

  /** An example of the name fallback: two vendor rows without a name, one
      null and one empty, fall into a single "Unknown Vendor" entry that
      carries their combined spend. */
  lemma UnnamedVendorsMerge(a: VendorWithInvoice, b: VendorWithInvoice)
    requires a.vendor.vendorName.None?
    requires b.vendor.vendorName == Some("")
    ensures TopVendors([a, b]) == [VendorSpend(UnknownVendor, SpendOf(a) + SpendOf(b))]
  {
    var ea := Entry(UnknownVendor, SpendOf(a));
    var eb := Entry(UnknownVendor, SpendOf(b));
    var es := VendorEntries([a, b]);
    assert es == [ea, eb];
    assert es[..1] == [ea] && [ea][..0] == [];
    var g1 := GroupBy([ea]);
    assert g1 == Add([], ea) == [Group(UnknownVendor, 1, SpendOf(a))];
    var g := Group(UnknownVendor, 2, SpendOf(a) + SpendOf(b));
    assert GroupBy(es) == Add(g1, eb) == [g];
    assert Sort([g], ByTotalDesc) == [g];
    assert Ranked([a, b]) == [g];
  }
}
