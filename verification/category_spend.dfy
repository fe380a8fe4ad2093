/** `GET /api/category-spend`: the absolute total price of every line item
    (nothing for a null price) summed per category, a missing or empty
    category counting as "Operations". Categories come out in the order they
    first appear. */
module CategorySpend {
  import opened Maybe
  import opened Text
  import opened Amounts
  import opened Schema
  import opened Grouping

  const DefaultCategory := "Operations"

  datatype CategoryTotal = CategoryTotal(category: string, total: nat)

  function CategoryOf(item: LineItem): string {
    StrOr(item.category, DefaultCategory)
  }

  function CategoryEntries(items: seq<LineItem>): (es: seq<Entry<string>>)
    ensures |es| == |items|
    ensures forall i :: 0 <= i < |items| ==> es[i] == Entry(CategoryOf(items[i]), Spend(items[i].totalPrice))
  {
    if |items| == 0 then []
    else CategoryEntries(items[..|items| - 1]) + [Entry(CategoryOf(items[|items| - 1]), Spend(items[|items| - 1].totalPrice))]
  }

  function ToTotals(gs: seq<Group<string>>): (r: seq<CategoryTotal>)
    ensures |r| == |gs|
    ensures forall i :: 0 <= i < |gs| ==> r[i] == CategoryTotal(gs[i].key, gs[i].total)
  {
    if |gs| == 0 then [] else [CategoryTotal(gs[0].key, gs[0].total)] + ToTotals(gs[1..])
  }

  /** The handler: sum the absolute line totals per category. */
  function CategorySpend(items: seq<LineItem>): (r: seq<CategoryTotal>)
    ensures r == [] <==> items == []
  {
    ToTotals(GroupBy(CategoryEntries(items)))
  }

  // Reference definitions, stated directly on the line items.

  predicate HasCategory(items: seq<LineItem>, c: string) {
    exists i :: 0 <= i < |items| && CategoryOf(items[i]) == c
  }

  /** The spend of the line items of category `c`. */
  function SpendIn(items: seq<LineItem>, c: string): nat {
    if |items| == 0 then 0
    else
      var it := items[|items| - 1];
      SpendIn(items[..|items| - 1], c) + (if CategoryOf(it) == c then Spend(it.totalPrice) else 0)
  }

  /** The spend of all line items. */
  function AllSpend(items: seq<LineItem>): nat {
    if |items| == 0 then 0 else AllSpend(items[..|items| - 1]) + Spend(items[|items| - 1].totalPrice)
  }

  function SumTotals(r: seq<CategoryTotal>): nat {
    if |r| == 0 then 0 else r[0].total + SumTotals(r[1..])
  }

  lemma {:induction false} EntriesAgree(items: seq<LineItem>, c: string)
    ensures SumOf(CategoryEntries(items), c) == SpendIn(items, c)
    ensures SumAll(CategoryEntries(items)) == AllSpend(items)
    ensures c in EntryKeys(CategoryEntries(items)) <==> HasCategory(items, c)
  {
    if |items| > 0 {
      var front := items[..|items| - 1];
      EntriesAgree(front, c);
      var es := CategoryEntries(items);
      assert es[..|es| - 1] == CategoryEntries(front);
      if HasCategory(front, c) {
        var i :| 0 <= i < |front| && CategoryOf(front[i]) == c;
        assert items[i] == front[i];
      }
      if HasCategory(items, c) && CategoryOf(items[|items| - 1]) != c {
        var i :| 0 <= i < |items| && CategoryOf(items[i]) == c;
        assert front[i] == items[i];
      }
    }
  }

  lemma {:induction false} ToTotalsSum(gs: seq<Group<string>>)
    ensures SumTotals(ToTotals(gs)) == Total(gs)
  {
    if |gs| > 0 {
      ToTotalsSum(gs[1..]);
      assert ToTotals(gs)[1..] == ToTotals(gs[1..]);
    }
  }

  /** One entry per distinct category that some line item has, and no other;
      each entry's total is the whole spend of its category. */
  lemma CategorySpendEntries(items: seq<LineItem>, c: string)
    ensures var r := CategorySpend(items);
      && (forall i, j :: 0 <= i < j < |r| ==> r[i].category != r[j].category)
      && (HasCategory(items, c) <==> exists i :: 0 <= i < |r| && r[i].category == c)
      && (forall i :: 0 <= i < |r| ==> r[i].total == SpendIn(items, r[i].category))
  {
    var es := CategoryEntries(items);
    var gs := GroupBy(es);
    GroupByCounts(es);
    var r := ToTotals(gs);
    assert CategorySpend(items) == r;
    DistinctKeysAt(gs);
    EntriesAgree(items, c);
    KeysAt(gs, c);
    if i :| 0 <= i < |r| && r[i].category == c {
      assert gs[i].key == c;
    }
    if HasCategory(items, c) {
      var i :| 0 <= i < |gs| && gs[i].key == c;
      assert r[i].category == c;
    }
    forall i | 0 <= i < |r|
      ensures r[i].total == SpendIn(items, r[i].category)
    {
      assert gs[i].total == SumOf(es, gs[i].key);
      EntriesAgree(items, gs[i].key);
    }
  }

  /** The category totals add up to the absolute spend of all line items. */
  lemma CategorySpendConserves(items: seq<LineItem>)
    ensures SumTotals(CategorySpend(items)) == AllSpend(items)
  {
    ToTotalsSum(GroupBy(CategoryEntries(items)));
    EntriesAgree(items, DefaultCategory);
  }
}
