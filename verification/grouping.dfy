/** The accumulate-into-an-object idiom of the dashboard handlers
    (`if (!acc[key]) acc[key] = 0; acc[key] += amount`) and the sort that
    follows it. A group list plays the role of the JavaScript object: one
    group per key, in the order the keys first appeared. */
module Grouping {

  /** One amount to be added under a key. */
  datatype Entry<K> = Entry(key: K, amount: nat)

  /** The accumulated state of one key: how many entries, and their sum. */
  datatype Group<K> = Group(key: K, count: nat, total: nat)

  ghost function Keys<K>(gs: seq<Group<K>>): set<K> {
    if |gs| == 0 then {} else {gs[0].key} + Keys(gs[1..])
  }

  ghost function EntryKeys<K>(es: seq<Entry<K>>): set<K> {
    if |es| == 0 then {} else EntryKeys(es[..|es| - 1]) + {es[|es| - 1].key}
  }

  /** No key has two groups. */
  ghost predicate DistinctKeys<K>(gs: seq<Group<K>>) {
    |gs| == 0 || (gs[0].key !in Keys(gs[1..]) && DistinctKeys(gs[1..]))
  }

  lemma {:induction false} KeysAt<K>(gs: seq<Group<K>>, k: K)
    ensures k in Keys(gs) <==> exists i :: 0 <= i < |gs| && gs[i].key == k
  {
    if |gs| > 0 {
      KeysAt(gs[1..], k);
      assert forall i :: 0 < i < |gs| ==> gs[i] == gs[1..][i - 1];
    }
  }

  /** Distinct keys, said index by index. */
  lemma {:induction false} DistinctKeysAt<K>(gs: seq<Group<K>>)
    requires DistinctKeys(gs)
    ensures forall i, j :: 0 <= i < j < |gs| ==> gs[i].key != gs[j].key
  {
    if |gs| > 0 {
      DistinctKeysAt(gs[1..]);
      forall j | 0 < j < |gs|
        ensures gs[0].key != gs[j].key
      {
        KeysAt(gs[1..], gs[j].key);
        assert gs[1..][j - 1] == gs[j];
      }
      forall i, j | 0 < i < j < |gs|
        ensures gs[i].key != gs[j].key
      {
        assert gs[i] == gs[1..][i - 1] && gs[j] == gs[1..][j - 1];
      }
    }
  }

  function Total<K>(gs: seq<Group<K>>): nat {
    if |gs| == 0 then 0 else gs[0].total + Total(gs[1..])
  }

  function Count<K>(gs: seq<Group<K>>): nat {
    if |gs| == 0 then 0 else gs[0].count + Count(gs[1..])
  }

  /** Reference: the number of entries under key `k`. */
  function CountOf<K(==)>(es: seq<Entry<K>>, k: K): nat {
    if |es| == 0 then 0
    else CountOf(es[..|es| - 1], k) + (if es[|es| - 1].key == k then 1 else 0)
  }

  /** Reference: the sum of the amounts under key `k`. */
  function SumOf<K(==)>(es: seq<Entry<K>>, k: K): nat {
    if |es| == 0 then 0
    else SumOf(es[..|es| - 1], k) + (if es[|es| - 1].key == k then es[|es| - 1].amount else 0)
  }

  /** Reference: the sum of all amounts. */
  function SumAll<K>(es: seq<Entry<K>>): nat {
    if |es| == 0 then 0 else SumAll(es[..|es| - 1]) + es[|es| - 1].amount
  }

  function Bump<K>(g: Group<K>, amount: nat): Group<K> {
    g.(count := g.count + 1, total := g.total + amount)
  }

  /** Adds one entry: the group of its key is bumped, or a new group with
      just this entry is appended when the key has not been seen. */
  function Add<K(==)>(gs: seq<Group<K>>, e: Entry<K>): (r: seq<Group<K>>)
    requires DistinctKeys(gs)
    ensures DistinctKeys(r)
    ensures Keys(r) == Keys(gs) + {e.key}
    ensures Total(r) == Total(gs) + e.amount
    ensures Count(r) == Count(gs) + 1
    ensures |r| == if e.key in Keys(gs) then |gs| else |gs| + 1
    ensures forall i :: 0 <= i < |gs| ==> r[i] == if gs[i].key == e.key then Bump(gs[i], e.amount) else gs[i]
    ensures e.key !in Keys(gs) ==> r[|gs|] == Group(e.key, 1, e.amount)
  {
    if |gs| == 0 then [Group(e.key, 1, e.amount)]
    else if gs[0].key == e.key then
      KeysAt(gs[1..], e.key);
      assert forall i :: 0 < i < |gs| ==> gs[i] == gs[1..][i - 1];
      [Bump(gs[0], e.amount)] + gs[1..]
    else
      var rest := Add(gs[1..], e);
      var r := [gs[0]] + rest;
      assert r[1..] == rest;
      r
  }

  /** A key no entry carries has no entries and no sum. */
  lemma {:induction false} AbsentKey<K>(es: seq<Entry<K>>, k: K)
    ensures k !in EntryKeys(es) ==> CountOf(es, k) == 0 && SumOf(es, k) == 0
  {
    if |es| > 0 {
      assert EntryKeys(es[..|es| - 1]) <= EntryKeys(es);
      AbsentKey(es[..|es| - 1], k);
    }
  }

  /** Folds the entries, in order, into one group per distinct key. */
  function GroupBy<K(==)>(es: seq<Entry<K>>): (gs: seq<Group<K>>)
    ensures DistinctKeys(gs)
    ensures Keys(gs) == EntryKeys(es)
    ensures Total(gs) == SumAll(es) && Count(gs) == |es|
  {
    if |es| == 0 then []
    else
      var front := es[..|es| - 1];
      var e := es[|es| - 1];
      AbsentKey(front, e.key);
      Add(GroupBy(front), e)
  }

  /** Each group holds the number and the sum of exactly its key's entries. */
  lemma {:induction false} GroupByCounts<K>(es: seq<Entry<K>>)
    ensures forall i :: 0 <= i < |GroupBy(es)| ==>
      1 <= GroupBy(es)[i].count == CountOf(es, GroupBy(es)[i].key)
      && GroupBy(es)[i].total == SumOf(es, GroupBy(es)[i].key)
  {
    if |es| > 0 {
      var front := es[..|es| - 1];
      var e := es[|es| - 1];
      var before := GroupBy(front);
      GroupByCounts(front);
      AbsentKey(front, e.key);
      var r := GroupBy(es);
      assert r == Add(before, e);
      forall i | 0 <= i < |r|
        ensures 1 <= r[i].count == CountOf(es, r[i].key) && r[i].total == SumOf(es, r[i].key)
      {
        var k := r[i].key;
        assert CountOf(es, k) == CountOf(front, k) + (if e.key == k then 1 else 0);
        assert SumOf(es, k) == SumOf(front, k) + (if e.key == k then e.amount else 0);
        if i < |before| {
          var g := before[i];
          assert 1 <= g.count == CountOf(front, g.key) && g.total == SumOf(front, g.key);
          if g.key == e.key {
            assert r[i] == Bump(g, e.amount);
          } else {
            assert r[i] == g;
          }
        } else {
          assert e.key !in Keys(before) && i == |before|;
          assert r[i] == Group(e.key, 1, e.amount);
        }
      }
    }
  }

  predicate SortedBy<K>(gs: seq<Group<K>>, rank: Group<K> -> int) {
    forall i, j :: 0 <= i < j < |gs| ==> rank(gs[i]) <= rank(gs[j])
  }

  /** Inserts `g` before the first group whose rank is not below its own. */
  function Insert<K>(g: Group<K>, gs: seq<Group<K>>, rank: Group<K> -> int): (r: seq<Group<K>>)
    ensures multiset(r) == multiset(gs) + multiset{g}
  {
    if |gs| == 0 || rank(g) <= rank(gs[0]) then [g] + gs
    else
      assert gs == [gs[0]] + gs[1..];
      [gs[0]] + Insert(g, gs[1..], rank)
  }

  /** Inserting into a sorted list keeps it sorted. */
  lemma {:induction false} InsertSorted<K>(g: Group<K>, gs: seq<Group<K>>, rank: Group<K> -> int)
    requires SortedBy(gs, rank)
    ensures SortedBy(Insert(g, gs, rank), rank)
  {
    if |gs| > 0 && rank(g) > rank(gs[0]) {
      var rest := Insert(g, gs[1..], rank);
      InsertSorted(g, gs[1..], rank);
      assert rest[0] == g || rest[0] == gs[1];
      assert rank(gs[0]) <= rank(rest[0]);
      var r := Insert(g, gs, rank);
      assert r == [gs[0]] + rest;
      forall i, j | 0 <= i < j < |r|
        ensures rank(r[i]) <= rank(r[j])
      {
        if i == 0 {
          assert r[j] == rest[j - 1];
          assert rank(rest[0]) <= rank(rest[j - 1]);
        } else {
          assert r[i] == rest[i - 1] && r[j] == rest[j - 1];
        }
      }
    }
  }

  /** Inserting keeps the keys, the sum and the distinctness of keys. */
  lemma {:induction false} InsertKeeps<K>(g: Group<K>, gs: seq<Group<K>>, rank: Group<K> -> int)
    ensures Keys(Insert(g, gs, rank)) == Keys(gs) + {g.key}
    ensures Total(Insert(g, gs, rank)) == Total(gs) + g.total
    ensures Count(Insert(g, gs, rank)) == Count(gs) + g.count
    ensures DistinctKeys(gs) && g.key !in Keys(gs) ==> DistinctKeys(Insert(g, gs, rank))
  {
    var r := Insert(g, gs, rank);
    if |gs| == 0 || rank(g) <= rank(gs[0]) {
      assert r[1..] == gs;
    } else {
      InsertKeeps(g, gs[1..], rank);
      assert r[1..] == Insert(g, gs[1..], rank);
    }
  }

  /** Insertion sort: ascending by `rank`, a permutation of the input. */
  function Sort<K>(gs: seq<Group<K>>, rank: Group<K> -> int): (r: seq<Group<K>>)
    ensures multiset(r) == multiset(gs) && |r| == |gs|
    ensures SortedBy(r, rank)
  {
    if |gs| == 0 then []
    else
      assert gs == [gs[0]] + gs[1..];
      var rest := Sort(gs[1..], rank);
      InsertSorted(gs[0], rest, rank);
      Insert(gs[0], rest, rank)
  }

  /** Sorting keeps the keys and the sums. */
  lemma {:induction false} SortKeeps<K>(gs: seq<Group<K>>, rank: Group<K> -> int)
    ensures Keys(Sort(gs, rank)) == Keys(gs)
    ensures Total(Sort(gs, rank)) == Total(gs)
    ensures Count(Sort(gs, rank)) == Count(gs)
  {
    if |gs| > 0 {
      var rest := Sort(gs[1..], rank);
      SortKeeps(gs[1..], rank);
      InsertKeeps(gs[0], rest, rank);
      assert Sort(gs, rank) == Insert(gs[0], rest, rank);
    }
  }

  /** Sorting keeps keys distinct. */
  lemma {:induction false} SortKeepsDistinct<K>(gs: seq<Group<K>>, rank: Group<K> -> int)
    requires DistinctKeys(gs)
    ensures DistinctKeys(Sort(gs, rank))
  {
    if |gs| > 0 {
      var rest := Sort(gs[1..], rank);
      SortKeeps(gs[1..], rank);
      SortKeepsDistinct(gs[1..], rank);
      InsertKeeps(gs[0], rest, rank);
      assert Sort(gs, rank) == Insert(gs[0], rest, rank);
    }
  }

  // Grouping followed by sorting: one group per distinct key, in rank
  // order, each holding exactly the count and the sum of its key's entries,
  // with nothing lost or counted twice.

  lemma GroupSortOrder<K>(es: seq<Entry<K>>, rank: Group<K> -> int)
    ensures var gs := Sort(GroupBy(es), rank);
      && SortedBy(gs, rank)
      && forall i, j :: 0 <= i < j < |gs| ==> gs[i].key != gs[j].key
  {
    SortKeepsDistinct(GroupBy(es), rank);
    DistinctKeysAt(Sort(GroupBy(es), rank));
  }

  lemma GroupSortKeys<K>(es: seq<Entry<K>>, rank: Group<K> -> int, k: K)
    ensures var gs := Sort(GroupBy(es), rank);
      k in EntryKeys(es) <==> exists i :: 0 <= i < |gs| && gs[i].key == k
  {
    var gs := Sort(GroupBy(es), rank);
    SortedKeys(es, rank);
    KeysAt(gs, k);
  }

  lemma GroupSortKeyAt<K>(es: seq<Entry<K>>, rank: Group<K> -> int, i: int)
    requires 0 <= i < |Sort(GroupBy(es), rank)|
    ensures Sort(GroupBy(es), rank)[i].key in EntryKeys(es)
  {
    var gs := Sort(GroupBy(es), rank);
    SortedKeys(es, rank);
    KeysAt(gs, gs[i].key);
  }

  lemma SortedKeys<K>(es: seq<Entry<K>>, rank: Group<K> -> int)
    ensures Keys(Sort(GroupBy(es), rank)) == EntryKeys(es)
  {
    SortKeeps(GroupBy(es), rank);
  }

  lemma GroupSortSums<K>(es: seq<Entry<K>>, rank: Group<K> -> int)
    ensures Total(Sort(GroupBy(es), rank)) == SumAll(es)
    ensures Count(Sort(GroupBy(es), rank)) == |es|
  {
    SortKeeps(GroupBy(es), rank);
  }

  lemma GroupSortAt<K>(es: seq<Entry<K>>, rank: Group<K> -> int, i: int)
    requires 0 <= i < |Sort(GroupBy(es), rank)|
    ensures var g := Sort(GroupBy(es), rank)[i];
      1 <= g.count == CountOf(es, g.key) && g.total == SumOf(es, g.key)
  {
    var grouped := GroupBy(es);
    GroupByCounts(es);
    assert Sort(grouped, rank)[i] in multiset(grouped);
  }
}
