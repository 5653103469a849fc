/** The query aggregates the views rely on, over a sequence of ledger rows:
    aggregate(Sum('amount')) and values(key).annotate(Sum('amount'), Count('id')). */
module Aggregates {
  import opened Outcomes
  import opened TransactionModels

  /** One GROUP BY row: the key, the summed amount and the number of rows. */
  datatype Group<K> = Group(key: K, total: int, count: nat)

  /** The grouping key values('category'). */
  function Category(t: Transaction): string {
    t.category
  }

  /** Sum('amount') over the rows, with "no rows" read as 0. */
  function Total(ts: seq<Transaction>): int {
    if |ts| == 0 then 0 else Total(ts[..|ts| - 1]) + ts[|ts| - 1].amount
  }

  /** The summed amount of the rows whose key is k. */
  function KeyTotal<K(==)>(ts: seq<Transaction>, key: Transaction -> K, k: K): int {
    if |ts| == 0 then 0
    else KeyTotal(ts[..|ts| - 1], key, k) + (if key(ts[|ts| - 1]) == k then ts[|ts| - 1].amount else 0)
  }

  /** The number of rows whose key is k. */
  function KeyCount<K(==)>(ts: seq<Transaction>, key: Transaction -> K, k: K): nat {
    if |ts| == 0 then 0
    else KeyCount(ts[..|ts| - 1], key, k) + (if key(ts[|ts| - 1]) == k then 1 else 0)
  }

  /** The group with key k, or none. */
  function Find<K(==)>(gs: seq<Group<K>>, k: K): (r: Option<Group<K>>)
    ensures r.Some? ==> r.value in gs && r.value.key == k
    ensures r.None? ==> forall g :: g in gs ==> g.key != k
  {
    if |gs| == 0 then None
    else if gs[0].key == k then Some(gs[0])
    else Find(gs[1..], k)
  }

  /** Add one row with key k and the given amount to the groups. */
  function AddTo<K(==)>(gs: seq<Group<K>>, k: K, amount: int): seq<Group<K>> {
    if |gs| == 0 then [Group(k, amount, 1)]
    else if gs[0].key == k then [Group(k, gs[0].total + amount, gs[0].count + 1)] + gs[1..]
    else [gs[0]] + AddTo(gs[1..], k, amount)
  }

  /** values(key).annotate(total=Sum('amount'), count=Count('id')), groups in order of
      first appearance. */
  function GroupBy<K(==)>(ts: seq<Transaction>, key: Transaction -> K): seq<Group<K>> {
    if |ts| == 0 then []
    else AddTo(GroupBy(ts[..|ts| - 1], key), key(ts[|ts| - 1]), ts[|ts| - 1].amount)
  }

  predicate DistinctKeys<K(==)>(gs: seq<Group<K>>) {
    forall i, j :: 0 <= i < j < |gs| ==> gs[i].key != gs[j].key
  }

  function SumTotals<K>(gs: seq<Group<K>>): int {
    if |gs| == 0 then 0 else gs[0].total + SumTotals(gs[1..])
  }

  /** The total of the group with key k, 0 when there is none. */
  function TotalOf<K(==)>(gs: seq<Group<K>>, k: K): int {
    match Find(gs, k)
    case Some(g) => g.total
    case None => 0
  }

  function CountOf<K(==)>(gs: seq<Group<K>>, k: K): nat {
    match Find(gs, k)
    case Some(g) => g.count
    case None => 0
  }

  lemma AddToEffect<K>(gs: seq<Group<K>>, k: K, amount: int, k': K)
    requires DistinctKeys(gs)
    ensures DistinctKeys(AddTo(gs, k, amount))
    ensures TotalOf(AddTo(gs, k, amount), k') == TotalOf(gs, k') + (if k' == k then amount else 0)
    ensures CountOf(AddTo(gs, k, amount), k') == CountOf(gs, k') + (if k' == k then 1 else 0)
    ensures SumTotals(AddTo(gs, k, amount)) == SumTotals(gs) + amount
    ensures forall g :: g in AddTo(gs, k, amount) ==> g.key == k || g in gs
    ensures forall g :: g in AddTo(gs, k, amount) && g.key == k ==> g.count >= 1
  {
    AddToKeys(gs, k, amount);
    AddToFind(gs, k, amount, k');
    AddToSum(gs, k, amount);
  }

  /** Adding a row only touches the group with its key, which has at least one row, and
      keeps the keys distinct. */
  lemma {:induction false} AddToKeys<K>(gs: seq<Group<K>>, k: K, amount: int)
    requires DistinctKeys(gs)
    ensures DistinctKeys(AddTo(gs, k, amount))
    ensures forall g :: g in AddTo(gs, k, amount) ==> g.key == k || g in gs
    ensures forall g :: g in AddTo(gs, k, amount) && g.key == k ==> g.count >= 1
  {
    var r := AddTo(gs, k, amount);
    if |gs| == 0 {
    } else if gs[0].key == k {
      assert r[1..] == gs[1..];
      forall i | 0 < i < |r| ensures r[i].key != k {
        assert r[i] == gs[i];
      }
    } else {
      AddToKeys(gs[1..], k, amount);
      assert r[1..] == AddTo(gs[1..], k, amount);
      assert forall g :: g in AddTo(gs[1..], k, amount) ==> g.key != gs[0].key by {
        forall g | g in AddTo(gs[1..], k, amount) ensures g.key != gs[0].key {
          if g.key != k {
            var i :| 0 <= i < |gs[1..]| && gs[1..][i] == g;
            assert gs[i + 1] == g;
          }
        }
      }
    }
  }

  /** Adding a row adds its amount and one row to its key's group and nothing to any other. */
  lemma {:induction false} AddToFind<K>(gs: seq<Group<K>>, k: K, amount: int, k': K)
    requires DistinctKeys(gs)
    ensures TotalOf(AddTo(gs, k, amount), k') == TotalOf(gs, k') + (if k' == k then amount else 0)
    ensures CountOf(AddTo(gs, k, amount), k') == CountOf(gs, k') + (if k' == k then 1 else 0)
  {
    var r := AddTo(gs, k, amount);
    if |gs| == 0 {
    } else if gs[0].key == k {
      assert r[1..] == gs[1..];
    } else {
      AddToFind(gs[1..], k, amount, k');
      assert r[1..] == AddTo(gs[1..], k, amount);
    }
  }

  lemma {:induction false} AddToSum<K>(gs: seq<Group<K>>, k: K, amount: int)
    ensures SumTotals(AddTo(gs, k, amount)) == SumTotals(gs) + amount
  {
    var r := AddTo(gs, k, amount);
    if |gs| > 0 && gs[0].key == k {
      assert r[1..] == gs[1..];
    } else if |gs| > 0 {
      AddToSum(gs[1..], k, amount);
      assert r[1..] == AddTo(gs[1..], k, amount);
    }
  }

  /** Each group holds the sum and the number of the rows with its key; the groups have
      distinct keys, every row's key has a group, and the group totals add up to the
      total of all rows. */
  lemma {:induction false} GroupByCorrect<K>(ts: seq<Transaction>, key: Transaction -> K)
    ensures DistinctKeys(GroupBy(ts, key))
    ensures forall k :: TotalOf(GroupBy(ts, key), k) == KeyTotal(ts, key, k)
    ensures forall k :: CountOf(GroupBy(ts, key), k) == KeyCount(ts, key, k)
    ensures SumTotals(GroupBy(ts, key)) == Total(ts)
    ensures forall g :: g in GroupBy(ts, key) ==> g.count >= 1
  {
    if |ts| > 0 {
      var init := ts[..|ts| - 1];
      var last := ts[|ts| - 1];
      GroupByCorrect(init, key);
      forall k ensures TotalOf(GroupBy(ts, key), k) == KeyTotal(ts, key, k)
        && CountOf(GroupBy(ts, key), k) == KeyCount(ts, key, k)
      {
        AddToEffect(GroupBy(init, key), key(last), last.amount, k);
      }
      AddToEffect(GroupBy(init, key), key(last), last.amount, key(last));
    }
  }

  /** With distinct keys, the group found for a member's key is that member. */
  lemma FindMember<K>(gs: seq<Group<K>>, g: Group<K>)
    requires DistinctKeys(gs) && g in gs
    ensures Find(gs, g.key) == Some(g)
  {
    if gs[0] != g {
      assert g in gs[1..];
      FindMember(gs[1..], g);
    }
  }

  /** Each GROUP BY row's total and count are those of its key. */
  lemma GroupMember<K>(ts: seq<Transaction>, key: Transaction -> K, g: Group<K>)
    requires g in GroupBy(ts, key)
    ensures g.total == KeyTotal(ts, key, g.key) && g.count == KeyCount(ts, key, g.key)
    ensures g.count >= 1
  {
    GroupByCorrect(ts, key);
    FindMember(GroupBy(ts, key), g);
  }

  /** filter(...): the rows that pass, in ledger order. */
  function Where(ts: seq<Transaction>, keep: Transaction -> bool): (r: seq<Transaction>)
    ensures forall t :: t in r <==> t in ts && keep(t)
    ensures |r| <= |ts|
  {
    if |ts| == 0 then []
    else
      var init := Where(ts[..|ts| - 1], keep);
      assert forall t :: t in ts <==> t in ts[..|ts| - 1] || t == ts[|ts| - 1];
      if keep(ts[|ts| - 1]) then init + [ts[|ts| - 1]] else init
  }

  /** A filter keeps every row that passes as many times as it occurs, and no other. */
  lemma {:induction false} WhereCounts(ts: seq<Transaction>, keep: Transaction -> bool)
    ensures forall t :: multiset(Where(ts, keep))[t] == if keep(t) then multiset(ts)[t] else 0
  {
    if |ts| > 0 {
      var init := ts[..|ts| - 1];
      var last := ts[|ts| - 1];
      WhereCounts(init, keep);
      assert ts == init + [last];
      assert multiset(ts) == multiset(init) + multiset{last};
      if keep(last) {
        assert multiset(Where(ts, keep)) == multiset(Where(init, keep)) + multiset{last};
      }
    }
  }

  /** A filter and its complement split the rows: their totals add up to the total of
      all rows. */
  lemma {:induction false} WherePartition(ts: seq<Transaction>, keep: Transaction -> bool, drop: Transaction -> bool)
    requires forall t :: drop(t) == !keep(t)
    ensures Total(Where(ts, keep)) + Total(Where(ts, drop)) == Total(ts)
  {
    if |ts| > 0 {
      var init := ts[..|ts| - 1];
      var last := ts[|ts| - 1];
      WherePartition(init, keep, drop);
      assert Total(ts) == Total(init) + last.amount;
      if keep(last) {
        AppendTotal(Where(init, keep), last);
        assert Where(ts, drop) == Where(init, drop);
      } else {
        AppendTotal(Where(init, drop), last);
        assert Where(ts, keep) == Where(init, keep);
      }
    }
  }

  lemma AppendTotal(ts: seq<Transaction>, t: Transaction)
    ensures Total(ts + [t]) == Total(ts) + t.amount
  {
    assert (ts + [t])[..|ts|] == ts;
  }

  /** A key has a group exactly when some row carries it. */
  lemma KeyCountPositive<K>(ts: seq<Transaction>, key: Transaction -> K, k: K)
    ensures KeyCount(ts, key, k) > 0 <==> exists t :: t in ts && key(t) == k
  {
    if |ts| > 0 {
      KeyCountPositive(ts[..|ts| - 1], key, k);
      assert forall t :: t in ts <==> t in ts[..|ts| - 1] || t == ts[|ts| - 1];
    }
  }

  lemma GroupKeys<K>(ts: seq<Transaction>, key: Transaction -> K, k: K)
    ensures (exists g :: g in GroupBy(ts, key) && g.key == k) <==> exists t :: t in ts && key(t) == k
  {
    GroupByCorrect(ts, key);
    KeyCountPositive(ts, key, k);
    if exists g :: g in GroupBy(ts, key) && g.key == k {
      var g :| g in GroupBy(ts, key) && g.key == k;
      FindMember(GroupBy(ts, key), g);
    }
  }

  /** A reordering of groups with distinct keys has distinct keys. */
  lemma DistinctKeysPermutation<K>(a: seq<Group<K>>, b: seq<Group<K>>)
    requires DistinctKeys(a) && multiset(a) == multiset(b)
    ensures DistinctKeys(b)
  {
    forall i, j | 0 <= i < j < |b| ensures b[i].key != b[j].key {
      if b[i].key == b[j].key {
        assert b[i] in multiset(a) && b[j] in multiset(a);
        var x :| 0 <= x < |a| && a[x] == b[i];
        var y :| 0 <= y < |a| && a[y] == b[j];
        if b[i] == b[j] {
          assert b == b[..j] + b[j..];
          assert multiset(b) == multiset(b[..j]) + multiset(b[j..]);
          assert b[i] in b[..j];
          assert b[j] == b[j..][0];
          OccursOnce(a, x);
        }
      }
    }
  }

  lemma OccursOnce<K>(a: seq<Group<K>>, x: nat)
    requires DistinctKeys(a) && x < |a|
    ensures multiset(a)[a[x]] == 1
  {
    assert a == a[..x] + [a[x]] + a[x + 1..];
    assert a[x] !in a[..x];
    assert a[x] !in a[x + 1..];
  }
}
