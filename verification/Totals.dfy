/** Weighted totals over the rows of a table: the "recount" that running totals are compared to. */
module Totals {
  import opened Common

  /** Sum of `weight` over all rows; a weight that is 0 off a selection counts or sums just that. */
  ghost function Total<K(!new), R(!new)>(rows: map<K, R>, weight: R -> int): int
  {
    Sum(rows.Keys, WeightOf(rows, weight))
  }

  ghost function WeightOf<K(!new), R(!new)>(rows: map<K, R>, weight: R -> int): K -> int
  {
    (k: K) => if k in rows then weight(rows[k]) else 0
  }

  lemma TotalEmpty<K(!new), R(!new)>(weight: R -> int)
    ensures Total<K, R>(map[], weight) == 0
  {
  }

  lemma TotalInsert<K(!new), R(!new)>(rows: map<K, R>, k: K, row: R, weight: R -> int)
    requires k !in rows
    ensures Total(rows[k := row], weight) == Total(rows, weight) + weight(row)
  {
    var rows' := rows[k := row];
    assert rows'.Keys == rows.Keys + {k};
    SumInsert(rows.Keys, k, WeightOf(rows', weight));
    SumCongruent(rows.Keys, WeightOf(rows, weight), WeightOf(rows', weight));
  }

  lemma TotalUpdate<K(!new), R(!new)>(rows: map<K, R>, k: K, row: R, weight: R -> int)
    requires k in rows
    ensures Total(rows[k := row], weight) == Total(rows, weight) - weight(rows[k]) + weight(row)
  {
    var rows' := rows[k := row];
    assert rows'.Keys == rows.Keys;
    SumRemove(rows.Keys, k, WeightOf(rows, weight));
    SumRemove(rows.Keys, k, WeightOf(rows', weight));
    SumCongruent(rows.Keys - {k}, WeightOf(rows, weight), WeightOf(rows', weight));
  }

  lemma TotalMonotone<K(!new), R(!new)>(rows: map<K, R>, weight: R -> int, weight': R -> int)
    requires forall k :: k in rows ==> weight(rows[k]) <= weight'(rows[k])
    ensures Total(rows, weight) <= Total(rows, weight')
  {
    SumMonotone(rows.Keys, WeightOf(rows, weight), WeightOf(rows, weight'));
  }

  /** A total counts the rows of `ks` when exactly those weigh something, and each weighs 1. */
  lemma TotalIsCount<K(!new), R(!new)>(rows: map<K, R>, weight: R -> int, ks: set<K>)
    requires ks <= rows.Keys
    requires forall k :: k in rows ==> weight(rows[k]) == if k in ks then 1 else 0
    ensures Total(rows, weight) == |ks|
  {
    CountIsSum(rows.Keys, ks, WeightOf(rows, weight));
    assert rows.Keys * ks == ks;
  }

  lemma TotalIsSum<K(!new), R(!new)>(rows: map<K, R>, weight: R -> int, ks: set<K>, amount: K -> int)
    requires ks <= rows.Keys
    requires forall k :: k in rows ==> weight(rows[k]) == if k in ks then amount(k) else 0
    ensures Total(rows, weight) == Sum(ks, amount)
  {
    SumFilter(rows.Keys, ks, WeightOf(rows, weight), amount);
    assert rows.Keys * ks == ks;
  }

  /** The sum a loop over an enumeration of the rows computes. */
  function SumSeq(s: seq<int>): int
  {
    if s == [] then 0 else SumSeq(s[..|s| - 1]) + s[|s| - 1]
  }
}
