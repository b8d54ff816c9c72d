/**
 * Group-by-and-sum, the aggregation behind `df.groupby(keys)[cols].sum()`
 * and behind the cells of a pivot table. Each input row is an entry
 * (key, vector of numbers); the output holds one entry per distinct key,
 * in order of first appearance, whose vector is the element-wise sum of
 * the vectors of all input entries with that key.
 *
 * The recursive definitions run over the first `len` entries of a fixed
 * sequence, so that a proof about them never has to take slices.
 */
module Grouping {
  import opened Tables

  datatype Group<K> = Group(key: K, sums: seq<int>)

  /** Every vector in `s` has `n` components. */
  predicate Width<K>(s: seq<Group<K>>, n: nat) {
    forall i :: 0 <= i < |s| ==> |s[i].sums| == n
  }

  function Keys<K>(s: seq<Group<K>>): (ks: seq<K>)
    ensures |ks| == |s| && forall i :: 0 <= i < |s| ==> ks[i] == s[i].key
  {
    seq(|s|, i requires 0 <= i < |s| => s[i].key)
  }

  /** Component `j` of an entry's vector; an entry without one contributes 0. */
  function Part<K>(e: Group<K>, j: nat): int {
    if j < |e.sums| then e.sums[j] else 0
  }

  /** Reference definition: component `j` summed over the first `len` entries of `s` whose key is `k`. */
  function KeySumTo<K(==)>(s: seq<Group<K>>, len: nat, k: K, j: nat): int
    requires len <= |s|
    decreases len
  {
    if len == 0 then 0
    else KeySumTo(s, len - 1, k, j) + (if s[len - 1].key == k then Part(s[len - 1], j) else 0)
  }

  /** Component `j` summed over the entries of `s` whose key is `k`. */
  function KeySum<K(==)>(s: seq<Group<K>>, k: K, j: nat): int {
    KeySumTo(s, |s|, k, j)
  }

  /** Component `j` summed over the first `len` entries of `s`. */
  function TotalTo<K>(s: seq<Group<K>>, len: nat, j: nat): int
    requires len <= |s|
    decreases len
  {
    if len == 0 then 0 else TotalTo(s, len - 1, j) + Part(s[len - 1], j)
  }

  /** Component `j` summed over all entries of `s`: a column total. */
  function Total<K>(s: seq<Group<K>>, j: nat): int {
    TotalTo(s, |s|, j)
  }

  /** A prefix total depends only on the entries in the prefix. */
  lemma {:induction false} TotalToAgree<K>(s: seq<Group<K>>, t: seq<Group<K>>, len: nat, j: nat)
    requires len <= |s| && len <= |t| && forall i :: 0 <= i < len ==> s[i] == t[i]
    ensures TotalTo(s, len, j) == TotalTo(t, len, j)
    decreases len
  {
    if len > 0 {
      TotalToAgree(s, t, len - 1, j);
    }
  }

  lemma TotalSnoc<K>(s: seq<Group<K>>, e: Group<K>, j: nat)
    ensures Total(s + [e], j) == Total(s, j) + Part(e, j)
  {
    TotalToAgree(s + [e], s, |s|, j);
  }

  /** A keyed prefix sum depends only on the entries in the prefix. */
  lemma {:induction false} KeySumToAgree<K>(s: seq<Group<K>>, t: seq<Group<K>>, len: nat, k: K, j: nat)
    requires len <= |s| && len <= |t| && forall i :: 0 <= i < len ==> s[i] == t[i]
    ensures KeySumTo(s, len, k, j) == KeySumTo(t, len, k, j)
    decreases len
  {
    if len > 0 {
      KeySumToAgree(s, t, len - 1, k, j);
    }
  }

  lemma KeySumSnoc<K>(s: seq<Group<K>>, e: Group<K>, k: K, j: nat)
    ensures KeySum(s + [e], k, j) == KeySum(s, k, j) + (if e.key == k then Part(e, j) else 0)
  {
    KeySumToAgree(s + [e], s, |s|, k, j);
  }

  function AddVec(a: seq<int>, b: seq<int>): (r: seq<int>)
    requires |a| == |b|
    ensures |r| == |a| && forall i :: 0 <= i < |a| ==> r[i] == a[i] + b[i]
  {
    seq(|a|, i requires 0 <= i < |a| => a[i] + b[i])
  }

  /** Position of the first entry with key `k`, if there is one. */
  function Find<K(==)>(s: seq<Group<K>>, k: K): (p: Option<nat>)
    ensures p.Some? ==> p.value < |s| && s[p.value].key == k
    ensures p.None? <==> k !in Keys(s)
  {
    if k in Keys(s) then Some(IndexOf(Keys(s), k)) else None
  }

  /** Adds entry `e` to its group, or opens a new group at the end. */
  function Absorb<K(==)>(acc: seq<Group<K>>, e: Group<K>): seq<Group<K>>
    requires forall i :: 0 <= i < |acc| ==> |acc[i].sums| == |e.sums|
  {
    match Find(acc, e.key)
    case Some(p) => acc[p := Group(e.key, AddVec(acc[p].sums, e.sums))]
    case None => acc + [e]
  }

  /** The groups of the first `len` entries of `s`. */
  function GroupSumTo<K(==)>(s: seq<Group<K>>, len: nat, n: nat): (r: seq<Group<K>>)
    requires Width(s, n) && len <= |s|
    ensures Width(r, n)
    ensures Distinct(Keys(r))
    decreases len
  {
    if len == 0 then []
    else
      var prev := GroupSumTo(s, len - 1, n);
      var e := s[len - 1];
      var r := Absorb(prev, e);
      assert Keys(r) == if e.key in Keys(prev) then Keys(prev) else Keys(prev) + [e.key];
      r
  }

  /** One entry per distinct key, first-appearance order, vectors summed. */
  function GroupSum<K(==)>(s: seq<Group<K>>, n: nat): (r: seq<Group<K>>)
    requires Width(s, n)
    ensures Width(r, n)
    ensures Distinct(Keys(r))
  {
    GroupSumTo(s, |s|, n)
  }

  /**
   * What `Absorb` does when the keys so far are distinct: the group with
   * `e`'s key takes `e`'s vector added in, or `e` opens a group at the end.
   */
  lemma AbsorbFacts<K>(acc: seq<Group<K>>, e: Group<K>)
    requires forall i :: 0 <= i < |acc| ==> |acc[i].sums| == |e.sums|
    requires Distinct(Keys(acc))
    ensures e.key in Keys(acc) ==>
              |Absorb(acc, e)| == |acc|
              && forall g :: 0 <= g < |acc| ==>
                   Absorb(acc, e)[g].key == acc[g].key
                   && Absorb(acc, e)[g].sums == if acc[g].key == e.key then AddVec(acc[g].sums, e.sums) else acc[g].sums
    ensures e.key !in Keys(acc) ==> Absorb(acc, e) == acc + [e]
  {
    match Find(acc, e.key)
    case Some(p) =>
      forall g | 0 <= g < |acc| && g != p ensures acc[g].key != e.key {
        assert Keys(acc)[g] != Keys(acc)[p];
      }
    case None =>
  }

  /** Every group's key is the key of some entry. */
  lemma {:induction false} GroupSumToKeysSound<K>(s: seq<Group<K>>, len: nat, n: nat)
    requires Width(s, n) && len <= |s|
    ensures forall g :: 0 <= g < |GroupSumTo(s, len, n)| ==> GroupSumTo(s, len, n)[g].key in Keys(s)
    decreases len
  {
    if len > 0 {
      var prev := GroupSumTo(s, len - 1, n);
      var e := s[len - 1];
      GroupSumToKeysSound(s, len - 1, n);
      AbsorbFacts(prev, e);
      assert e.key in Keys(s) by { assert Keys(s)[len - 1] == e.key; }
    }
  }

  /** Every entry's key has a group. */
  lemma {:induction false} GroupSumToKeysComplete<K>(s: seq<Group<K>>, len: nat, n: nat)
    requires Width(s, n) && len <= |s|
    ensures forall i :: 0 <= i < len ==> s[i].key in Keys(GroupSumTo(s, len, n))
    decreases len
  {
    if len > 0 {
      var prev := GroupSumTo(s, len - 1, n);
      var e := s[len - 1];
      GroupSumToKeysComplete(s, len - 1, n);
      var r := GroupSumTo(s, len, n);
      AbsorbFacts(prev, e);
      if e.key in Keys(prev) {
        assert Keys(r) == Keys(prev);
      } else {
        assert Keys(r) == Keys(prev) + [e.key];
      }
    }
  }

  /** The output keys are exactly the input keys. */
  lemma GroupSumKeys<K>(s: seq<Group<K>>, n: nat)
    requires Width(s, n)
    ensures forall i :: 0 <= i < |GroupSum(s, n)| ==> GroupSum(s, n)[i].key in Keys(s)
    ensures forall i :: 0 <= i < |s| ==> s[i].key in Keys(GroupSum(s, n))
  {
    GroupSumToKeysSound(s, |s|, n);
    GroupSumToKeysComplete(s, |s|, n);
  }

  lemma {:induction false} KeySumToAbsent<K>(s: seq<Group<K>>, len: nat, k: K, j: nat)
    requires len <= |s| && forall i :: 0 <= i < len ==> s[i].key != k
    ensures KeySumTo(s, len, k, j) == 0
    decreases len
  {
    if len > 0 {
      KeySumToAbsent(s, len - 1, k, j);
    }
  }

  /** One output cell is the keyed sum of its component over the entries. */
  lemma {:induction false} GroupSumToCell<K>(s: seq<Group<K>>, len: nat, n: nat, g: nat, j: nat)
    requires Width(s, n) && len <= |s| && g < |GroupSumTo(s, len, n)| && j < n
    ensures GroupSumTo(s, len, n)[g].sums[j] == KeySumTo(s, len, GroupSumTo(s, len, n)[g].key, j)
    decreases len
  {
    var prev := GroupSumTo(s, len - 1, n);
    var e := s[len - 1];
    var r := GroupSumTo(s, len, n);
    AbsorbFacts(prev, e);
    assert KeySumTo(s, len, r[g].key, j)
        == KeySumTo(s, len - 1, r[g].key, j) + (if e.key == r[g].key then e.sums[j] else 0);
    if g < |prev| {
      GroupSumToCell(s, len - 1, n, g, j);
      assert r[g].key == prev[g].key;
    } else {
      FreshKey(s, len, n, j);
    }
  }

  /** An entry that opens a new group has a key no earlier entry has. */
  lemma FreshKey<K>(s: seq<Group<K>>, len: nat, n: nat, j: nat)
    requires Width(s, n) && 0 < len <= |s| && s[len - 1].key !in Keys(GroupSumTo(s, len - 1, n))
    ensures KeySumTo(s, len - 1, s[len - 1].key, j) == 0
    decreases len
  {
    GroupSumToKeysComplete(s, len - 1, n);
    KeySumToAbsent(s, len - 1, s[len - 1].key, j);
  }

  /** Every output vector is the per-key sum of the input vectors. */
  lemma GroupSumIsKeySum<K>(s: seq<Group<K>>, n: nat)
    requires Width(s, n)
    ensures forall g, j :: 0 <= g < |GroupSum(s, n)| && 0 <= j < n ==>
              GroupSum(s, n)[g].sums[j] == KeySum(s, GroupSum(s, n)[g].key, j)
  {
    forall g, j | 0 <= g < |GroupSum(s, n)| && 0 <= j < n
      ensures GroupSum(s, n)[g].sums[j] == KeySum(s, GroupSum(s, n)[g].key, j)
    {
      GroupSumToCell(s, |s|, n, g, j);
    }
  }

  lemma {:induction false} TotalToUpdate<K>(s: seq<Group<K>>, p: nat, g: Group<K>, len: nat, j: nat)
    requires p < |s| && len <= |s|
    ensures TotalTo(s[p := g], len, j) == TotalTo(s, len, j) + (if p < len then Part(g, j) - Part(s[p], j) else 0)
    decreases len
  {
    if len > 0 {
      TotalToUpdate(s, p, g, len - 1, j);
    }
  }

  /** Grouping neither creates nor loses quantity: prefix column totals are conserved. */
  lemma {:induction false} GroupSumToTotal<K>(s: seq<Group<K>>, len: nat, n: nat, j: nat)
    requires Width(s, n) && len <= |s| && j < n
    ensures Total(GroupSumTo(s, len, n), j) == TotalTo(s, len, j)
    decreases len
  {
    if len > 0 {
      var prev := GroupSumTo(s, len - 1, n);
      var e := s[len - 1];
      GroupSumToTotal(s, len - 1, n, j);
      match Find(prev, e.key)
      case Some(p) =>
        TotalToUpdate(prev, p, Group(e.key, AddVec(prev[p].sums, e.sums)), |prev|, j);
      case None =>
        TotalSnoc(prev, e, j);
    }
  }

  /** Grouping neither creates nor loses quantity: column totals are conserved. */
  lemma GroupSumTotal<K>(s: seq<Group<K>>, n: nat, j: nat)
    requires Width(s, n) && j < n
    ensures Total(GroupSum(s, n), j) == Total(s, j)
  {
    GroupSumToTotal(s, |s|, n, j);
  }
}
