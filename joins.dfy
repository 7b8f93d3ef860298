/**
 * `pd.merge(left, right, on=..., how='left')`: every left row, in order, is
 * paired with each right row carrying its key, in the right table's order; a
 * left row with no partner is kept once, with the right-hand columns missing.
 */
module Joins {
  import opened Common

  /** The right-hand values whose key is `k`, in order. */
  function Matches<K(==), V>(right: seq<(K, V)>, k: K): (r: seq<V>)
    ensures |r| <= |right|
    ensures forall v :: v in r ==> (k, v) in right
  {
    if right == [] then []
    else (if right[0].0 == k then [right[0].1] else []) + Matches(right[1..], k)
  }

  /** The output rows one left row produces. */
  function JoinRow<L, K(==), V, O>(l: L, right: seq<(K, V)>, key: L -> K, put: (L, Option<V>) -> O): (r: seq<O>)
    ensures |r| >= 1
  {
    var ms := Matches(right, key(l));
    if ms == [] then [put(l, None)] else seq(|ms|, i requires 0 <= i < |ms| => put(l, Some(ms[i])))
  }

  /** A left merge: `key` reads the join key off a left row, `put` builds an output row. */
  function LeftJoin<L, K(==), V, O>(left: seq<L>, right: seq<(K, V)>, key: L -> K, put: (L, Option<V>) -> O): (r: seq<O>)
    ensures |r| >= |left|
  {
    if left == [] then []
    else LeftJoin(left[..|left| - 1], right, key, put) + JoinRow(left[|left| - 1], right, key, put)
  }

  /** No key occurs twice on the right. */
  predicate Unique<K(==), V>(right: seq<(K, V)>)
  {
    forall i, j :: 0 <= i < j < |right| ==> right[i].0 != right[j].0
  }

  /** The value of the first right row carrying key `k`, if any. */
  function Lookup<K(==), V>(right: seq<(K, V)>, k: K): Option<V>
  {
    if right == [] then None
    else if right[0].0 == k then Some(right[0].1)
    else Lookup(right[1..], k)
  }

  lemma {:induction false} LookupSpec<K, V>(right: seq<(K, V)>, k: K)
    ensures Lookup(right, k).None? <==> forall i :: 0 <= i < |right| ==> right[i].0 != k
    ensures Lookup(right, k).Some? ==> (k, Lookup(right, k).value) in right
    decreases |right|
  {
    if right != [] {
      LookupSpec(right[1..], k);
      assert forall i :: 1 <= i < |right| ==> right[i] == right[1..][i - 1];
    }
  }

  lemma {:induction false} MatchesAbsent<K, V>(right: seq<(K, V)>, k: K)
    requires forall i :: 0 <= i < |right| ==> right[i].0 != k
    ensures Matches(right, k) == []
    decreases |right|
  {
    if right != [] {
      assert forall i :: 0 <= i < |right[1..]| ==> right[1..][i] == right[i + 1];
      MatchesAbsent(right[1..], k);
    }
  }

  /** With unique right keys a key matches at most once: exactly its lookup. */
  lemma {:induction false} MatchesUnique<K, V>(right: seq<(K, V)>, k: K)
    requires Unique(right)
    ensures Matches(right, k) == if Lookup(right, k).Some? then [Lookup(right, k).value] else []
    decreases |right|
  {
    if right != [] {
      var rest := right[1..];
      assert forall i :: 0 <= i < |rest| ==> rest[i] == right[i + 1];
      if right[0].0 == k {
        MatchesAbsent(rest, k);
      } else {
        MatchesUnique(rest, k);
      }
    }
  }

  /**
   * With unique right keys the merge keeps the left table's length and order,
   * and row `i` is left row `i` with its key's right-hand values, or missing.
   */
  lemma {:induction false} LeftJoinUnique<L, K, V, O>(left: seq<L>, right: seq<(K, V)>, key: L -> K, put: (L, Option<V>) -> O)
    requires Unique(right)
    ensures LeftJoin(left, right, key, put) == seq(|left|, i requires 0 <= i < |left| => put(left[i], Lookup(right, key(left[i]))))
    decreases |left|
  {
    if left != [] {
      var front, last := left[..|left| - 1], left[|left| - 1];
      LeftJoinUnique(front, right, key, put);
      MatchesUnique(right, key(last));
    }
  }

  /** A left row without a partner still appears, once, with the right-hand side missing. */
  lemma {:induction false} LeftJoinKeepsUnmatched<L, K, V, O>(left: seq<L>, right: seq<(K, V)>, key: L -> K, put: (L, Option<V>) -> O, i: nat)
    requires i < |left| && forall j :: 0 <= j < |right| ==> right[j].0 != key(left[i])
    ensures put(left[i], None) in LeftJoin(left, right, key, put)
    decreases |left|
  {
    var front := left[..|left| - 1];
    MatchesAbsent(right, key(left[i]));
    if i < |left| - 1 {
      assert front[i] == left[i];
      LeftJoinKeepsUnmatched(front, right, key, put, i);
    }
  }

  /** The values listed for `k` are those of the right rows keyed `k`; without a repeated row none is listed twice. */
  lemma {:induction false} MatchesSpec<K, V>(right: seq<(K, V)>, k: K)
    ensures forall v :: v in Matches(right, k) <==> (k, v) in right
    ensures (forall i, j :: 0 <= i < j < |right| ==> right[i] != right[j]) ==>
      forall i, j :: 0 <= i < j < |Matches(right, k)| ==> Matches(right, k)[i] != Matches(right, k)[j]
    decreases |right|
  {
    if right != [] {
      var rest := right[1..];
      MatchesSpec(rest, k);
      assert forall p :: p in right <==> p == right[0] || p in rest;
      if forall i, j :: 0 <= i < j < |right| ==> right[i] != right[j] {
        assert forall i, j :: 0 <= i < j < |rest| ==> rest[i] == right[i + 1] && rest[j] == right[j + 1];
        if right[0].0 == k {
          var m := Matches(rest, k);
          assert Matches(right, k) == [right[0].1] + m;
          assert forall t :: 0 <= t < |rest| ==> rest[t] != right[0];
        }
      }
    }
  }

  /** A left merge of a single row is the rows that row produces. */
  lemma LeftJoinOne<L, K, V, O>(l: L, right: seq<(K, V)>, key: L -> K, put: (L, Option<V>) -> O)
    ensures LeftJoin([l], right, key, put) == JoinRow(l, right, key, put)
  {
    assert [l][..0] == [];
  }
}
