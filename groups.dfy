/**
 * `groupby([Season, team])[cols].mean()` over integer columns: rows are folded
 * into an association list kept sorted by key (pandas sorts group keys), one
 * accumulator per key holding the row count and the column sums; the mean is
 * then sum over count, as an exact rational.
 */
module Groups {
  import opened Common

  /** A group key: a season and a team ID. */
  datatype Key = Key(season: int, team: int)

  /** The order pandas gives group keys: by season, then by team. */
  predicate Before(a: Key, b: Key)
  {
    a.season < b.season || (a.season == b.season && a.team < b.team)
  }

  /** A keyed table: its column labels and its rows, each a key and the remaining values. */
  datatype Table<V> = Table(header: seq<string>, rows: seq<(Key, V)>)

  /** No key occurs twice, so a left join on it keeps one row per left row. */
  predicate UniqueKeys<V>(rows: seq<(Key, V)>)
  {
    forall i, j :: 0 <= i < j < |rows| ==> rows[i].0 != rows[j].0
  }

  /** The running state of one group: its key, how many rows it has seen and their column sums. */
  datatype Acc = Acc(key: Key, count: nat, sums: seq<int>)

  predicate Sorted(acc: seq<Acc>)
  {
    forall i, j :: 0 <= i < j < |acc| ==> Before(acc[i].key, acc[j].key)
  }

  predicate WellFormed(acc: seq<Acc>, width: nat)
  {
    forall i :: 0 <= i < |acc| ==> |acc[i].sums| == width && acc[i].count > 0
  }

  predicate Widths<V>(rows: seq<(Key, seq<V>)>, width: nat)
  {
    forall i :: 0 <= i < |rows| ==> |rows[i].1| == width
  }

  function Plus(a: seq<int>, b: seq<int>): (r: seq<int>)
    requires |a| == |b|
    ensures |r| == |a|
  {
    seq(|a|, i requires 0 <= i < |a| => a[i] + b[i])
  }

  /** Folds one row into the accumulators: bump its group, or open a new one in key order. */
  function Add(acc: seq<Acc>, k: Key, vals: seq<int>): (r: seq<Acc>)
    requires WellFormed(acc, |vals|)
    ensures WellFormed(r, |vals|)
  {
    if acc == [] then [Acc(k, 1, vals)]
    else if acc[0].key == k then [Acc(k, acc[0].count + 1, Plus(acc[0].sums, vals))] + acc[1..]
    else if Before(k, acc[0].key) then [Acc(k, 1, vals)] + acc
    else [acc[0]] + Add(acc[1..], k, vals)
  }

  /** The accumulator of key `k`, if any. */
  function Get(acc: seq<Acc>, k: Key): (r: Option<Acc>)
    ensures r.Some? ==> r.value in acc && r.value.key == k
    ensures r.None? ==> forall i :: 0 <= i < |acc| ==> acc[i].key != k
  {
    if acc == [] then None else if acc[0].key == k then Some(acc[0]) else Get(acc[1..], k)
  }

  lemma {:induction false} AddSorted(acc: seq<Acc>, k: Key, vals: seq<int>)
    requires WellFormed(acc, |vals|) && Sorted(acc)
    ensures Sorted(Add(acc, k, vals))
    ensures Add(acc, k, vals)[0].key == k || (acc != [] && Add(acc, k, vals)[0].key == acc[0].key)
    decreases |acc|
  {
    var r := Add(acc, k, vals);
    if acc == [] {
    } else if acc[0].key == k {
      assert forall i :: 0 <= i < |r| ==> r[i].key == acc[i].key;
    } else if Before(k, acc[0].key) {
      SortedCons(Acc(k, 1, vals), acc);
    } else {
      var tail := Add(acc[1..], k, vals);
      assert r == [acc[0]] + tail;
      SortedTail(acc);
      AddSorted(acc[1..], k, vals);
      SortedCons(acc[0], tail);
    }
  }

  lemma SortedCons(a: Acc, rest: seq<Acc>)
    requires Sorted(rest) && (rest != [] ==> Before(a.key, rest[0].key))
    ensures Sorted([a] + rest)
  {
    var r := [a] + rest;
    forall i, j | 0 <= i < j < |r| ensures Before(r[i].key, r[j].key) {
      assert r[j] == rest[j - 1];
      if i == 0 {
        assert j - 1 == 0 || Before(rest[0].key, rest[j - 1].key);
      } else {
        assert r[i] == rest[i - 1];
      }
    }
  }

  /** Looking a key up in a list with a known first accumulator. */
  lemma GetCons(a: Acc, rest: seq<Acc>, k: Key)
    ensures Get([a] + rest, k) == if a.key == k then Some(a) else Get(rest, k)
  {
    assert ([a] + rest)[1..] == rest;
  }

  lemma SortedTail(acc: seq<Acc>)
    requires Sorted(acc) && acc != []
    ensures Sorted(acc[1..])
    ensures forall i :: 1 <= i < |acc| ==> Before(acc[0].key, acc[i].key)
  {
    assert forall i :: 0 <= i < |acc[1..]| ==> acc[1..][i] == acc[i + 1];
  }

  /** Adding a row leaves every other group's accumulator as it was. */
  lemma {:induction false} AddGetOther(acc: seq<Acc>, k: Key, vals: seq<int>, k': Key)
    requires WellFormed(acc, |vals|) && k' != k
    ensures Get(Add(acc, k, vals), k') == Get(acc, k')
    decreases |acc|
  {
    if acc == [] {
      assert Add(acc, k, vals) == [Acc(k, 1, vals)] + [];
      GetCons(Acc(k, 1, vals), [], k');
    } else if acc[0].key == k {
      GetCons(Acc(k, acc[0].count + 1, Plus(acc[0].sums, vals)), acc[1..], k');
    } else if Before(k, acc[0].key) {
      GetCons(Acc(k, 1, vals), acc, k');
    } else {
      assert Add(acc, k, vals) == [acc[0]] + Add(acc[1..], k, vals);
      AddGetOther(acc[1..], k, vals, k');
      GetCons(acc[0], Add(acc[1..], k, vals), k');
    }
  }

  /** Adding a row opens its group with count 1, or bumps the group's count and sums. */
  lemma {:induction false} AddGetSame(acc: seq<Acc>, k: Key, vals: seq<int>)
    requires WellFormed(acc, |vals|) && Sorted(acc)
    ensures Get(Add(acc, k, vals), k) ==
      if Get(acc, k).None? then Some(Acc(k, 1, vals))
      else Some(Acc(k, Get(acc, k).value.count + 1, Plus(Get(acc, k).value.sums, vals)))
    decreases |acc|
  {
    if acc == [] {
      assert Add(acc, k, vals) == [Acc(k, 1, vals)] + [];
      GetCons(Acc(k, 1, vals), [], k);
    } else if acc[0].key == k {
      GetCons(Acc(k, acc[0].count + 1, Plus(acc[0].sums, vals)), acc[1..], k);
    } else if Before(k, acc[0].key) {
      GetCons(Acc(k, 1, vals), acc, k);
      SortedTail(acc);
      forall i | 0 <= i < |acc| ensures acc[i].key != k {
        assert i == 0 || Before(acc[0].key, acc[i].key);
      }
      assert Get(acc, k).None?;
    } else {
      assert Add(acc, k, vals) == [acc[0]] + Add(acc[1..], k, vals);
      SortedTail(acc);
      AddGetSame(acc[1..], k, vals);
      GetCons(acc[0], Add(acc[1..], k, vals), k);
    }
  }

  /** The accumulators after folding in all of `rows`, in order. */
  function Totals(rows: seq<(Key, seq<int>)>, width: nat): (acc: seq<Acc>)
    requires Widths(rows, width)
    ensures WellFormed(acc, width) && Sorted(acc)
  {
    if rows == [] then []
    else
      var last := rows[|rows| - 1];
      var acc := Totals(rows[..|rows| - 1], width);
      AddSorted(acc, last.0, last.1);
      Add(acc, last.0, last.1)
  }

  /** Reference definition: how many rows carry key `k`. */
  function Count<V>(rows: seq<(Key, V)>, k: Key): nat
  {
    if rows == [] then 0
    else Count(rows[..|rows| - 1], k) + (if rows[|rows| - 1].0 == k then 1 else 0)
  }

  /** Reference definition: the sum of column `j` over the rows that carry key `k`. */
  function Sum(rows: seq<(Key, seq<int>)>, k: Key, j: nat): int
    requires forall i :: 0 <= i < |rows| ==> j < |rows[i].1|
  {
    if rows == [] then 0
    else Sum(rows[..|rows| - 1], k, j) + (if rows[|rows| - 1].0 == k then rows[|rows| - 1].1[j] else 0)
  }

  /** Appending one row adds it to its own key's count. */
  lemma CountSnoc<V>(rows: seq<(Key, V)>, x: (Key, V), k: Key)
    ensures Count(rows + [x], k) == Count(rows, k) + (if x.0 == k then 1 else 0)
  {
    assert (rows + [x])[..|rows|] == rows;
  }

  /** Appending one row adds its value to its own key's column sum. */
  lemma SumSnoc(rows: seq<(Key, seq<int>)>, x: (Key, seq<int>), k: Key, j: nat)
    requires forall i :: 0 <= i < |rows| ==> j < |rows[i].1|
    requires j < |x.1|
    ensures Sum(rows + [x], k, j) == Sum(rows, k, j) + (if x.0 == k then x.1[j] else 0)
  {
    assert (rows + [x])[..|rows|] == rows;
  }

  function Sums(rows: seq<(Key, seq<int>)>, k: Key, width: nat): (r: seq<int>)
    requires Widths(rows, width)
    ensures |r| == width
  {
    seq(width, j requires 0 <= j < width => Sum(rows, k, j))
  }

  lemma {:induction false} CountPositive<V>(rows: seq<(Key, V)>, k: Key)
    ensures Count(rows, k) > 0 <==> exists i :: 0 <= i < |rows| && rows[i].0 == k
    decreases |rows|
  {
    if rows != [] {
      var front := rows[..|rows| - 1];
      CountPositive(front, k);
      if exists i :: 0 <= i < |front| && front[i].0 == k {
        var i :| 0 <= i < |front| && front[i].0 == k;
        assert rows[i].0 == k;
      }
      if exists i :: 0 <= i < |rows| && rows[i].0 == k {
        var i :| 0 <= i < |rows| && rows[i].0 == k;
        if i < |front| { assert front[i].0 == k; }
      }
    }
  }

  lemma {:induction false} SumOfAbsentKey(rows: seq<(Key, seq<int>)>, k: Key, j: nat)
    requires forall i :: 0 <= i < |rows| ==> j < |rows[i].1|
    requires Count(rows, k) == 0
    ensures Sum(rows, k, j) == 0
    decreases |rows|
  {
    if rows != [] {
      SumOfAbsentKey(rows[..|rows| - 1], k, j);
    }
  }

  lemma SumsStep(rows: seq<(Key, seq<int>)>, k: Key, width: nat)
    requires Widths(rows, width) && rows != []
    ensures Sums(rows, k, width) ==
      if rows[|rows| - 1].0 == k then Plus(Sums(rows[..|rows| - 1], k, width), rows[|rows| - 1].1)
      else Sums(rows[..|rows| - 1], k, width)
  {
  }

  lemma SumsOfAbsentKey(rows: seq<(Key, seq<int>)>, k: Key, width: nat, vals: seq<int>)
    requires Widths(rows, width) && Count(rows, k) == 0 && |vals| == width
    ensures Plus(Sums(rows, k, width), vals) == vals
  {
    forall j | 0 <= j < width ensures Sum(rows, k, j) == 0 {
      SumOfAbsentKey(rows, k, j);
    }
  }

  /** The fold agrees with the reference: a group exists exactly for the keys present, with their count and sums. */
  lemma {:induction false} TotalsGet(rows: seq<(Key, seq<int>)>, width: nat, k: Key)
    requires Widths(rows, width)
    ensures Get(Totals(rows, width), k) ==
      if Count(rows, k) == 0 then None else Some(Acc(k, Count(rows, k), Sums(rows, k, width)))
    decreases |rows|
  {
    if rows != [] {
      var front, last := rows[..|rows| - 1], rows[|rows| - 1];
      var acc := Totals(front, width);
      assert Totals(rows, width) == Add(acc, last.0, last.1);
      assert Count(rows, k) == Count(front, k) + (if last.0 == k then 1 else 0);
      TotalsGet(front, width, k);
      if last.0 == k {
        AddGetSame(acc, k, last.1);
      } else {
        AddGetOther(acc, last.0, last.1, k);
      }
      SumsStep(rows, k, width);
      if last.0 == k && Count(front, k) == 0 {
        SumsOfAbsentKey(front, k, width, last.1);
      }
    }
  }

  /** In a sorted list of accumulators each key sits at one position only. */
  lemma SortedKeysDistinct(acc: seq<Acc>)
    requires Sorted(acc)
    ensures forall i, j :: 0 <= i < |acc| && 0 <= j < |acc| && acc[i].key == acc[j].key ==> i == j
  {
  }

  /** Sum over count for every column of every group, as exact rationals. */
  function Means(acc: seq<Acc>, width: nat): (r: seq<(Key, seq<real>)>)
    requires WellFormed(acc, width)
    ensures |r| == |acc|
  {
    seq(|acc|, i requires 0 <= i < |acc| =>
      (acc[i].key, seq(width, j requires 0 <= j < width => acc[i].sums[j] as real / acc[i].count as real)))
  }

  /** `groupby(key)[columns].mean()`, one row per key present, in key order. */
  function GroupMeans(rows: seq<(Key, seq<int>)>, width: nat): seq<(Key, seq<real>)>
    requires Widths(rows, width)
  {
    Means(Totals(rows, width), width)
  }

  /**
   * There is exactly one output row per key present in the input and none for
   * any other key, rows come in key order, and each value is that key's column
   * sum divided by its row count.
   */
  lemma GroupMeansSpec(rows: seq<(Key, seq<int>)>, width: nat, k: Key)
    requires Widths(rows, width)
    ensures Widths(GroupMeans(rows, width), width)
    ensures forall i, j :: 0 <= i < j < |GroupMeans(rows, width)| ==> Before(GroupMeans(rows, width)[i].0, GroupMeans(rows, width)[j].0)
    ensures (exists i :: 0 <= i < |GroupMeans(rows, width)| && GroupMeans(rows, width)[i].0 == k)
        <==> (exists i :: 0 <= i < |rows| && rows[i].0 == k)
    ensures forall i, j :: 0 <= i < |GroupMeans(rows, width)| && GroupMeans(rows, width)[i].0 == k && 0 <= j < width ==>
      Count(rows, k) > 0 && GroupMeans(rows, width)[i].1[j] == Sum(rows, k, j) as real / Count(rows, k) as real
  {
    var acc := Totals(rows, width);
    var m := GroupMeans(rows, width);
    TotalsAt(rows, width, k);
    CountPositive(rows, k);
    assert forall i :: 0 <= i < |m| ==> m[i].0 == acc[i].key;
    forall i, j | 0 <= i < |m| && m[i].0 == k && 0 <= j < width
      ensures Count(rows, k) > 0 && m[i].1[j] == Sum(rows, k, j) as real / Count(rows, k) as real
    {
      assert acc[i] == Acc(k, Count(rows, k), Sums(rows, k, width));
      assert m[i].1[j] == acc[i].sums[j] as real / acc[i].count as real;
    }
  }

  /** The accumulator found at any position holding key `k` is that key's count and sums, and one exists exactly when `k` occurs. */
  lemma TotalsAt(rows: seq<(Key, seq<int>)>, width: nat, k: Key)
    requires Widths(rows, width)
    ensures forall i :: 0 <= i < |Totals(rows, width)| && Totals(rows, width)[i].key == k ==>
      Totals(rows, width)[i] == Acc(k, Count(rows, k), Sums(rows, k, width))
    ensures (exists i :: 0 <= i < |Totals(rows, width)| && Totals(rows, width)[i].key == k) <==> Count(rows, k) > 0
  {
    var acc := Totals(rows, width);
    TotalsGet(rows, width, k);
    SortedKeysDistinct(acc);
    forall i | 0 <= i < |acc| && acc[i].key == k
      ensures acc[i] == Acc(k, Count(rows, k), Sums(rows, k, width))
    {
      var i' :| 0 <= i' < |acc| && acc[i'] == Get(acc, k).value;
      assert acc[i'].key == acc[i].key;
    }
    if Count(rows, k) > 0 {
      var i' :| 0 <= i' < |acc| && acc[i'] == Get(acc, k).value;
      assert acc[i'].key == k;
    }
  }

  lemma GroupMeansUnique(rows: seq<(Key, seq<int>)>, width: nat)
    requires Widths(rows, width)
    ensures UniqueKeys(GroupMeans(rows, width))
  {
    forall i, j | 0 <= i < j < |GroupMeans(rows, width)|
      ensures GroupMeans(rows, width)[i].0 != GroupMeans(rows, width)[j].0
    {
      GroupMeansSpec(rows, width, GroupMeans(rows, width)[i].0);
    }
  }
}
