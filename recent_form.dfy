/**
 * `win_ratio_14_days`: each team's share of wins over the last two weeks of
 * the regular season (days after 118), once from the Team1 side of the
 * oriented rows and once from the Team2 side.
 */
module RecentForm {
  import opened Games
  import opened Groups

  /** Games on a later day than this fall in the final fourteen days. */
  const LastDayBeforeWindow := 118

  predicate Late(r: Row)
  {
    r.dayNum > LastDayBeforeWindow
  }

  /** Team1 won when the point differential is positive, Team2 when it is negative. */
  predicate Won(r: Row, side: Side)
  {
    if side == T1 then r.pointDiff > 0 else r.pointDiff < 0
  }

  /** The late rows, in order, each keyed by (Season, the side's TeamID) with a one-column 0/1 win flag. */
  function WinFlags(rows: seq<Row>, side: Side): (r: seq<(Key, seq<int>)>)
    ensures Widths(r, 1)
    ensures forall i :: 0 <= i < |r| ==> r[i].1[0] == 0 || r[i].1[0] == 1
  {
    if rows == [] then []
    else
      var last := rows[|rows| - 1];
      WinFlags(rows[..|rows| - 1], side)
        + (if Late(last) then [(Key(last.season, TeamOf(last, side)), [if Won(last, side) then 1 else 0])] else [])
  }

  function RatioLabel(side: Side): string
  {
    if side == T1 then "T1_win_ratio_14d" else "T2_win_ratio_14d"
  }

  function KeyLabel(side: Side): string
  {
    if side == T1 then "T1_TeamID" else "T2_TeamID"
  }

  /** One side's table: the mean win flag per key, named `T1_win_ratio_14d` or `T2_win_ratio_14d`. */
  function WinRatio(rows: seq<Row>, side: Side): Table<real>
  {
    var means := GroupMeans(WinFlags(rows, side), 1);
    Table(["Season", KeyLabel(side), RatioLabel(side)], seq(|means|, i requires 0 <= i < |means| => (means[i].0, means[i].1[0])))
  }

  /** `win_ratio_14_days`: the Team1 table and the Team2 table. */
  function WinRatio14Days(rows: seq<Row>): (Table<real>, Table<real>)
  {
    (WinRatio(rows, T1), WinRatio(rows, T2))
  }

  // ---------------------------------------------------------------------------
  // Reference definitions

  predicate Counts(r: Row, side: Side, k: Key)
  {
    Late(r) && Key(r.season, TeamOf(r, side)) == k
  }

  /** How many late games the team of key `k` played on this side. */
  function Played(rows: seq<Row>, side: Side, k: Key): nat
  {
    if rows == [] then 0
    else Played(rows[..|rows| - 1], side, k) + (if Counts(rows[|rows| - 1], side, k) then 1 else 0)
  }

  /** How many of them it won. */
  function Wins(rows: seq<Row>, side: Side, k: Key): (n: nat)
    ensures n <= Played(rows, side, k)
  {
    if rows == [] then 0
    else
      var last := rows[|rows| - 1];
      Wins(rows[..|rows| - 1], side, k) + (if Counts(last, side, k) && Won(last, side) then 1 else 0)
  }

  lemma {:induction false} WinFlagsAgree(rows: seq<Row>, side: Side, k: Key)
    ensures Count(WinFlags(rows, side), k) == Played(rows, side, k)
    ensures Sum(WinFlags(rows, side), k, 0) == Wins(rows, side, k)
    decreases |rows|
  {
    if rows != [] {
      var front, last := rows[..|rows| - 1], rows[|rows| - 1];
      var f := WinFlags(front, side);
      WinFlagsAgree(front, side, k);
      if Late(last) {
        var x := (Key(last.season, TeamOf(last, side)), [if Won(last, side) then 1 else 0]);
        assert WinFlags(rows, side) == f + [x];
        CountSnoc(f, x, k);
        SumSnoc(f, x, k, 0);
      } else {
        assert WinFlags(rows, side) == f;
      }
    }
  }

  /** A team has played on a side exactly when one of the rows counts for it. */
  lemma {:induction false} PlayedPositive(rows: seq<Row>, side: Side, k: Key)
    ensures Played(rows, side, k) > 0 <==> exists r :: r in rows && Counts(r, side, k)
    decreases |rows|
  {
    if rows != [] {
      var front, last := rows[..|rows| - 1], rows[|rows| - 1];
      PlayedPositive(front, side, k);
      assert rows == front + [last];
      assert forall r :: r in rows <==> r in front || r == last;
    }
  }

  /**
   * The win ratio: a row for key `k` exactly when the team played a late game
   * on that side, and its value is wins over games played, between 0 and 1.
   */
  lemma WinRatioSpec(rows: seq<Row>, side: Side, k: Key)
    ensures UniqueKeys(WinRatio(rows, side).rows)
    ensures (exists i :: 0 <= i < |WinRatio(rows, side).rows| && WinRatio(rows, side).rows[i].0 == k)
        <==> (exists r :: r in rows && Counts(r, side, k))
    ensures forall i :: 0 <= i < |WinRatio(rows, side).rows| && WinRatio(rows, side).rows[i].0 == k ==>
      Played(rows, side, k) > 0 &&
      WinRatio(rows, side).rows[i].1 == Wins(rows, side, k) as real / Played(rows, side, k) as real &&
      0.0 <= WinRatio(rows, side).rows[i].1 <= 1.0
  {
    var flags := WinFlags(rows, side);
    GroupMeansSpec(flags, 1, k);
    GroupMeansUnique(flags, 1);
    WinFlagsAgree(rows, side, k);
    CountPositive(flags, k);
    PlayedPositive(rows, side, k);
    var t := WinRatio(rows, side).rows;
    var m := GroupMeans(flags, 1);
    assert forall i :: 0 <= i < |t| ==> t[i].0 == m[i].0;
    forall i | 0 <= i < |t| && t[i].0 == k
      ensures Played(rows, side, k) > 0 && t[i].1 == Wins(rows, side, k) as real / Played(rows, side, k) as real
      ensures 0.0 <= t[i].1 <= 1.0
    {
      assert t[i].1 == m[i].1[0];
      RatioBounds(Wins(rows, side, k), Played(rows, side, k));
    }
  }

  lemma RatioBounds(w: nat, n: nat)
    requires 0 < n && w <= n
    ensures 0.0 <= w as real / n as real <= 1.0
  {
  }

  /** Three late games of one team as Team1, two of them won, give a ratio of two thirds. */
  lemma TwoWinsOfThree(a: Row, b: Row, c: Row)
    requires Late(a) && Late(b) && Late(c)
    requires a.season == b.season == c.season && a.t1TeamID == b.t1TeamID == c.t1TeamID
    requires a.pointDiff > 0 && b.pointDiff < 0 && c.pointDiff > 0
    ensures |WinRatio([a, b, c], T1).rows| == 1
    ensures WinRatio([a, b, c], T1).rows[0] == (Key(a.season, a.t1TeamID), 2.0 / 3.0)
  {
    var k := Key(a.season, a.t1TeamID);
    ThreeFlags(a, b, c);
    ThreeTotals(k);
    var m := GroupMeans(WinFlags([a, b, c], T1), 1);
    assert m == Means([Acc(k, 3, [2])], 1);
    assert |m| == 1 && m[0].0 == k && m[0].1[0] == 2 as real / 3 as real;
  }

  lemma ThreeFlags(a: Row, b: Row, c: Row)
    requires Late(a) && Late(b) && Late(c)
    requires a.season == b.season == c.season && a.t1TeamID == b.t1TeamID == c.t1TeamID
    requires a.pointDiff > 0 && b.pointDiff < 0 && c.pointDiff > 0
    ensures WinFlags([a, b, c], T1) == [(Key(a.season, a.t1TeamID), [1]), (Key(a.season, a.t1TeamID), [0]), (Key(a.season, a.t1TeamID), [1])]
  {
    var k := Key(a.season, a.t1TeamID);
    assert [a, b, c][..2] == [a, b] && [a, b][..1] == [a] && [a][..0] == [];
    assert WinFlags([a], T1) == [(k, [1])];
    assert WinFlags([a, b], T1) == [(k, [1]), (k, [0])];
  }

  lemma ThreeTotals(k: Key)
    ensures Totals([(k, [1]), (k, [0]), (k, [1])], 1) == [Acc(k, 3, [2])]
  {
    var flags: seq<(Key, seq<int>)> := [(k, [1]), (k, [0]), (k, [1])];
    assert flags[..2] == [(k, [1]), (k, [0])] && flags[..2][..1] == [(k, [1])] && flags[..2][..1][..0] == [] && flags[..0] == [];
    assert Plus([1], [0]) == [1] && Plus([1], [1]) == [2];
    assert Totals(flags[..2][..1], 1) == [Acc(k, 1, [1])];
    assert Totals(flags[..2], 1) == [Acc(k, 2, [1])];
  }
}
