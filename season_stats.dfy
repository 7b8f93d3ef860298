/**
 * `calc_season_statistics`: the mean of a fixed list of box-score columns per
 * (Season, T1_TeamID), published as two tables that differ only in their
 * column labels, one to be joined on Team1 and one on Team2.
 */
module SeasonStats {
  import opened Text
  import opened Games
  import opened Groups

  /** An aggregated column: a Team1 statistic, a Team2 statistic, or the point differential. */
  datatype Column = T1Stat(stat: Stat) | T2Stat(stat: Stat) | PointDiffColumn

  /**
   * The aggregated columns, in order. The list is not symmetric: it has
   * `T1_PF` but not `T2_PF`, and `T2_Blk` but not `T1_Blk`; free throws and
   * defensive rebounds are absent on both sides.
   */
  const BoxscoreCols: seq<Column> := [
    T1Stat(FGM), T1Stat(FGA), T1Stat(FGM3), T1Stat(FGA3), T1Stat(OR), T1Stat(Ast), T1Stat(TO), T1Stat(Stl), T1Stat(PF),
    T2Stat(FGM), T2Stat(FGA), T2Stat(FGM3), T2Stat(FGA3), T2Stat(OR), T2Stat(Ast), T2Stat(TO), T2Stat(Stl), T2Stat(Blk),
    PointDiffColumn]

  function ColumnName(c: Column): string
  {
    match c
    case T1Stat(s) => "T1_" + StatName(s)
    case T2Stat(s) => "T2_" + StatName(s)
    case PointDiffColumn => "PointDiff"
  }

  function ColumnValue(r: Row, c: Column): int
  {
    match c
    case T1Stat(s) => StatValue(r.t1, s)
    case T2Stat(s) => StatValue(r.t2, s)
    case PointDiffColumn => r.pointDiff
  }

  /** Each row keyed by (Season, T1_TeamID) with its values of the aggregated columns. */
  function SeasonRows(rows: seq<Row>): (r: seq<(Key, seq<int>)>)
    ensures |r| == |rows| && Widths(r, |BoxscoreCols|)
  {
    seq(|rows|, i requires 0 <= i < |rows| =>
      (Key(rows[i].season, rows[i].t1TeamID), seq(|BoxscoreCols|, j requires 0 <= j < |BoxscoreCols| => ColumnValue(rows[i], BoxscoreCols[j]))))
  }

  // ---------------------------------------------------------------------------
  // Column labels

  /** Lines 56 and 60: the MultiIndex labels joined, so each aggregated column `c` is labelled `c + "mean"`. */
  function FlatHeader(): seq<string>
  {
    ["Season", "T1_" + "TeamID"] + seq(|BoxscoreCols|, j requires 0 <= j < |BoxscoreCols| => ColumnName(BoxscoreCols[j]) + "mean")
  }

  /** Line 61: `T2_` becomes `T1_opponent_`. */
  function T1Label(h: string): string
  {
    ReplaceAll(h, "T2_", "T1_opponent_")
  }

  /** Line 64: `T1_` is dropped, `T2_` becomes `opponent_`, and `T2_` goes in front. */
  function T2Label(h: string): string
  {
    "T2_" + ReplaceAll(ReplaceAll(h, "T1_", ""), "T2_", "opponent_")
  }

  /** Lines 61 and 66: the Team1 table's labels, column 0 reset to `Season`. */
  function T1Header(): seq<string>
  {
    var h := FlatHeader();
    seq(|h|, i requires 0 <= i < |h| => T1Label(h[i]))[0 := "Season"]
  }

  /** Lines 64 and 67: the Team2 table's labels, column 0 reset to `Season`. */
  function T2Header(): seq<string>
  {
    var h := FlatHeader();
    seq(|h|, i requires 0 <= i < |h| => T2Label(h[i]))[0 := "Season"]
  }

  /** `calc_season_statistics`: both tables hold the same groups; only their labels differ. */
  function CalcSeasonStatistics(rows: seq<Row>): (Table<seq<real>>, Table<seq<real>>)
  {
    var stats := GroupMeans(SeasonRows(rows), |BoxscoreCols|);
    (Table(T1Header(), stats), Table(T2Header(), stats))
  }

  // ---------------------------------------------------------------------------
  // Reference definitions over oriented rows

  /** How many rows the team of key `k` has as Team1. */
  function TeamGames(rows: seq<Row>, k: Key): nat
  {
    if rows == [] then 0
    else TeamGames(rows[..|rows| - 1], k) + (if Key(rows[|rows| - 1].season, rows[|rows| - 1].t1TeamID) == k then 1 else 0)
  }

  /** The total of column `c` over those rows. */
  function ColumnTotal(rows: seq<Row>, k: Key, c: Column): int
  {
    if rows == [] then 0
    else
      var r := rows[|rows| - 1];
      ColumnTotal(rows[..|rows| - 1], k, c) + (if Key(r.season, r.t1TeamID) == k then ColumnValue(r, c) else 0)
  }

  lemma {:induction false} SeasonRowsAgree(rows: seq<Row>, k: Key, j: nat)
    requires j < |BoxscoreCols|
    ensures Count(SeasonRows(rows), k) == TeamGames(rows, k)
    ensures Sum(SeasonRows(rows), k, j) == ColumnTotal(rows, k, BoxscoreCols[j])
    decreases |rows|
  {
    if rows != [] {
      var front := rows[..|rows| - 1];
      SeasonRowsAgree(front, k, j);
      assert SeasonRows(rows)[..|rows| - 1] == SeasonRows(front);
    }
  }

  /**
   * Season statistics: one row per (Season, T1_TeamID) present in the input and
   * none for any other key; each value is the column's total over that team's
   * rows divided by their number; both tables carry the same rows.
   */
  lemma SeasonStatisticsMeans(rows: seq<Row>, k: Key)
    ensures CalcSeasonStatistics(rows).0.rows == CalcSeasonStatistics(rows).1.rows
    ensures UniqueKeys(CalcSeasonStatistics(rows).0.rows)
    ensures (exists i :: 0 <= i < |CalcSeasonStatistics(rows).0.rows| && CalcSeasonStatistics(rows).0.rows[i].0 == k)
        <==> (exists r :: r in rows && Key(r.season, r.t1TeamID) == k)
    ensures forall i, j :: (0 <= i < |CalcSeasonStatistics(rows).0.rows| && CalcSeasonStatistics(rows).0.rows[i].0 == k
                           && 0 <= j < |BoxscoreCols|) ==>
      TeamGames(rows, k) > 0 &&
      |CalcSeasonStatistics(rows).0.rows[i].1| == |BoxscoreCols| &&
      CalcSeasonStatistics(rows).0.rows[i].1[j] == ColumnTotal(rows, k, BoxscoreCols[j]) as real / TeamGames(rows, k) as real
  {
    var sr := SeasonRows(rows);
    GroupMeansSpec(sr, |BoxscoreCols|, k);
    GroupMeansUnique(sr, |BoxscoreCols|);
    SeasonRowsTotals(rows, k);
    SeasonRowsKeys(rows, k);
  }

  lemma SeasonRowsTotals(rows: seq<Row>, k: Key)
    ensures Count(SeasonRows(rows), k) == TeamGames(rows, k)
    ensures forall j :: 0 <= j < |BoxscoreCols| ==> Sum(SeasonRows(rows), k, j) == ColumnTotal(rows, k, BoxscoreCols[j])
  {
    forall j | 0 <= j < |BoxscoreCols| ensures Sum(SeasonRows(rows), k, j) == ColumnTotal(rows, k, BoxscoreCols[j]) {
      SeasonRowsAgree(rows, k, j);
    }
    SeasonRowsAgree(rows, k, 0);
  }

  lemma SeasonRowsKeys(rows: seq<Row>, k: Key)
    ensures (exists i :: 0 <= i < |SeasonRows(rows)| && SeasonRows(rows)[i].0 == k)
        <==> (exists r :: r in rows && Key(r.season, r.t1TeamID) == k)
  {
    var sr := SeasonRows(rows);
    if exists r :: r in rows && Key(r.season, r.t1TeamID) == k {
      var r :| r in rows && Key(r.season, r.t1TeamID) == k;
      var i :| 0 <= i < |rows| && rows[i] == r;
      assert sr[i].0 == k;
    }
    if exists i :: 0 <= i < |sr| && sr[i].0 == k {
      var i :| 0 <= i < |sr| && sr[i].0 == k;
      assert rows[i] in rows;
    }
  }

  /** A side prefix followed by a label without `_` holds no match of the other side's prefix. */
  lemma SkipSide(x: string, own: string, other: string, rep: string)
    requires '_' !in x
    requires (own == "T1_" && other == "T2_") || (own == "T2_" && other == "T1_")
    ensures ReplaceAll(own + x, other, rep) == own + x
  {
    forall i | 0 <= i < 3 ensures !MatchesPrefix((own + x)[i..], other, false) {
      if i == 0 { Mismatch((own + x)[i..], other, 1, false); } else { Mismatch((own + x)[i..], other, 0, false); }
    }
    ReplaceSkip(own, x, other, rep, false);
    ReplaceAbsent(x, other, rep, false, 2);
  }

  /** A side prefix followed by a label without `_` has exactly that prefix replaced. */
  lemma HitSide(x: string, side: string, rep: string)
    requires '_' !in x && (side == "T1_" || side == "T2_")
    ensures ReplaceAll(side + x, side, rep) == rep + x
  {
    ReplaceHit(side, x, rep, false);
    ReplaceAbsent(x, side, rep, false, 2);
  }

  /** A label without `_` holds no side prefix. */
  lemma Untouched(x: string, side: string, rep: string)
    requires '_' !in x && (side == "T1_" || side == "T2_")
    ensures ReplaceAll(x, side, rep) == x
  {
    ReplaceAbsent(x, side, rep, false, 2);
  }

  /** A label with no `_` is left alone by the Team1 scheme. */
  lemma PlainT1Label(x: string)
    requires '_' !in x
    ensures T1Label(x) == x
  {
    Untouched(x, "T2_", "T1_opponent_");
  }

  lemma OwnT1Label(x: string)
    requires '_' !in x
    ensures T1Label("T1_" + x) == "T1_" + x
  {
    SkipSide(x, "T1_", "T2_", "T1_opponent_");
  }

  lemma OpponentT1Label(x: string)
    requires '_' !in x
    ensures T1Label("T2_" + x) == "T1_opponent_" + x
  {
    HitSide(x, "T2_", "T1_opponent_");
  }

  lemma PlainT2Label(x: string)
    requires '_' !in x
    ensures T2Label(x) == "T2_" + x
  {
    Untouched(x, "T1_", "");
    Untouched(x, "T2_", "opponent_");
  }

  lemma OwnT2Label(x: string)
    requires '_' !in x
    ensures T2Label("T1_" + x) == "T2_" + x
  {
    HitSide(x, "T1_", "");
    assert "" + x == x;
    Untouched(x, "T2_", "opponent_");
  }

  lemma OpponentT2Label(x: string)
    requires '_' !in x
    ensures T2Label("T2_" + x) == "T2_opponent_" + x
  {
    SkipSide(x, "T2_", "T1_", "");
    HitSide(x, "T2_", "opponent_");
    assert "T2_" + ("opponent_" + x) == "T2_opponent_" + x;
  }

  /** A statistic's name followed by `mean` has no `_`. */
  lemma MeanLabel(s: Stat)
    ensures '_' !in StatName(s) + "mean"
  {
    StatNameLetters(s);
  }

  /** The label a column gets in the Team1 table. */
  function T1ColumnLabel(c: Column): string
  {
    match c
    case T1Stat(s) => "T1_" + StatName(s) + "mean"
    case T2Stat(s) => "T1_opponent_" + StatName(s) + "mean"
    case PointDiffColumn => "PointDiff" + "mean"
  }

  /** The label a column gets in the Team2 table. */
  function T2ColumnLabel(c: Column): string
  {
    match c
    case T1Stat(s) => "T2_" + StatName(s) + "mean"
    case T2Stat(s) => "T2_opponent_" + StatName(s) + "mean"
    case PointDiffColumn => "T2_" + "PointDiff" + "mean"
  }

  lemma OwnT1Column(n: string)
    requires '_' !in n + "mean"
    ensures T1Label("T1_" + n + "mean") == "T1_" + n + "mean"
  {
    OwnT1Label(n + "mean");
    assert "T1_" + n + "mean" == "T1_" + (n + "mean");
  }

  lemma OpponentT1Column(n: string)
    requires '_' !in n + "mean"
    ensures T1Label("T2_" + n + "mean") == "T1_opponent_" + n + "mean"
  {
    OpponentT1Label(n + "mean");
    assert "T2_" + n + "mean" == "T2_" + (n + "mean");
    assert "T1_opponent_" + n + "mean" == "T1_opponent_" + (n + "mean");
  }

  lemma OwnT2Column(n: string)
    requires '_' !in n + "mean"
    ensures T2Label("T1_" + n + "mean") == "T2_" + n + "mean"
  {
    OwnT2Label(n + "mean");
    assert "T1_" + n + "mean" == "T1_" + (n + "mean");
    assert "T2_" + n + "mean" == "T2_" + (n + "mean");
  }

  lemma OpponentT2Column(n: string)
    requires '_' !in n + "mean"
    ensures T2Label("T2_" + n + "mean") == "T2_opponent_" + n + "mean"
  {
    OpponentT2Label(n + "mean");
    assert "T2_" + n + "mean" == "T2_" + (n + "mean");
    assert "T2_opponent_" + n + "mean" == "T2_opponent_" + (n + "mean");
  }

  lemma T1ColumnLabelled(c: Column)
    ensures T1Label(ColumnName(c) + "mean") == T1ColumnLabel(c)
  {
    match c
    case T1Stat(s) =>
      MeanLabel(s);
      OwnT1Column(StatName(s));
    case T2Stat(s) =>
      MeanLabel(s);
      OpponentT1Column(StatName(s));
    case PointDiffColumn =>
      PlainT1Label("PointDiff" + "mean");
  }

  lemma T2ColumnLabelled(c: Column)
    ensures T2Label(ColumnName(c) + "mean") == T2ColumnLabel(c)
  {
    match c
    case T1Stat(s) =>
      MeanLabel(s);
      OwnT2Column(StatName(s));
    case T2Stat(s) =>
      MeanLabel(s);
      OpponentT2Column(StatName(s));
    case PointDiffColumn =>
      PlainT2Label("PointDiff" + "mean");
      assert "T2_" + "PointDiff" + "mean" == "T2_" + ("PointDiff" + "mean");
  }

  /**
   * Both tables label column 0 `Season`; the Team1 table keeps `T1_TeamID` and
   * relabels each `T2_x` as `T1_opponent_x`; the Team2 table relabels
   * `T1_TeamID` as `T2_TeamID`, `T1_x` as `T2_x` and `T2_x` as `T2_opponent_x`.
   */
  lemma T1HeaderLabels()
    ensures T1Header() == ["Season", "T1_TeamID"] + seq(|BoxscoreCols|, j requires 0 <= j < |BoxscoreCols| => T1ColumnLabel(BoxscoreCols[j]))
  {
    var want := ["Season", "T1_TeamID"] + seq(|BoxscoreCols|, j requires 0 <= j < |BoxscoreCols| => T1ColumnLabel(BoxscoreCols[j]));
    forall i | 0 <= i < |want| ensures T1Header()[i] == want[i] {
      T1HeaderAt(i);
    }
    T1HeaderAt(0);
  }

  lemma T1HeaderAt(i: nat)
    requires i < 2 + |BoxscoreCols|
    ensures |T1Header()| == 2 + |BoxscoreCols|
    ensures i == 0 ==> T1Header()[i] == "Season"
    ensures i == 1 ==> T1Header()[i] == "T1_TeamID"
    ensures i >= 2 ==> T1Header()[i] == T1ColumnLabel(BoxscoreCols[i - 2])
  {
    FlatHeaderAt(i);
    if i == 1 {
      KeyLabels();
      OwnT1Label("TeamID");
    } else if i >= 2 {
      T1ColumnLabelled(BoxscoreCols[i - 2]);
    }
  }

  lemma T2HeaderLabels()
    ensures T2Header() == ["Season", "T2_TeamID"] + seq(|BoxscoreCols|, j requires 0 <= j < |BoxscoreCols| => T2ColumnLabel(BoxscoreCols[j]))
  {
    var want := ["Season", "T2_TeamID"] + seq(|BoxscoreCols|, j requires 0 <= j < |BoxscoreCols| => T2ColumnLabel(BoxscoreCols[j]));
    forall i | 0 <= i < |want| ensures T2Header()[i] == want[i] {
      T2HeaderAt(i);
    }
    T2HeaderAt(0);
  }

  lemma T2HeaderAt(i: nat)
    requires i < 2 + |BoxscoreCols|
    ensures |T2Header()| == 2 + |BoxscoreCols|
    ensures i == 0 ==> T2Header()[i] == "Season"
    ensures i == 1 ==> T2Header()[i] == "T2_TeamID"
    ensures i >= 2 ==> T2Header()[i] == T2ColumnLabel(BoxscoreCols[i - 2])
  {
    FlatHeaderAt(i);
    if i == 1 {
      KeyLabels();
      OwnT2Label("TeamID");
    } else if i >= 2 {
      T2ColumnLabelled(BoxscoreCols[i - 2]);
    }
  }

  lemma FlatHeaderAt(i: nat)
    requires i < 2 + |BoxscoreCols|
    ensures |FlatHeader()| == 2 + |BoxscoreCols|
    ensures i == 1 ==> FlatHeader()[i] == "T1_" + "TeamID"
    ensures i >= 2 ==> FlatHeader()[i] == ColumnName(BoxscoreCols[i - 2]) + "mean"
  {
  }

  lemma KeyLabels()
    ensures "T1_" + "TeamID" == "T1_TeamID" && "T2_" + "TeamID" == "T2_TeamID"
  {
  }
}
