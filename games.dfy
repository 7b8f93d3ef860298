/**
 * `prepare_data`: each detailed game result (winner W against loser L) becomes
 * two oriented rows, one seen from the winner (Team1 = W) and one seen from the
 * loser (Team1 = L), with the location code turned into an integer and the
 * point differential added.
 */
module Games {
  import opened Common
  import opened Text

  /** The per-side box-score statistics of a detailed result, in CSV column order. */
  datatype Stat = FGM | FGA | FGM3 | FGA3 | FTM | FTA | OR | DR | Ast | TO | Stl | Blk | PF

  const Stats: seq<Stat> := [FGM, FGA, FGM3, FGA3, FTM, FTA, OR, DR, Ast, TO, Stl, Blk, PF]

  function StatName(s: Stat): string
  {
    match s
    case FGM => "FGM" case FGA => "FGA" case FGM3 => "FGM3" case FGA3 => "FGA3"
    case FTM => "FTM" case FTA => "FTA" case OR => "OR" case DR => "DR"
    case Ast => "Ast" case TO => "TO" case Stl => "Stl" case Blk => "Blk" case PF => "PF"
  }

  datatype BoxScore = BoxScore(fgm: int, fga: int, fgm3: int, fga3: int, ftm: int, fta: int,
                               oreb: int, dreb: int, ast: int, tov: int, stl: int, blk: int, pf: int)

  function StatValue(b: BoxScore, s: Stat): int
  {
    match s
    case FGM => b.fgm case FGA => b.fga case FGM3 => b.fgm3 case FGA3 => b.fga3
    case FTM => b.ftm case FTA => b.fta case OR => b.oreb case DR => b.dreb
    case Ast => b.ast case TO => b.tov case Stl => b.stl case Blk => b.blk case PF => b.pf
  }

  /** One row of a detailed results file; `wLoc` is `H`, `A` or `N` as seen from the winner. */
  datatype Game = Game(season: int, dayNum: int, wTeamID: int, wScore: int, lTeamID: int, lScore: int,
                       wLoc: string, numOT: int, w: BoxScore, l: BoxScore)

  /** One oriented row: Team1 against Team2, `location` from Team1's side, and `PointDiff`. */
  datatype Row = Row(season: int, dayNum: int, t1TeamID: int, t1Score: int, t2TeamID: int, t2Score: int,
                     location: int, numOT: int, t1: BoxScore, t2: BoxScore, pointDiff: int)

  /** The two sides of an oriented row. */
  datatype Side = T1 | T2

  function TeamOf(r: Row, side: Side): int
  {
    if side == T1 then r.t1TeamID else r.t2TeamID
  }

  // ---------------------------------------------------------------------------
  // Column labels

  function StatColumns(prefix: string): (r: seq<string>)
    ensures |r| == |Stats|
  {
    seq(|Stats|, i requires 0 <= i < |Stats| => prefix + StatName(Stats[i]))
  }

  function SideColumns(prefix: string): seq<string>
  {
    [prefix + "TeamID", prefix + "Score"]
  }

  /** The header of a detailed results file: Season, DayNum, WTeamID, WScore, LTeamID, LScore, WLoc, NumOT, WFGM, ... */
  function RawHeader(): seq<string>
  {
    ["Season", "DayNum"] + SideColumns("W") + SideColumns("L") + ["WLoc", "NumOT"]
      + StatColumns("W") + StatColumns("L")
  }

  /** A winner-copy label: every `W` becomes `T1_`, then every `L` becomes `T2_`. */
  function WinnerLabel(c: string): string { ReplaceAll(ReplaceAll(c, "W", "T1_"), "L", "T2_") }

  /** A loser-copy label: every `W` becomes `T2_`, then every `L` becomes `T1_`. */
  function LoserLabel(c: string): string { ReplaceAll(ReplaceAll(c, "W", "T2_"), "L", "T1_") }

  function WinnerLabels(h: seq<string>): (r: seq<string>)
    ensures |r| == |h|
  {
    seq(|h|, i requires 0 <= i < |h| => WinnerLabel(h[i]))
  }

  function LoserLabels(h: seq<string>): (r: seq<string>)
    ensures |r| == |h|
  {
    seq(|h|, i requires 0 <= i < |h| => LoserLabel(h[i]))
  }

  /** Column 6 (`WLoc`) is renamed `location` before the substitutions, so they leave it alone. */
  function WinnerHeader(): seq<string>
  {
    WinnerLabels(RawHeader()[6 := "location"])
  }

  function LoserHeader(): seq<string>
  {
    LoserLabels(RawHeader()[6 := "location"])
  }

  lemma StatNameLetters(s: Stat)
    ensures 'W' !in StatName(s) && 'L' !in StatName(s) && '_' !in StatName(s)
  {
  }

  /** A label free of `W` and `L` is left alone by both substitutions. */
  lemma PlainLabel(x: string)
    requires 'W' !in x && 'L' !in x
    ensures WinnerLabel(x) == x && LoserLabel(x) == x
  {
    ReplaceAbsent(x, "W", "T1_", false, 0);
    ReplaceAbsent(x, "W", "T2_", false, 0);
    ReplaceAbsent(x, "L", "T1_", false, 0);
    ReplaceAbsent(x, "L", "T2_", false, 0);
  }

  /** A side letter followed by a name free of `W` and `L` gets the prefix of its side in each copy. */
  lemma SideLabel(x: string)
    requires 'W' !in x && 'L' !in x
    ensures WinnerLabel("W" + x) == "T1_" + x && WinnerLabel("L" + x) == "T2_" + x
    ensures LoserLabel("W" + x) == "T2_" + x && LoserLabel("L" + x) == "T1_" + x
  {
    ReplaceAbsent(x, "W", "T1_", false, 0);
    ReplaceAbsent(x, "W", "T2_", false, 0);
    ReplaceAbsent(x, "L", "T1_", false, 0);
    ReplaceAbsent(x, "L", "T2_", false, 0);
    ReplaceHit("W", x, "T1_", false);
    ReplaceHit("W", x, "T2_", false);
    ReplaceHit("L", x, "T1_", false);
    ReplaceHit("L", x, "T2_", false);
    ReplaceAbsent("W" + x, "L", "T1_", false, 0);
    ReplaceAbsent("W" + x, "L", "T2_", false, 0);
    ReplaceAbsent("L" + x, "W", "T1_", false, 0);
    ReplaceAbsent("L" + x, "W", "T2_", false, 0);
    ReplaceAbsent("T1_" + x, "L", "T2_", false, 0);
    ReplaceAbsent("T2_" + x, "L", "T1_", false, 0);
  }

  lemma StatColumnsRelabelled()
    ensures WinnerLabels(StatColumns("W")) == StatColumns("T1_") && WinnerLabels(StatColumns("L")) == StatColumns("T2_")
    ensures LoserLabels(StatColumns("W")) == StatColumns("T2_") && LoserLabels(StatColumns("L")) == StatColumns("T1_")
  {
    forall i | 0 <= i < |Stats|
      ensures WinnerLabel("W" + StatName(Stats[i])) == "T1_" + StatName(Stats[i])
      ensures WinnerLabel("L" + StatName(Stats[i])) == "T2_" + StatName(Stats[i])
      ensures LoserLabel("W" + StatName(Stats[i])) == "T2_" + StatName(Stats[i])
      ensures LoserLabel("L" + StatName(Stats[i])) == "T1_" + StatName(Stats[i])
    {
      StatNameLetters(Stats[i]);
      SideLabel(StatName(Stats[i]));
    }
  }

  lemma SideColumnsRelabelled()
    ensures WinnerLabels(SideColumns("W")) == SideColumns("T1_") && WinnerLabels(SideColumns("L")) == SideColumns("T2_")
    ensures LoserLabels(SideColumns("W")) == SideColumns("T2_") && LoserLabels(SideColumns("L")) == SideColumns("T1_")
  {
    SideLabel("TeamID");
    SideLabel("Score");
  }

  lemma PlainColumnsRelabelled(x: string, y: string)
    requires 'W' !in x && 'L' !in x && 'W' !in y && 'L' !in y
    ensures WinnerLabels([x, y]) == [x, y] && LoserLabels([x, y]) == [x, y]
  {
    PlainLabel(x);
    PlainLabel(y);
  }

  lemma LabelsAppend(a: seq<string>, b: seq<string>)
    ensures WinnerLabels(a + b) == WinnerLabels(a) + WinnerLabels(b)
    ensures LoserLabels(a + b) == LoserLabels(a) + LoserLabels(b)
  {
  }

  /** Relabelling a header goes part by part. */
  lemma LabelsAppend6(a: seq<string>, b: seq<string>, c: seq<string>, d: seq<string>, e: seq<string>, f: seq<string>)
    ensures WinnerLabels(a + b + c + d + e + f)
         == WinnerLabels(a) + WinnerLabels(b) + WinnerLabels(c) + WinnerLabels(d) + WinnerLabels(e) + WinnerLabels(f)
    ensures LoserLabels(a + b + c + d + e + f)
         == LoserLabels(a) + LoserLabels(b) + LoserLabels(c) + LoserLabels(d) + LoserLabels(e) + LoserLabels(f)
  {
    LabelsAppend(a + b + c + d + e, f);
    LabelsAppend(a + b + c + d, e);
    LabelsAppend(a + b + c, d);
    LabelsAppend(a + b, c);
    LabelsAppend(a, b);
  }

  /** Renaming column 6 replaces `WLoc` by `location` and keeps the other parts of the header. */
  lemma RenamedHeader()
    ensures RawHeader()[6 := "location"]
         == ["Season", "DayNum"] + SideColumns("W") + SideColumns("L") + ["location", "NumOT"] + StatColumns("W") + StatColumns("L")
  {
  }

  /** The winner copy labels the winner's columns `T1_` and the loser's `T2_`. */
  lemma WinnerHeaderRelabelling()
    ensures WinnerHeader() == ["Season", "DayNum"] + SideColumns("T1_") + SideColumns("T2_") + ["location", "NumOT"]
                              + StatColumns("T1_") + StatColumns("T2_")
  {
    RenamedHeader();
    LabelsAppend6(["Season", "DayNum"], SideColumns("W"), SideColumns("L"), ["location", "NumOT"], StatColumns("W"), StatColumns("L"));
    SideColumnsRelabelled();
    PlainColumnsRelabelled("Season", "DayNum");
    PlainColumnsRelabelled("location", "NumOT");
    StatColumnsRelabelled();
  }

  /** The loser copy labels the loser's columns `T1_` and the winner's `T2_`. */
  lemma LoserHeaderRelabelling()
    ensures LoserHeader() == ["Season", "DayNum"] + SideColumns("T2_") + SideColumns("T1_") + ["location", "NumOT"]
                             + StatColumns("T2_") + StatColumns("T1_")
  {
    RenamedHeader();
    LabelsAppend6(["Season", "DayNum"], SideColumns("W"), SideColumns("L"), ["location", "NumOT"], StatColumns("W"), StatColumns("L"));
    SideColumnsRelabelled();
    PlainColumnsRelabelled("Season", "DayNum");
    PlainColumnsRelabelled("location", "NumOT");
    StatColumnsRelabelled();
  }

  // ---------------------------------------------------------------------------
  // Location column

  /** `df.loc[df[col] == from, col] = to`, seen from one cell. */
  function Overwrite(v: string, from: string, to: string): string
  {
    if v == from then to else v
  }

  function OverwriteAll(col: seq<string>, from: string, to: string): (r: seq<string>)
    ensures |r| == |col|
  {
    seq(|col|, i requires 0 <= i < |col| => Overwrite(col[i], from, to))
  }

  /** The loser copy's location after the two overwrites, H to A and then A to H. */
  function LoserCode(c: string): string
  {
    Overwrite(Overwrite(c, "H", "A"), "A", "H")
  }

  /** The text left in a cell after the N, H and A overwrites that precede `astype(int)`. */
  function EncodedCode(c: string): string
  {
    Overwrite(Overwrite(Overwrite(c, "N", "0"), "H", "1"), "A", "-1")
  }

  function LocationValue(c: string): Result<int>
  {
    ParseInt(EncodedCode(c))
  }

  /** The row of game `g` seen from the winner (`asWinner`) or from the loser. */
  function Oriented(g: Game, asWinner: bool, location: int): Row
  {
    if asWinner then
      Row(g.season, g.dayNum, g.wTeamID, g.wScore, g.lTeamID, g.lScore, location, g.numOT, g.w, g.l, g.wScore - g.lScore)
    else
      Row(g.season, g.dayNum, g.lTeamID, g.lScore, g.wTeamID, g.wScore, location, g.numOT, g.l, g.w, g.lScore - g.wScore)
  }

  /** What `prepare_data` returns: both rows of each game in turn, or the error `astype(int)` raises. */
  function PrepareDataSpec(games: seq<Game>): Result<seq<Row>>
  {
    if games == [] then Ok([])
    else
      match LocationValue(games[0].wLoc)
      case Err(e) => Err(e)
      case Ok(wl) =>
        match LocationValue(LoserCode(games[0].wLoc))
        case Err(e) => Err(e)
        case Ok(ll) =>
          match PrepareDataSpec(games[1..])
          case Err(e) => Err(e)
          case Ok(rest) => Ok([Oriented(games[0], true, wl), Oriented(games[0], false, ll)] + rest)
  }

  function Prepend(rows: seq<Row>, r: Result<seq<Row>>): Result<seq<Row>>
  {
    match r
    case Ok(rest) => Ok(rows + rest)
    case Err(e) => Err(e)
  }

  /** How the rows from game k onwards begin: game k's two rows, or the error its location raises. */
  lemma PrepareDataStep(games: seq<Game>, k: nat)
    requires k < |games|
    ensures PrepareDataSpec(games[k..]) ==
      match LocationValue(games[k].wLoc)
      case Err(e) => Err(e)
      case Ok(wl) =>
        match LocationValue(LoserCode(games[k].wLoc))
        case Err(e) => Err(e)
        case Ok(ll) => Prepend([Oriented(games[k], true, wl), Oriented(games[k], false, ll)], PrepareDataSpec(games[k + 1..]))
  {
    assert games[k..][0] == games[k] && games[k..][1..] == games[k + 1..];
  }

  lemma PrependAppend(a: seq<Row>, b: seq<Row>, r: Result<seq<Row>>)
    ensures Prepend(a, Prepend(b, r)) == Prepend(a + b, r)
  {
    if r.Ok? {
      assert a + (b + r.value) == a + b + r.value;
    }
  }

  /** Every location code is one `int()` accepts once the N, H and A overwrites are done. */
  predicate LocationsParse(games: seq<Game>)
  {
    forall k :: 0 <= k < |games| ==> LocationValue(games[k].wLoc).Ok? && LocationValue(LoserCode(games[k].wLoc)).Ok?
  }

  /** `prepare_data` fails exactly when some location code is left unreadable by `int()`. */
  lemma {:induction false} PrepareDataOk(games: seq<Game>)
    ensures PrepareDataSpec(games).Ok? <==> LocationsParse(games)
    decreases |games|
  {
    if games != [] {
      PrepareDataOk(games[1..]);
      if LocationsParse(games) {
        forall k | 0 <= k < |games[1..]|
          ensures LocationValue(games[1..][k].wLoc).Ok? && LocationValue(LoserCode(games[1..][k].wLoc)).Ok?
        {
          assert games[1..][k] == games[k + 1];
        }
      } else {
        var k :| 0 <= k < |games| && !(LocationValue(games[k].wLoc).Ok? && LocationValue(LoserCode(games[k].wLoc)).Ok?);
        if k > 0 {
          assert games[1..][k - 1] == games[k];
        }
      }
    }
  }

  /** Rows `w` and `l` are game `g` seen from its winner and from its loser, with their parsed locations. */
  predicate GameRows(g: Game, w: Row, l: Row)
  {
    LocationValue(g.wLoc) == Ok(w.location) && w == Oriented(g, true, w.location) &&
    LocationValue(LoserCode(g.wLoc)) == Ok(l.location) && l == Oriented(g, false, l.location)
  }

  /** The first two rows come from the first game and the rest from the others. */
  lemma PrepareDataHead(games: seq<Game>)
    requires games != [] && PrepareDataSpec(games).Ok?
    ensures PrepareDataSpec(games[1..]).Ok?
    ensures
      var rows, rest := PrepareDataSpec(games).value, PrepareDataSpec(games[1..]).value;
      |rows| == |rest| + 2 && rows[2..] == rest && GameRows(games[0], rows[0], rows[1])
  {
  }

  /** Pairing rows with games survives putting one more game and its two rows in front. */
  lemma RowsShift(games: seq<Game>, rows: seq<Row>, rest: seq<Row>)
    requires games != [] && |rows| == |rest| + 2 && rows[2..] == rest && GameRows(games[0], rows[0], rows[1])
    requires |rest| == 2 * |games[1..]|
    requires forall k :: 0 <= k < |games[1..]| ==> GameRows(games[1..][k], rest[2 * k], rest[2 * k + 1])
    ensures forall k :: 0 <= k < |games| ==> GameRows(games[k], rows[2 * k], rows[2 * k + 1])
  {
    forall k | 1 <= k < |games|
      ensures GameRows(games[k], rows[2 * k], rows[2 * k + 1])
    {
      assert games[k] == games[1..][k - 1];
      assert rows[2 * k] == rest[2 * (k - 1)] && rows[2 * k + 1] == rest[2 * (k - 1) + 1];
    }
  }

  /** Game k gives rows 2k (the winner's view) and 2k + 1 (the loser's view), so there are 2n rows. */
  lemma {:induction false} PrepareDataRows(games: seq<Game>)
    requires PrepareDataSpec(games).Ok?
    ensures |PrepareDataSpec(games).value| == 2 * |games|
    ensures forall k :: 0 <= k < |games| ==>
      GameRows(games[k], PrepareDataSpec(games).value[2 * k], PrepareDataSpec(games).value[2 * k + 1])
    decreases |games|
  {
    if games != [] {
      PrepareDataHead(games);
      PrepareDataRows(games[1..]);
      RowsShift(games, PrepareDataSpec(games).value, PrepareDataSpec(games[1..]).value);
    }
  }

  /**
   * Mirroring: the two rows of a game swap every Team1 and Team2 field, carry
   * the same season, day and overtime count, have `PointDiff = T1_Score -
   * T2_Score`, and their differentials are each other's negation, positive in
   * the winner's view when the winner scored more.
   */
  lemma PrepareDataMirror(games: seq<Game>, k: nat)
    requires PrepareDataSpec(games).Ok? && k < |games|
    ensures 2 * k + 1 < |PrepareDataSpec(games).value|
    ensures
      var g, w, l := games[k], PrepareDataSpec(games).value[2 * k], PrepareDataSpec(games).value[2 * k + 1];
      w.season == l.season == g.season && w.dayNum == l.dayNum == g.dayNum && w.numOT == l.numOT == g.numOT &&
      w.t1TeamID == l.t2TeamID == g.wTeamID && w.t2TeamID == l.t1TeamID == g.lTeamID &&
      w.t1Score == l.t2Score == g.wScore && w.t2Score == l.t1Score == g.lScore &&
      w.t1 == l.t2 == g.w && w.t2 == l.t1 == g.l &&
      w.pointDiff == w.t1Score - w.t2Score && l.pointDiff == l.t1Score - l.t2Score &&
      l.pointDiff == -w.pointDiff &&
      (g.wScore > g.lScore ==> w.pointDiff > 0 && l.pointDiff < 0)
  {
    PrepareDataRows(games);
    assert GameRows(games[k], PrepareDataSpec(games).value[2 * k], PrepareDataSpec(games).value[2 * k + 1]);
  }

  lemma DigitLiterals()
    ensures ParseInt("0") == Ok(0) && ParseInt("1") == Ok(1) && ParseInt("-1") == Ok(-1)
  {
    assert DigitsValue("0") == 0 by { assert "0"[..0] == []; }
    assert DigitsValue("1") == 1 by { assert "1"[..0] == []; }
    assert "-1"[1..] == "1";
  }

  /**
   * Location encoding: N is 0, H is 1, A is -1 in the winner's view; in the
   * loser's view both H and A end as H (1), since the second overwrite turns the
   * A written by the first back into H, and N stays 0.
   */
  lemma LocationEncoding()
    ensures LocationValue("N") == Ok(0) && LocationValue("H") == Ok(1) && LocationValue("A") == Ok(-1)
    ensures LoserCode("H") == "H" && LoserCode("A") == "H" && LoserCode("N") == "N"
    ensures forall c :: c in ["H", "A", "N"] ==>
      LocationValue(LoserCode(c)).Ok? && LocationValue(LoserCode(c)).value in {0, 1}
  {
    assert EncodedCode("N") == "0" && EncodedCode("H") == "1" && EncodedCode("A") == "-1";
    DigitLiterals();
  }

  // ---------------------------------------------------------------------------
  // The procedure

  /** Lines 24-25 and 35-37: overwrite every `from` in a column with `to`. */
  method OverwriteWhere(col: array<string>, from: string, to: string)
    modifies col
    ensures col[..] == OverwriteAll(old(col[..]), from, to)
  {
    var i := 0;
    while i < col.Length
      invariant 0 <= i <= col.Length
      invariant forall j :: 0 <= j < i ==> col[j] == Overwrite(old(col[j]), from, to)
      invariant forall j :: i <= j < col.Length ==> col[j] == old(col[j])
    {
      if col[i] == from {
        col[i] := to;
      }
      i := i + 1;
    }
  }

  /** Lines 16-25: the winner and loser copies of the location column, the loser copy overwritten H to A, then A to H. */
  method CopyLocations(games: seq<Game>) returns (winners: array<string>, losers: array<string>)
    ensures fresh(winners) && fresh(losers)
    ensures winners[..] == seq(|games|, j requires 0 <= j < |games| => games[j].wLoc)
    ensures losers[..] == seq(|games|, j requires 0 <= j < |games| => LoserCode(games[j].wLoc))
  {
    var n := |games|;
    winners := new string[n](k requires 0 <= k < n => games[k].wLoc);
    losers := new string[n](k requires 0 <= k < n => games[k].wLoc);
    OverwriteWhere(losers, "H", "A");
    ghost var flipped := losers[..];
    OverwriteWhere(losers, "A", "H");
    assert forall j :: 0 <= j < n ==> losers[j] == Overwrite(flipped[j], "A", "H");
  }

  /** Line 32: concatenating the copies and sorting by original index puts game k's rows at 2k and 2k + 1. */
  method Interleave(winners: array<string>, losers: array<string>) returns (location: array<string>)
    requires winners.Length == losers.Length
    ensures fresh(location) && location.Length == 2 * winners.Length
    ensures forall j :: 0 <= j < winners.Length ==> location[2 * j] == winners[j] && location[2 * j + 1] == losers[j]
  {
    var n := winners.Length;
    location := new string[2 * n];
    var k := 0;
    while k < n
      invariant 0 <= k <= n
      invariant forall j :: 0 <= j < k ==> location[2 * j] == winners[j] && location[2 * j + 1] == losers[j]
    {
      location[2 * k] := winners[k];
      location[2 * k + 1] := losers[k];
      k := k + 1;
    }
  }

  /** The three overwrites of lines 35-37 act cell by cell. */
  lemma EncodedAll(col: seq<string>)
    ensures forall j :: 0 <= j < |col| ==>
      OverwriteAll(OverwriteAll(OverwriteAll(col, "N", "0"), "H", "1"), "A", "-1")[j] == EncodedCode(col[j])
  {
  }

  /** The location column of `prepare_data` up to `astype(int)`. */
  method LocationColumn(games: seq<Game>) returns (codes: seq<string>)
    ensures |codes| == 2 * |games|
    ensures forall j :: 0 <= j < |games| ==>
      codes[2 * j] == EncodedCode(games[j].wLoc) && codes[2 * j + 1] == EncodedCode(LoserCode(games[j].wLoc))
  {
    var winners, losers := CopyLocations(games);
    var location := Interleave(winners, losers);
    ghost var joined := location[..];
    OverwriteWhere(location, "N", "0");
    OverwriteWhere(location, "H", "1");
    OverwriteWhere(location, "A", "-1");
    codes := location[..];
    EncodedAll(joined);
    forall j | 0 <= j < |games|
      ensures codes[2 * j] == EncodedCode(games[j].wLoc) && codes[2 * j + 1] == EncodedCode(LoserCode(games[j].wLoc))
    {
      assert joined[2 * j] == winners[j] && joined[2 * j + 1] == losers[j];
    }
  }

  /** `prepare_data`, step by step as the source does it. */
  method PrepareData(games: seq<Game>) returns (r: Result<seq<Row>>)
    ensures r == PrepareDataSpec(games)
  {
    var n := |games|;
    var location := LocationColumn(games);

    // astype(int), then PointDiff = T1_Score - T2_Score
    var rows: seq<Row> := [];
    var k := 0;
    assert games[0..] == games;
    assert PrepareDataSpec(games) == Prepend([], PrepareDataSpec(games)) by {
      if PrepareDataSpec(games).Ok? {
        assert [] + PrepareDataSpec(games).value == PrepareDataSpec(games).value;
      }
    }
    while k < n
      invariant 0 <= k <= n
      invariant PrepareDataSpec(games) == Prepend(rows, PrepareDataSpec(games[k..]))
    {
      PrepareDataStep(games, k);
      var a := ParseInt(location[2 * k]);
      if a.Err? {
        return Err(a.error);
      }
      var b := ParseInt(location[2 * k + 1]);
      if b.Err? {
        return Err(b.error);
      }
      PrependAppend(rows, [Oriented(games[k], true, a.value), Oriented(games[k], false, b.value)], PrepareDataSpec(games[k + 1..]));
      rows := rows + [Oriented(games[k], true, a.value), Oriented(games[k], false, b.value)];
      k := k + 1;
    }
    assert games[n..] == [];
    assert rows + [] == rows;
    r := Ok(rows);
  }
}
