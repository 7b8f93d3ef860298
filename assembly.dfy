/**
 * `main` without its file reading and writing: the tournament games get the
 * regular-season features of both teams by eight successive left merges on
 * (Season, TeamID), and the seed difference is computed last.
 */
module Assembly {
  import opened Common
  import opened Games
  import opened Groups
  import opened Joins
  import opened SeasonStats
  import opened RecentForm
  import opened Seeds
  import opened KenPom

  /** One tournament row with everything merged onto it; `None` is a missing value. */
  datatype Features = Features(
    game: Row,
    t1Season: Option<seq<real>>, t2Season: Option<seq<real>>,
    t1WinRatio: Option<real>, t2WinRatio: Option<real>,
    t1Kp: Option<Ratings>, t2Kp: Option<Ratings>,
    t1Seed: Option<int>, t2Seed: Option<int>,
    seedDiff: Option<int>)

  /** The merge key of a row on one side: its season and that side's TeamID. */
  function GameKey(f: Features, side: Side): Key
  {
    Key(f.game.season, TeamOf(f.game, side))
  }

  /** One left merge of a keyed table onto the rows, on (Season, the side's TeamID). */
  function Attach<V>(fs: seq<Features>, t: seq<(Key, V)>, side: Side, put: (Features, Option<V>) -> Features): seq<Features>
  {
    LeftJoin(fs, t, (f: Features) => GameKey(f, side), put)
  }

  /** The ratings rows that found a TeamID, keyed by (Season, TeamID); a row without one never matches. */
  function KpKeyed(rows: seq<KpRow>): (r: seq<(Key, Ratings)>)
    ensures forall p :: p in r ==> KpRow(p.0.season, Some(p.0.team), p.1) in rows
    ensures forall x :: x in rows && x.teamID.Some? ==> (Key(x.season, x.teamID.value), x.ratings) in r
  {
    if rows == [] then []
    else
      var last := rows[|rows| - 1];
      assert rows == rows[..|rows| - 1] + [last];
      var front := KpKeyed(rows[..|rows| - 1]);
      if last.teamID.Some? then front + [(Key(last.season, last.teamID.value), last.ratings)] else front
  }

  /** `T1_seed - T2_seed`: missing when either seed is. */
  function SeedDiff(a: Option<int>, b: Option<int>): Option<int>
  {
    if a.Some? && b.Some? then Some(a.value - b.value) else None
  }

  // The columns each merge fills in.
  function PutT1Season(f: Features, v: Option<seq<real>>): Features { f.(t1Season := v) }
  function PutT2Season(f: Features, v: Option<seq<real>>): Features { f.(t2Season := v) }
  function PutT1WinRatio(f: Features, v: Option<real>): Features { f.(t1WinRatio := v) }
  function PutT2WinRatio(f: Features, v: Option<real>): Features { f.(t2WinRatio := v) }
  function PutT1Kp(f: Features, v: Option<Ratings>): Features { f.(t1Kp := v) }
  function PutT2Kp(f: Features, v: Option<Ratings>): Features { f.(t2Kp := v) }
  function PutT1Seed(f: Features, v: Option<int>): Features { f.(t1Seed := v) }
  function PutT2Seed(f: Features, v: Option<int>): Features { f.(t2Seed := v) }

  /** The tournament rows before any merge. */
  function Start(tourney: seq<Row>): (r: seq<Features>)
    ensures |r| == |tourney| && forall i :: 0 <= i < |tourney| ==> r[i].game == tourney[i]
  {
    seq(|tourney|, i requires 0 <= i < |tourney| => Features(tourney[i], None, None, None, None, None, None, None, None, None))
  }

  /** Lines 180-181: the season statistics of Team1, then of Team2. */
  function MergeSeason(fs: seq<Features>, s1: seq<(Key, seq<real>)>, s2: seq<(Key, seq<real>)>): seq<Features>
  {
    Attach(Attach(fs, s1, T1, PutT1Season), s2, T2, PutT2Season)
  }

  /** Lines 182-183: the late-season win ratios. */
  function MergeForm(fs: seq<Features>, w1: seq<(Key, real)>, w2: seq<(Key, real)>): seq<Features>
  {
    Attach(Attach(fs, w1, T1, PutT1WinRatio), w2, T2, PutT2WinRatio)
  }

  /** Lines 184-185: the KenPom ratings. */
  function MergeKp(fs: seq<Features>, k1: seq<(Key, Ratings)>, k2: seq<(Key, Ratings)>): seq<Features>
  {
    Attach(Attach(fs, k1, T1, PutT1Kp), k2, T2, PutT2Kp)
  }

  /** Lines 186-187: the seeds. */
  function MergeSeeds(fs: seq<Features>, d1: seq<(Key, int)>, d2: seq<(Key, int)>): seq<Features>
  {
    Attach(Attach(fs, d1, T1, PutT1Seed), d2, T2, PutT2Seed)
  }

  /** Line 188: `SeedDiff` on every row. */
  function WithSeedDiff(fs: seq<Features>): seq<Features>
  {
    seq(|fs|, i requires 0 <= i < |fs| => fs[i].(seedDiff := SeedDiff(fs[i].t1Seed, fs[i].t2Seed)))
  }

  /** The merge chain and the seed difference. */
  function Combine(
    tourney: seq<Row>,
    s1: seq<(Key, seq<real>)>, s2: seq<(Key, seq<real>)>,
    w1: seq<(Key, real)>, w2: seq<(Key, real)>,
    k1: seq<(Key, Ratings)>, k2: seq<(Key, Ratings)>,
    d1: seq<(Key, int)>, d2: seq<(Key, int)>): seq<Features>
  {
    WithSeedDiff(MergeSeeds(MergeKp(MergeForm(MergeSeason(Start(tourney), s1, s2), w1, w2), k1, k2), d1, d2))
  }

  /** The features of one game when every table has unique keys: each field is that table's value for the game's key. */
  function Expected(
    g: Row,
    s1: seq<(Key, seq<real>)>, s2: seq<(Key, seq<real>)>,
    w1: seq<(Key, real)>, w2: seq<(Key, real)>,
    k1: seq<(Key, Ratings)>, k2: seq<(Key, Ratings)>,
    d1: seq<(Key, int)>, d2: seq<(Key, int)>): Features
  {
    var a, b := Key(g.season, g.t1TeamID), Key(g.season, g.t2TeamID);
    Features(g, Lookup(s1, a), Lookup(s2, b), Lookup(w1, a), Lookup(w2, b), Lookup(k1, a), Lookup(k2, b),
      Lookup(d1, a), Lookup(d2, b), SeedDiff(Lookup(d1, a), Lookup(d2, b)))
  }

  /** A merge with unique right keys replaces each row by `put` of its lookup, and touches nothing else. */
  lemma AttachUnique<V>(fs: seq<Features>, t: seq<(Key, V)>, side: Side, put: (Features, Option<V>) -> Features)
    requires Unique(t)
    ensures Attach(fs, t, side, put) == seq(|fs|, i requires 0 <= i < |fs| => put(fs[i], Lookup(t, GameKey(fs[i], side))))
  {
    LeftJoinUnique(fs, t, (f: Features) => GameKey(f, side), put);
  }

  lemma MergeSeasonUnique(fs: seq<Features>, s1: seq<(Key, seq<real>)>, s2: seq<(Key, seq<real>)>)
    requires Unique(s1) && Unique(s2)
    ensures |MergeSeason(fs, s1, s2)| == |fs|
    ensures forall i :: 0 <= i < |fs| ==>
      MergeSeason(fs, s1, s2)[i] == fs[i].(t1Season := Lookup(s1, GameKey(fs[i], T1)), t2Season := Lookup(s2, GameKey(fs[i], T2)))
  {
    var a := Attach(fs, s1, T1, PutT1Season);
    AttachUnique(fs, s1, T1, PutT1Season);
    AttachUnique(a, s2, T2, PutT2Season);
    forall i | 0 <= i < |fs|
      ensures MergeSeason(fs, s1, s2)[i] == fs[i].(t1Season := Lookup(s1, GameKey(fs[i], T1)), t2Season := Lookup(s2, GameKey(fs[i], T2)))
    {
      assert a[i] == PutT1Season(fs[i], Lookup(s1, GameKey(fs[i], T1)));
      assert GameKey(a[i], T2) == GameKey(fs[i], T2);
      assert MergeSeason(fs, s1, s2) == Attach(a, s2, T2, PutT2Season);
      assert Attach(a, s2, T2, PutT2Season)[i] == PutT2Season(a[i], Lookup(s2, GameKey(a[i], T2)));
    }
  }

  lemma MergeFormUnique(fs: seq<Features>, w1: seq<(Key, real)>, w2: seq<(Key, real)>)
    requires Unique(w1) && Unique(w2)
    ensures |MergeForm(fs, w1, w2)| == |fs|
    ensures forall i :: 0 <= i < |fs| ==>
      MergeForm(fs, w1, w2)[i] == fs[i].(t1WinRatio := Lookup(w1, GameKey(fs[i], T1)), t2WinRatio := Lookup(w2, GameKey(fs[i], T2)))
  {
    var a := Attach(fs, w1, T1, PutT1WinRatio);
    AttachUnique(fs, w1, T1, PutT1WinRatio);
    AttachUnique(a, w2, T2, PutT2WinRatio);
    forall i | 0 <= i < |fs|
      ensures MergeForm(fs, w1, w2)[i] == fs[i].(t1WinRatio := Lookup(w1, GameKey(fs[i], T1)), t2WinRatio := Lookup(w2, GameKey(fs[i], T2)))
    {
      assert a[i] == PutT1WinRatio(fs[i], Lookup(w1, GameKey(fs[i], T1)));
      assert GameKey(a[i], T2) == GameKey(fs[i], T2);
      assert MergeForm(fs, w1, w2) == Attach(a, w2, T2, PutT2WinRatio);
      assert Attach(a, w2, T2, PutT2WinRatio)[i] == PutT2WinRatio(a[i], Lookup(w2, GameKey(a[i], T2)));
    }
  }

  lemma MergeKpUnique(fs: seq<Features>, k1: seq<(Key, Ratings)>, k2: seq<(Key, Ratings)>)
    requires Unique(k1) && Unique(k2)
    ensures |MergeKp(fs, k1, k2)| == |fs|
    ensures forall i :: 0 <= i < |fs| ==>
      MergeKp(fs, k1, k2)[i] == fs[i].(t1Kp := Lookup(k1, GameKey(fs[i], T1)), t2Kp := Lookup(k2, GameKey(fs[i], T2)))
  {
    var a := Attach(fs, k1, T1, PutT1Kp);
    AttachUnique(fs, k1, T1, PutT1Kp);
    AttachUnique(a, k2, T2, PutT2Kp);
    forall i | 0 <= i < |fs|
      ensures MergeKp(fs, k1, k2)[i] == fs[i].(t1Kp := Lookup(k1, GameKey(fs[i], T1)), t2Kp := Lookup(k2, GameKey(fs[i], T2)))
    {
      assert a[i] == PutT1Kp(fs[i], Lookup(k1, GameKey(fs[i], T1)));
      assert GameKey(a[i], T2) == GameKey(fs[i], T2);
      assert MergeKp(fs, k1, k2) == Attach(a, k2, T2, PutT2Kp);
      assert Attach(a, k2, T2, PutT2Kp)[i] == PutT2Kp(a[i], Lookup(k2, GameKey(a[i], T2)));
    }
  }

  lemma MergeSeedsUnique(fs: seq<Features>, d1: seq<(Key, int)>, d2: seq<(Key, int)>)
    requires Unique(d1) && Unique(d2)
    ensures |MergeSeeds(fs, d1, d2)| == |fs|
    ensures forall i :: 0 <= i < |fs| ==>
      MergeSeeds(fs, d1, d2)[i] == fs[i].(t1Seed := Lookup(d1, GameKey(fs[i], T1)), t2Seed := Lookup(d2, GameKey(fs[i], T2)))
  {
    var a := Attach(fs, d1, T1, PutT1Seed);
    AttachUnique(fs, d1, T1, PutT1Seed);
    AttachUnique(a, d2, T2, PutT2Seed);
    forall i | 0 <= i < |fs|
      ensures MergeSeeds(fs, d1, d2)[i] == fs[i].(t1Seed := Lookup(d1, GameKey(fs[i], T1)), t2Seed := Lookup(d2, GameKey(fs[i], T2)))
    {
      assert a[i] == PutT1Seed(fs[i], Lookup(d1, GameKey(fs[i], T1)));
      assert GameKey(a[i], T2) == GameKey(fs[i], T2);
      assert MergeSeeds(fs, d1, d2) == Attach(a, d2, T2, PutT2Seed);
      assert Attach(a, d2, T2, PutT2Seed)[i] == PutT2Seed(a[i], Lookup(d2, GameKey(a[i], T2)));
    }
  }

  /**
   * With unique keys in every table, the merge chain keeps the tournament
   * rows one for one and in order, and row `i` carries, for each table, the
   * value stored under its game's key, and the seed difference of the two.
   */
  lemma CombineUnique(
    tourney: seq<Row>,
    s1: seq<(Key, seq<real>)>, s2: seq<(Key, seq<real>)>,
    w1: seq<(Key, real)>, w2: seq<(Key, real)>,
    k1: seq<(Key, Ratings)>, k2: seq<(Key, Ratings)>,
    d1: seq<(Key, int)>, d2: seq<(Key, int)>)
    requires Unique(s1) && Unique(s2) && Unique(w1) && Unique(w2) && Unique(k1) && Unique(k2) && Unique(d1) && Unique(d2)
    ensures |Combine(tourney, s1, s2, w1, w2, k1, k2, d1, d2)| == |tourney|
    ensures forall i :: 0 <= i < |tourney| ==>
      Combine(tourney, s1, s2, w1, w2, k1, k2, d1, d2)[i] == Expected(tourney[i], s1, s2, w1, w2, k1, k2, d1, d2)
  {
    var a := MergeSeason(Start(tourney), s1, s2);
    var b := MergeForm(a, w1, w2);
    var c := MergeKp(b, k1, k2);
    var m := MergeSeeds(c, d1, d2);
    MergeSeasonUnique(Start(tourney), s1, s2);
    MergeFormUnique(a, w1, w2);
    MergeKpUnique(b, k1, k2);
    MergeSeedsUnique(c, d1, d2);
    forall i | 0 <= i < |tourney|
      ensures Combine(tourney, s1, s2, w1, w2, k1, k2, d1, d2)[i] == Expected(tourney[i], s1, s2, w1, w2, k1, k2, d1, d2)
    {
      assert a[i].game == tourney[i] && b[i].game == tourney[i] && c[i].game == tourney[i] && m[i].game == tourney[i];
    }
  }

  /** The merge chain fed with the tables the feature functions build from the regular season, the seeds and KenPom. */
  function Assemble(regular: seq<Row>, tourney: seq<Row>, seeds: (Table<int>, Table<int>), kp: (KpTable, KpTable)): seq<Features>
  {
    var stats := CalcSeasonStatistics(regular);
    var ratios := WinRatio14Days(regular);
    Combine(tourney, stats.0.rows, stats.1.rows, ratios.0.rows, ratios.1.rows,
      KpKeyed(kp.0.rows), KpKeyed(kp.1.rows), seeds.0.rows, seeds.1.rows)
  }

  /**
   * Everything `main` computes between reading its inputs and writing its
   * output, in its order: both `prepare_data` calls, then `calc_seed_diff`;
   * the first error raised ends the run. `names` is the name list
   * `clean_kp_data` builds.
   */
  function BuildFeaturesSpec(regularGames: seq<Game>, tourneyGames: seq<Game>,
                             seedSeason: seq<int>, seedCode: seq<string>, seedTeam: seq<int>,
                             raw: seq<KpRaw>, names: seq<(string, int)>): Result<seq<Features>>
    requires |seedSeason| == |seedCode| == |seedTeam|
  {
    match PrepareDataSpec(regularGames)
    case Err(e) => Err(e)
    case Ok(regular) =>
      match PrepareDataSpec(tourneyGames)
      case Err(e) => Err(e)
      case Ok(tourney) =>
        match SeedValues(seedCode)
        case Err(e) => Err(e)
        case Ok(vals) =>
          SeedValuesOk(seedCode);
          Ok(Assemble(regular, tourney, SeedTables(seedSeason, seedTeam, vals), KpTables(KpJoin(raw, names))))
  }

  /** The features of tournament row `g` when every table has unique keys. */
  function ExpectedFeatures(regular: seq<Row>, g: Row, seeds: (Table<int>, Table<int>), kp: (KpTable, KpTable)): Features
  {
    var stats := CalcSeasonStatistics(regular);
    var ratios := WinRatio14Days(regular);
    Expected(g, stats.0.rows, stats.1.rows, ratios.0.rows, ratios.1.rows,
      KpKeyed(kp.0.rows), KpKeyed(kp.1.rows), seeds.0.rows, seeds.1.rows)
  }

  /** With at most one KenPom row and one seed per (Season, TeamID), every tournament row comes out once, in order. */
  lemma AssembleRows(regular: seq<Row>, tourney: seq<Row>, seeds: (Table<int>, Table<int>), kp: (KpTable, KpTable))
    requires Unique(KpKeyed(kp.0.rows)) && Unique(KpKeyed(kp.1.rows)) && Unique(seeds.0.rows) && Unique(seeds.1.rows)
    ensures |Assemble(regular, tourney, seeds, kp)| == |tourney|
    ensures forall i :: 0 <= i < |tourney| ==> Assemble(regular, tourney, seeds, kp)[i] == ExpectedFeatures(regular, tourney[i], seeds, kp)
  {
    var stats := CalcSeasonStatistics(regular);
    var ratios := WinRatio14Days(regular);
    SeasonStatisticsMeans(regular, Key(0, 0));
    WinRatioSpec(regular, T1, Key(0, 0));
    WinRatioSpec(regular, T2, Key(0, 0));
    CombineUnique(tourney, stats.0.rows, stats.1.rows, ratios.0.rows, ratios.1.rows,
      KpKeyed(kp.0.rows), KpKeyed(kp.1.rows), seeds.0.rows, seeds.1.rows);
  }

  /** `Lookup` seen through positions: nothing exactly when no row has the key, otherwise the value of some row that has it. */
  lemma LookupFound<V>(t: seq<(Key, V)>, k: Key)
    ensures Lookup(t, k).None? <==> forall p :: p in t ==> p.0 != k
    ensures Lookup(t, k).None? <==> !exists j :: 0 <= j < |t| && t[j].0 == k
    ensures Lookup(t, k).Some? ==> exists j :: 0 <= j < |t| && t[j] == (k, Lookup(t, k).value)
  {
    LookupSpec(t, k);
  }

  /** A team's season averages, looked up in either table: present exactly when it has a row as Team1, and the column means of those rows. */
  lemma SeasonLookup(regular: seq<Row>, k: Key, v: Option<seq<real>>)
    requires v == Lookup(CalcSeasonStatistics(regular).0.rows, k) || v == Lookup(CalcSeasonStatistics(regular).1.rows, k)
    ensures v.Some? <==> exists r :: r in regular && Key(r.season, r.t1TeamID) == k
    ensures v.Some? ==>
      (|v.value| == |BoxscoreCols| && TeamGames(regular, k) > 0 &&
       forall j :: 0 <= j < |BoxscoreCols| ==> v.value[j] == ColumnTotal(regular, k, BoxscoreCols[j]) as real / TeamGames(regular, k) as real)
  {
    var t := CalcSeasonStatistics(regular).0.rows;
    SeasonStatisticsMeans(regular, k);
    LookupFound(t, k);
    if v.Some? {
      var i :| 0 <= i < |t| && t[i] == (k, v.value);
      assert 0 < |BoxscoreCols| && t[i].0 == k && BoxscoreCols[0] == T1Stat(FGM);
      assert |t[i].1| == |BoxscoreCols| && TeamGames(regular, k) > 0;
      forall j | 0 <= j < |BoxscoreCols|
        ensures v.value[j] == ColumnTotal(regular, k, BoxscoreCols[j]) as real / TeamGames(regular, k) as real
      {
        assert t[i].1[j] == ColumnTotal(regular, k, BoxscoreCols[j]) as real / TeamGames(regular, k) as real;
      }
    }
  }

  /** A team's late-season win ratio on one side: present exactly when it played there after day 118, and wins over games. */
  lemma RatioLookup(regular: seq<Row>, side: Side, k: Key)
    ensures Lookup(WinRatio(regular, side).rows, k).Some? <==> exists r :: r in regular && Counts(r, side, k)
    ensures Lookup(WinRatio(regular, side).rows, k).Some? ==>
      (Played(regular, side, k) > 0 &&
       Lookup(WinRatio(regular, side).rows, k).value == Wins(regular, side, k) as real / Played(regular, side, k) as real)
  {
    WinRatioSpec(regular, side, k);
    LookupFound(WinRatio(regular, side).rows, k);
  }

  /**
   * Season averages on a tournament row: each team's are there exactly when
   * it has a regular-season row as Team1, and are the column totals over
   * those rows divided by their number.
   */
  lemma AssembleSeason(regular: seq<Row>, tourney: seq<Row>, seeds: (Table<int>, Table<int>), kp: (KpTable, KpTable), i: nat)
    requires Unique(KpKeyed(kp.0.rows)) && Unique(KpKeyed(kp.1.rows)) && Unique(seeds.0.rows) && Unique(seeds.1.rows)
    requires i < |tourney|
    ensures |Assemble(regular, tourney, seeds, kp)| == |tourney| && Assemble(regular, tourney, seeds, kp)[i].game == tourney[i]
    ensures var f, a := Assemble(regular, tourney, seeds, kp)[i], Key(tourney[i].season, tourney[i].t1TeamID);
      (f.t1Season.Some? <==> exists r :: r in regular && Key(r.season, r.t1TeamID) == a) &&
      (f.t1Season.Some? ==>
        (|f.t1Season.value| == |BoxscoreCols| && TeamGames(regular, a) > 0 &&
         forall j :: 0 <= j < |BoxscoreCols| ==>
           f.t1Season.value[j] == ColumnTotal(regular, a, BoxscoreCols[j]) as real / TeamGames(regular, a) as real))
    ensures var f, b := Assemble(regular, tourney, seeds, kp)[i], Key(tourney[i].season, tourney[i].t2TeamID);
      (f.t2Season.Some? <==> exists r :: r in regular && Key(r.season, r.t1TeamID) == b) &&
      (f.t2Season.Some? ==>
        (|f.t2Season.value| == |BoxscoreCols| && TeamGames(regular, b) > 0 &&
         forall j :: 0 <= j < |BoxscoreCols| ==>
           f.t2Season.value[j] == ColumnTotal(regular, b, BoxscoreCols[j]) as real / TeamGames(regular, b) as real))
  {
    AssembleRows(regular, tourney, seeds, kp);
    var f := Assemble(regular, tourney, seeds, kp)[i];
    SeasonLookup(regular, Key(tourney[i].season, tourney[i].t1TeamID), f.t1Season);
    SeasonLookup(regular, Key(tourney[i].season, tourney[i].t2TeamID), f.t2Season);
  }

  /** Win ratios on a tournament row: each team's is there exactly when it played after day 118 on that side, and is wins over games. */
  lemma AssembleForm(regular: seq<Row>, tourney: seq<Row>, seeds: (Table<int>, Table<int>), kp: (KpTable, KpTable), i: nat)
    requires Unique(KpKeyed(kp.0.rows)) && Unique(KpKeyed(kp.1.rows)) && Unique(seeds.0.rows) && Unique(seeds.1.rows)
    requires i < |tourney|
    ensures |Assemble(regular, tourney, seeds, kp)| == |tourney|
    ensures var f, a := Assemble(regular, tourney, seeds, kp)[i], Key(tourney[i].season, tourney[i].t1TeamID);
      (f.t1WinRatio.Some? <==> exists r :: r in regular && Counts(r, T1, a)) &&
      (f.t1WinRatio.Some? ==>
        (Played(regular, T1, a) > 0 && f.t1WinRatio.value == Wins(regular, T1, a) as real / Played(regular, T1, a) as real))
    ensures var f, b := Assemble(regular, tourney, seeds, kp)[i], Key(tourney[i].season, tourney[i].t2TeamID);
      (f.t2WinRatio.Some? <==> exists r :: r in regular && Counts(r, T2, b)) &&
      (f.t2WinRatio.Some? ==>
        (Played(regular, T2, b) > 0 && f.t2WinRatio.value == Wins(regular, T2, b) as real / Played(regular, T2, b) as real))
  {
    AssembleRows(regular, tourney, seeds, kp);
    RatioLookup(regular, T1, Key(tourney[i].season, tourney[i].t1TeamID));
    RatioLookup(regular, T2, Key(tourney[i].season, tourney[i].t2TeamID));
  }

  /** What row `i` of the assembled table holds in its ratings and seed columns. */
  lemma AssembleAt(regular: seq<Row>, tourney: seq<Row>, seeds: (Table<int>, Table<int>), kp: (KpTable, KpTable), i: nat)
    requires Unique(KpKeyed(kp.0.rows)) && Unique(KpKeyed(kp.1.rows)) && Unique(seeds.0.rows) && Unique(seeds.1.rows)
    requires i < |tourney|
    ensures |Assemble(regular, tourney, seeds, kp)| == |tourney|
    ensures var f, a, b := Assemble(regular, tourney, seeds, kp)[i], Key(tourney[i].season, tourney[i].t1TeamID), Key(tourney[i].season, tourney[i].t2TeamID);
      f.t1Kp == Lookup(KpKeyed(kp.0.rows), a) && f.t2Kp == Lookup(KpKeyed(kp.1.rows), b) &&
      f.t1Seed == Lookup(seeds.0.rows, a) && f.t2Seed == Lookup(seeds.1.rows, b) && f.seedDiff == SeedDiff(f.t1Seed, f.t2Seed)
  {
    AssembleRows(regular, tourney, seeds, kp);
  }

  /** A ratings column filled by a lookup: empty exactly when no KenPom row with a TeamID has the key, otherwise such a row's ratings. */
  lemma RatingsCell(v: Option<Ratings>, rows: seq<KpRow>, k: Key)
    requires v == Lookup(KpKeyed(rows), k)
    ensures v.None? <==> forall x :: x in rows && x.teamID.Some? ==> Key(x.season, x.teamID.value) != k
    ensures v.Some? ==> KpRow(k.season, Some(k.team), v.value) in rows
  {
    LookupFound(KpKeyed(rows), k);
    if v.Some? {
      var x := KpRow(k.season, Some(k.team), v.value);
      assert x in rows && x.teamID.Some? && Key(x.season, x.teamID.value) == k;
    } else {
      forall x | x in rows && x.teamID.Some? ensures Key(x.season, x.teamID.value) != k {
        assert (Key(x.season, x.teamID.value), x.ratings) in KpKeyed(rows);
      }
    }
  }

  /** A seed column filled by a lookup: empty exactly when no row has the key, otherwise a listed seed. */
  lemma SeedCell(v: Option<int>, rows: seq<(Key, int)>, k: Key)
    requires v == Lookup(rows, k)
    ensures v.None? <==> forall p :: p in rows ==> p.0 != k
    ensures v.Some? ==> (k, v.value) in rows
  {
    LookupFound(rows, k);
  }

  /** KenPom ratings on a tournament row: each is there exactly when the ratings table lists the team's key, with the listed value. */
  lemma AssembleRatings(regular: seq<Row>, tourney: seq<Row>, seeds: (Table<int>, Table<int>), kp: (KpTable, KpTable), i: nat)
    requires Unique(KpKeyed(kp.0.rows)) && Unique(KpKeyed(kp.1.rows)) && Unique(seeds.0.rows) && Unique(seeds.1.rows)
    requires i < |tourney|
    ensures |Assemble(regular, tourney, seeds, kp)| == |tourney|
    ensures var f, a, b := Assemble(regular, tourney, seeds, kp)[i], Key(tourney[i].season, tourney[i].t1TeamID), Key(tourney[i].season, tourney[i].t2TeamID);
      (f.t1Kp.None? <==> forall x :: x in kp.0.rows && x.teamID.Some? ==> Key(x.season, x.teamID.value) != a) &&
      (f.t1Kp.Some? ==> KpRow(a.season, Some(a.team), f.t1Kp.value) in kp.0.rows) &&
      (f.t2Kp.None? <==> forall x :: x in kp.1.rows && x.teamID.Some? ==> Key(x.season, x.teamID.value) != b) &&
      (f.t2Kp.Some? ==> KpRow(b.season, Some(b.team), f.t2Kp.value) in kp.1.rows)
  {
    AssembleAt(regular, tourney, seeds, kp, i);
    var f, a, b := Assemble(regular, tourney, seeds, kp)[i], Key(tourney[i].season, tourney[i].t1TeamID), Key(tourney[i].season, tourney[i].t2TeamID);
    RatingsCell(f.t1Kp, kp.0.rows, a);
    RatingsCell(f.t2Kp, kp.1.rows, b);
  }

  /**
   * Seeds on a tournament row: each is there exactly when the seed table
   * lists the team's key, with the listed value, and the seed difference is
   * there exactly when both seeds are, as their difference.
   */
  lemma AssembleSeeds(regular: seq<Row>, tourney: seq<Row>, seeds: (Table<int>, Table<int>), kp: (KpTable, KpTable), i: nat)
    requires Unique(KpKeyed(kp.0.rows)) && Unique(KpKeyed(kp.1.rows)) && Unique(seeds.0.rows) && Unique(seeds.1.rows)
    requires i < |tourney|
    ensures |Assemble(regular, tourney, seeds, kp)| == |tourney|
    ensures var f, a, b := Assemble(regular, tourney, seeds, kp)[i], Key(tourney[i].season, tourney[i].t1TeamID), Key(tourney[i].season, tourney[i].t2TeamID);
      (f.t1Seed.None? <==> forall p :: p in seeds.0.rows ==> p.0 != a) &&
      (f.t1Seed.Some? ==> (a, f.t1Seed.value) in seeds.0.rows) &&
      (f.t2Seed.None? <==> forall p :: p in seeds.1.rows ==> p.0 != b) &&
      (f.t2Seed.Some? ==> (b, f.t2Seed.value) in seeds.1.rows) &&
      (f.seedDiff.Some? <==> f.t1Seed.Some? && f.t2Seed.Some?) &&
      (f.seedDiff.Some? ==> f.seedDiff.value == f.t1Seed.value - f.t2Seed.value)
  {
    AssembleAt(regular, tourney, seeds, kp, i);
    var f, a, b := Assemble(regular, tourney, seeds, kp)[i], Key(tourney[i].season, tourney[i].t1TeamID), Key(tourney[i].season, tourney[i].t2TeamID);
    SeedCell(f.t1Seed, seeds.0.rows, a);
    SeedCell(f.t2Seed, seeds.1.rows, b);
  }

  /**
   * `main` between loading and saving: `clean_kp_data` first (the spellings
   * frame gains `TeamName`), then `prepare_data` on the regular season and on
   * the tournament, `calc_seed_diff` (the seeds frame gains `seed`), and the
   * merges. A step that raises ends the run with its error, and the frames
   * keep what the steps before it did to them.
   */
  method BuildFeatures(regularGames: seq<Game>, tourneyGames: seq<Game>, seeds: SeedsFrame,
                       raw: seq<KpRaw>, spellings: SpellingsFrame, teams: seq<(string, int)>) returns (r: Result<seq<Features>>)
    requires seeds.Valid() && spellings.Valid()
    modifies seeds, spellings
    ensures seeds.Valid() && spellings.Valid()
    ensures spellings.teamNameSpelling == old(spellings.teamNameSpelling) && spellings.teamID == old(spellings.teamID)
    ensures spellings.teamName == Some(spellings.teamNameSpelling)
    ensures seeds.season == old(seeds.season) && seeds.seedCode == old(seeds.seedCode) && seeds.teamID == old(seeds.teamID)
    ensures r == BuildFeaturesSpec(regularGames, tourneyGames, seeds.season, seeds.seedCode, seeds.teamID,
                                   raw, AllTeamNames(teams, spellings.Named()))
    ensures seeds.seed ==
      if PrepareDataSpec(regularGames).Ok? && PrepareDataSpec(tourneyGames).Ok? && SeedValues(seeds.seedCode).Ok?
      then Some(SeedValues(seeds.seedCode).value) else old(seeds.seed)
  {
    var kp1, kp2 := CleanKpData(raw, spellings, teams);
    var regular := PrepareData(regularGames);
    if regular.Err? {
      return Err(regular.error);
    }
    var tourney := PrepareData(tourneyGames);
    if tourney.Err? {
      return Err(tourney.error);
    }
    var stats := CalcSeasonStatistics(regular.value);
    var ratios := WinRatio14Days(regular.value);
    var seedTables := seeds.CalcSeedDiff();
    if seedTables.Err? {
      return Err(seedTables.error);
    }
    var t := seedTables.value;
    r := Ok(Combine(tourney.value, stats.0.rows, stats.1.rows, ratios.0.rows, ratios.1.rows,
      KpKeyed(kp1.rows), KpKeyed(kp2.rows), t.0.rows, t.1.rows));
  }
}
