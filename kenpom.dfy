/**
 * The rest of `clean_kp_data`: the Kaggle team names and their alternative
 * spellings form one de-duplicated (name, TeamID) list, each cleaned KenPom
 * name is left-joined to it, and the ratings are published under Team1 and
 * Team2 column labels.
 */
module KenPom {
  import opened Common
  import opened Text
  import opened Joins
  import opened TeamNames

  /** The KenPom rating columns kept in the features. */
  datatype Ratings = Ratings(
    rk: int, adjEM: real, adjO: real, adjD: real, adjT: real, luck: real,
    sosAdjEM: real, sosOppO: real, sosOppD: real, ncsosAdjEM: real)

  /** A row of the KenPom file: season, team name as KenPom writes it, ratings. */
  datatype KpRaw = KpRaw(season: int, team: string, ratings: Ratings)

  /** A row after the name join: the TeamID found for the name, or none. */
  datatype KpRow = KpRow(season: int, teamID: Option<int>, ratings: Ratings)

  datatype KpTable = KpTable(header: seq<string>, rows: seq<KpRow>)

  /** A Kaggle name as matched: lower-cased, hyphens turned into spaces. */
  function MatchName(n: string): (r: string)
    ensures |r| == |n|
    ensures forall i :: 0 <= i < |n| ==> r[i] == if n[i] == '-' then ' ' else LowerChar(n[i])
    ensures forall c :: c in r ==> !IsUpper(c) && c != '-'
  {
    LowerHasNoUpper(n);
    ReplaceCharRemoves(Lower(n), '-', " ", false);
    ReplaceCharPointwise(Lower(n), '-', ' ');
    ReplaceAll(Lower(n), "-", " ")
  }

  /** `drop_duplicates()`: the first occurrence of each element, in order. */
  function Dedup<T(==)>(xs: seq<T>): seq<T>
  {
    if xs == [] then []
    else
      var front := xs[..|xs| - 1];
      if xs[|xs| - 1] in front then Dedup(front) else Dedup(front) + [xs[|xs| - 1]]
  }

  predicate NoDuplicates<T(==)>(xs: seq<T>)
  {
    forall i, j :: 0 <= i < j < |xs| ==> xs[i] != xs[j]
  }

  /** Each element of `d` occurs in `xs` before every occurrence of the elements after it in `d`. */
  predicate InFirstOccurrenceOrder<T(==)>(xs: seq<T>, d: seq<T>)
  {
    forall i, j, q :: 0 <= i < j < |d| && 0 <= q < |xs| && xs[q] == d[j] ==> d[i] in xs[..q]
  }

  lemma {:induction false} DedupSpec<T>(xs: seq<T>)
    ensures forall x :: x in Dedup(xs) <==> x in xs
    ensures NoDuplicates(Dedup(xs))
    ensures InFirstOccurrenceOrder(xs, Dedup(xs))
    decreases |xs|, 0
  {
    if xs != [] {
      var front, last := xs[..|xs| - 1], xs[|xs| - 1];
      DedupSpec(front);
      assert forall x :: x in xs <==> x in front || x == last;
      var d, d' := Dedup(xs), Dedup(front);
      forall i, j, q | 0 <= i < j < |d| && 0 <= q < |xs| && xs[q] == d[j] ensures d[i] in xs[..q] {
        if q < |front| {
          assert xs[q] == front[q] && xs[..q] == front[..q];
          if last !in front {
            assert d == d' + [last];
          }
          assert j < |d'| && d[i] == d'[i] && d[j] == d'[j];
          assert front[q] == d'[j];
          assert d'[i] in front[..q];
        } else if last in front {
          var p :| 0 <= p < |front| && front[p] == last;
          assert d == d' && d[i] in front[..p];
          var k :| 0 <= k < p && front[..p][k] == d[i];
          assert xs[..q][k] == d[i];
          assert d[i] in xs[..q];
        } else {
          assert d == d' + [last] && xs[..q] == front;
          var e := d'[i];
          assert e in d' && e == d[i];
          DedupMember(front, e);
        }
      }
    }
  }

  /** One element of `Dedup(xs)`, as an element of `xs`. */
  lemma DedupMember<T>(xs: seq<T>, e: T)
    requires e in Dedup(xs)
    ensures e in xs
    decreases |xs|, 1
  {
    DedupSpec(xs);
  }

  /** Row `i` of `teams` then of `spellings`, as (name, TeamID) pairs. */
  function Pairs(names: seq<string>, ids: seq<int>): (r: seq<(string, int)>)
    requires |names| == |ids|
    ensures |r| == |names|
  {
    seq(|names|, i requires 0 <= i < |names| => (names[i], ids[i]))
  }

  /** The Kaggle names and the spellings, appended, normalised and de-duplicated. */
  function AllTeamNames(teams: seq<(string, int)>, spellings: seq<(string, int)>): seq<(string, int)>
  {
    var all := teams + spellings;
    Dedup(seq(|all|, i requires 0 <= i < |all| => (MatchName(all[i].0), all[i].1)))
  }

  /** A pair is listed exactly when some team or spelling row produces it, and no pair twice. */
  lemma AllTeamNamesSpec(teams: seq<(string, int)>, spellings: seq<(string, int)>, name: string, id: int)
    ensures (name, id) in AllTeamNames(teams, spellings) <==>
      exists r :: r in teams + spellings && MatchName(r.0) == name && r.1 == id
    ensures NoDuplicates(AllTeamNames(teams, spellings))
  {
    var all := teams + spellings;
    var m := seq(|all|, i requires 0 <= i < |all| => (MatchName(all[i].0), all[i].1));
    DedupSpec(m);
    if exists r :: r in all && MatchName(r.0) == name && r.1 == id {
      var r :| r in all && MatchName(r.0) == name && r.1 == id;
      var i :| 0 <= i < |all| && all[i] == r;
      assert m[i] == (name, id);
    }
    if (name, id) in m {
      var i :| 0 <= i < |m| && m[i] == (name, id);
      assert all[i] in all;
    }
  }

  /** `pd.merge(kenpom_df, all_team_names, on='TeamName', how='left')`, keeping season, ID and ratings. */
  function KpJoin(raw: seq<KpRaw>, names: seq<(string, int)>): seq<KpRow>
  {
    LeftJoin(raw, names, (r: KpRaw) => NormalizeName(r.team), (r: KpRaw, id: Option<int>) => KpRow(r.season, id, r.ratings))
  }

  /**
   * When no cleaned name maps to two IDs, every KenPom row yields exactly one
   * row, in order, carrying the ID listed for its cleaned name, or none.
   */
  lemma KpJoinUnique(raw: seq<KpRaw>, names: seq<(string, int)>)
    requires Unique(names)
    ensures |KpJoin(raw, names)| == |raw|
    ensures forall i :: 0 <= i < |raw| ==>
      KpJoin(raw, names)[i] == KpRow(raw[i].season, Lookup(names, NormalizeName(raw[i].team)), raw[i].ratings)
    ensures forall i :: 0 <= i < |raw| && KpJoin(raw, names)[i].teamID.Some? ==>
      (NormalizeName(raw[i].team), KpJoin(raw, names)[i].teamID.value) in names
    ensures forall i :: 0 <= i < |raw| && KpJoin(raw, names)[i].teamID.None? ==>
      forall j :: 0 <= j < |names| ==> names[j].0 != NormalizeName(raw[i].team)
  {
    LeftJoinUnique(raw, names, (r: KpRaw) => NormalizeName(r.team), (r: KpRaw, id: Option<int>) => KpRow(r.season, id, r.ratings));
    forall i | 0 <= i < |raw| {
      LookupSpec(names, NormalizeName(raw[i].team));
    }
  }

  /**
   * One KenPom row against a name list without repeated pairs: a cleaned name
   * with no entry gives one row with no TeamID; a name listed with k IDs gives
   * k distinct rows, one per listed ID.
   */
  lemma KpJoinIds(x: KpRaw, names: seq<(string, int)>)
    requires NoDuplicates(names)
    ensures var ms := Matches(names, NormalizeName(x.team));
      |KpJoin([x], names)| == if ms == [] then 1 else |ms|
    ensures NoDuplicates(KpJoin([x], names))
    ensures KpRow(x.season, None, x.ratings) in KpJoin([x], names) <==>
      forall j :: 0 <= j < |names| ==> names[j].0 != NormalizeName(x.team)
    ensures forall id :: KpRow(x.season, Some(id), x.ratings) in KpJoin([x], names) <==> (NormalizeName(x.team), id) in names
  {
    var n := NormalizeName(x.team);
    var ms := Matches(names, n);
    var out := KpJoin([x], names);
    KpJoinOne(x, names);
    MatchesSpec(names, n);
    if ms == [] {
      assert out == [KpRow(x.season, None, x.ratings)];
    } else {
      assert ms[0] in ms && (n, ms[0]) in names;
      assert forall i :: 0 <= i < |out| ==> out[i] == KpRow(x.season, Some(ms[i]), x.ratings);
    }
  }

  /**
   * Line 124 on one KenPom row: with no team or spelling row giving its cleaned
   * name it stays, once, with no TeamID; otherwise it is repeated once per
   * distinct TeamID those rows carry under that name.
   */
  lemma KpJoinMultiplies(x: KpRaw, teams: seq<(string, int)>, spellings: seq<(string, int)>)
    ensures NoDuplicates(KpJoin([x], AllTeamNames(teams, spellings)))
    ensures KpRow(x.season, None, x.ratings) in KpJoin([x], AllTeamNames(teams, spellings)) <==>
      !exists r :: r in teams + spellings && MatchName(r.0) == NormalizeName(x.team)
    ensures forall id :: KpRow(x.season, Some(id), x.ratings) in KpJoin([x], AllTeamNames(teams, spellings)) <==>
      exists r :: r in teams + spellings && MatchName(r.0) == NormalizeName(x.team) && r.1 == id
  {
    var names, n := AllTeamNames(teams, spellings), NormalizeName(x.team);
    AllTeamNamesSpec(teams, spellings, n, 0);
    KpJoinIds(x, names);
    forall id ensures (n, id) in names <==> exists r :: r in teams + spellings && MatchName(r.0) == n && r.1 == id {
      AllTeamNamesSpec(teams, spellings, n, id);
    }
    if exists r :: r in teams + spellings && MatchName(r.0) == n {
      var r :| r in teams + spellings && MatchName(r.0) == n;
      assert (n, r.1) in names;
    }
  }

  /** One KenPom row joined: a row per ID listed for its cleaned name, in order, or one row with no ID. */
  lemma KpJoinOne(x: KpRaw, names: seq<(string, int)>)
    ensures var ms := Matches(names, NormalizeName(x.team));
      KpJoin([x], names) == if ms == [] then [KpRow(x.season, None, x.ratings)]
        else seq(|ms|, i requires 0 <= i < |ms| => KpRow(x.season, Some(ms[i]), x.ratings))
  {
    LeftJoinOne(x, names, (r: KpRaw) => NormalizeName(r.team), (r: KpRaw, id: Option<int>) => KpRow(r.season, id, r.ratings));
  }

  /** A KenPom row whose cleaned name is not listed is kept, with no TeamID. */
  lemma KpJoinKeepsUnmatched(raw: seq<KpRaw>, names: seq<(string, int)>, i: nat)
    requires i < |raw| && forall j :: 0 <= j < |names| ==> names[j].0 != NormalizeName(raw[i].team)
    ensures KpRow(raw[i].season, None, raw[i].ratings) in KpJoin(raw, names)
  {
    LeftJoinKeepsUnmatched(raw, names, (r: KpRaw) => NormalizeName(r.team), (r: KpRaw, id: Option<int>) => KpRow(r.season, id, r.ratings), i);
  }

  /** The columns selected from the joined KenPom frame, in order. */
  const KpColumns: seq<string> := [
    "Season", "TeamID", "Rk", "AdjEM", "AdjO", "AdjD", "AdjT", "Luck",
    "Strength of Schedule_AdjEM", "Strength of Schedule_OppO", "Strength of Schedule_OppD", "NCSOS_AdjEM"]

  /** Every column prefixed, then column 0 renamed back to `Season`. */
  function KpHeader(prefix: string): seq<string>
  {
    seq(|KpColumns|, i requires 0 <= i < |KpColumns| => prefix + KpColumns[i])[0 := "Season"]
  }

  /** The join columns come out as `Season` and `T1_TeamID` (or `T2_TeamID`); every rating column carries the prefix. */
  lemma KpHeaders(prefix: string)
    ensures |KpHeader(prefix)| == |KpColumns|
    ensures KpHeader(prefix)[0] == "Season" && KpHeader(prefix)[1] == prefix + "TeamID"
    ensures forall i :: 1 <= i < |KpColumns| ==> KpHeader(prefix)[i] == prefix + KpColumns[i]
  {
  }

  function KpTables(rows: seq<KpRow>): (KpTable, KpTable)
  {
    (KpTable(KpHeader("T1_"), rows), KpTable(KpHeader("T2_"), rows))
  }

  /** The spellings frame the caller passes in; `clean_kp_data` adds its `TeamName` column in place. */
  class SpellingsFrame {
    var teamNameSpelling: seq<string>
    var teamID: seq<int>
    /** The `TeamName` column, absent until it has been added. */
    var teamName: Option<seq<string>>

    predicate Valid()
      reads this
    {
      |teamNameSpelling| == |teamID| && (teamName.Some? ==> |teamName.value| == |teamID|)
    }

    constructor (teamNameSpelling: seq<string>, teamID: seq<int>)
      requires |teamNameSpelling| == |teamID|
      ensures Valid()
      ensures this.teamNameSpelling == teamNameSpelling && this.teamID == teamID && teamName == None
    {
      this.teamNameSpelling := teamNameSpelling;
      this.teamID := teamID;
      teamName := None;
    }

    /** The (TeamName, TeamID) pairs, once the column exists. */
    function Named(): seq<(string, int)>
      reads this
      requires Valid() && teamName.Some?
    {
      Pairs(teamName.value, teamID)
    }
  }

  /**
   * `clean_kp_data`: the spellings frame gains `TeamName`, a copy of
   * `TeamNameSpelling`, and the two rating tables are built from the join.
   */
  method CleanKpData(raw: seq<KpRaw>, spellings: SpellingsFrame, teams: seq<(string, int)>) returns (t1: KpTable, t2: KpTable)
    requires spellings.Valid()
    modifies spellings
    ensures spellings.Valid()
    ensures spellings.teamNameSpelling == old(spellings.teamNameSpelling) && spellings.teamID == old(spellings.teamID)
    ensures spellings.teamName == Some(spellings.teamNameSpelling)
    ensures (t1, t2) == KpTables(KpJoin(raw, AllTeamNames(teams, spellings.Named())))
  {
    spellings.teamName := Some(spellings.teamNameSpelling);
    var names := AllTeamNames(teams, spellings.Named());
    var rows := KpJoin(raw, names);
    t1 := KpTable(KpHeader("T1_"), rows);
    t2 := KpTable(KpHeader("T2_"), rows);
  }
}
