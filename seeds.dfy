/**
 * `calc_seed_diff`: the tournament seed number is read from characters 1..2
 * of the seed code (`W01` gives 1, `X16a` gives 16), stored as a new `seed`
 * column of the caller's seeds frame, and published as two tables keyed for
 * Team1 and for Team2.
 */
module Seeds {
  import opened Common
  import opened Text
  import opened Groups

  /** `int(code[1:3])`: a code whose slice is not a decimal literal raises `ValueError`. */
  function SeedValue(code: string): Result<int>
  {
    ParseInt(Slice(code, 1, 3))
  }

  /** The whole column converted, or the error of its first bad code (pandas `apply` stops there). */
  function SeedValues(codes: seq<string>): Result<seq<int>>
  {
    if codes == [] then Ok([])
    else
      match SeedValue(codes[0])
      case Err(e) => Err(e)
      case Ok(v) =>
        match SeedValues(codes[1..])
        case Err(e) => Err(e)
        case Ok(vs) => Ok([v] + vs)
  }

  /** Values computed so far put in front of the result for the remaining codes. */
  function Then(done: seq<int>, rest: Result<seq<int>>): Result<seq<int>>
  {
    match rest
    case Err(e) => Err(e)
    case Ok(vs) => Ok(done + vs)
  }

  function SeedRows(season: seq<int>, teamID: seq<int>, seed: seq<int>): (r: seq<(Key, int)>)
    requires |season| == |teamID| == |seed|
    ensures |r| == |seed|
  {
    seq(|seed|, i requires 0 <= i < |seed| => (Key(season[i], teamID[i]), seed[i]))
  }

  /** The two tables: `Season, T1_seed, T1_TeamID` and `Season, T2_seed, T2_TeamID`. */
  function SeedTables(season: seq<int>, teamID: seq<int>, seed: seq<int>): (Table<int>, Table<int>)
    requires |season| == |teamID| == |seed|
  {
    var rows := SeedRows(season, teamID, seed);
    (Table(["Season", "T1_seed", "T1_TeamID"], rows), Table(["Season", "T2_seed", "T2_TeamID"], rows))
  }

  /** The seeds frame the caller passes in; the operation adds its `seed` column in place. */
  class SeedsFrame {
    var season: seq<int>
    var seedCode: seq<string>
    var teamID: seq<int>
    /** The derived column, absent until it has been added. */
    var seed: Option<seq<int>>

    predicate Valid()
      reads this
    {
      |season| == |seedCode| == |teamID| && (seed.Some? ==> |seed.value| == |season|)
    }

    constructor (season: seq<int>, seedCode: seq<string>, teamID: seq<int>)
      requires |season| == |seedCode| == |teamID|
      ensures Valid()
      ensures this.season == season && this.seedCode == seedCode && this.teamID == teamID && seed == None
    {
      this.season := season;
      this.seedCode := seedCode;
      this.teamID := teamID;
      seed := None;
    }

    /**
     * `calc_seed_diff`: on success the frame gains the `seed` column and the two
     * tables are returned; if some code does not parse, the error is returned
     * and the frame is left as it was.
     */
    method CalcSeedDiff() returns (r: Result<(Table<int>, Table<int>)>)
      requires Valid()
      modifies this
      ensures Valid()
      ensures season == old(season) && seedCode == old(seedCode) && teamID == old(teamID)
      ensures SeedValues(seedCode).Err? ==> r == Err(SeedValues(seedCode).error) && seed == old(seed)
      ensures SeedValues(seedCode).Ok? ==>
        seed == Some(SeedValues(seedCode).value) && r == Ok(SeedTables(season, teamID, seed.value))
    {
      var vals: seq<int> := [];
      var i := 0;
      assert seedCode[0..] == seedCode;
      if SeedValues(seedCode).Ok? {
        assert [] + SeedValues(seedCode).value == SeedValues(seedCode).value;
      }
      while i < |seedCode|
        invariant 0 <= i <= |seedCode| && |vals| == i
        invariant SeedValues(seedCode) == Then(vals, SeedValues(seedCode[i..]))
      {
        var v := SeedValue(seedCode[i]);
        assert seedCode[i..][1..] == seedCode[i + 1..];
        if v.Err? {
          return Err(v.error);
        }
        var rest := SeedValues(seedCode[i + 1..]);
        assert seedCode[i..][0] == seedCode[i];
        if rest.Ok? {
          assert vals + ([v.value] + rest.value) == (vals + [v.value]) + rest.value;
        }
        assert Then(vals, SeedValues(seedCode[i..])) == Then(vals + [v.value], rest);
        vals := vals + [v.value];
        i := i + 1;
      }
      assert Then(vals, Ok([])) == Ok(vals + []);
      assert vals + [] == vals;
      seed := Some(vals);
      r := Ok(SeedTables(season, teamID, vals));
    }
  }

  /** The column converts exactly when every code does, and then value by value. */
  lemma {:induction false} SeedValuesOk(codes: seq<string>)
    ensures SeedValues(codes).Ok? <==> forall i :: 0 <= i < |codes| ==> SeedValue(codes[i]).Ok?
    ensures SeedValues(codes).Ok? ==>
      |SeedValues(codes).value| == |codes| &&
      forall i :: 0 <= i < |codes| ==> SeedValues(codes).value[i] == SeedValue(codes[i]).value
    ensures SeedValues(codes).Err? ==> exists i :: 0 <= i < |codes| && SeedValue(codes[i]) == Err(SeedValues(codes).error)
    decreases |codes|
  {
    if codes != [] {
      SeedValuesOk(codes[1..]);
      assert forall i :: 1 <= i < |codes| ==> codes[i] == codes[1..][i - 1];
      if SeedValue(codes[0]).Ok? && SeedValues(codes[1..]).Err? {
        var i :| 0 <= i < |codes[1..]| && SeedValue(codes[1..][i]) == Err(SeedValues(codes[1..]).error);
        assert SeedValue(codes[i + 1]) == Err(SeedValues(codes).error);
      }
    }
  }

  /** A code with two digits after its region letter gives their two-digit value, between 0 and 99. */
  lemma TwoDigitSeed(code: string)
    requires |code| >= 3 && IsDigit(code[1]) && IsDigit(code[2])
    ensures SeedValue(code) == Ok(10 * DigitValue(code[1]) + DigitValue(code[2]))
    ensures 0 <= SeedValue(code).value <= 99
  {
    var s := Slice(code, 1, 3);
    assert s == [code[1], code[2]];
    assert s[..1] == [code[1]] && [code[1]][..0] == [];
    assert AllDigits(s) && AllDigits(s[..1]);
    assert DigitsValue(s[..1]) == DigitValue(code[1]);
    assert DigitsValue(s) == 10 * DigitValue(code[1]) + DigitValue(code[2]);
  }

  /** The code shapes seen in seed files, and two codes whose slice is not a number. */
  lemma SeedExamples()
    ensures SeedValue("W01") == Ok(1)
    ensures SeedValue("X16a") == Ok(16)
    ensures SeedValue("Y1") == Ok(1)
    ensures SeedValue("Z") == Err(ValueError(""))
    ensures SeedValue("Wab") == Err(ValueError("ab"))
  {
    TwoDigitSeed("W01");
    TwoDigitSeed("X16a");
    assert Slice("Y1", 1, 3) == "1";
    assert Slice("Z", 1, 3) == "";
    assert Slice("Wab", 1, 3) == "ab";
  }
}
