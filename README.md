# March Madness feature builder, modelled in Dafny

This project models the feature-engineering stage of a men's NCAA tournament
prediction pipeline: `src/features/build_features.py`. That stage turns Kaggle
game results, tournament seeds, team names and spellings, and KenPom ratings
into one table with a row per tournament game and the regular-season features
of both teams on it.

The model covers each step of that file:

- `prepare_data` (module `Games`). Each game (a winner and a loser) becomes two
  rows, one from the winner's side (Team1 = winner) and one from the loser's.
  - Column labels are renamed: `W` becomes `T1_`/`T2_` and `L` becomes `T2_`/`T1_`.
  - The location code is overwritten and then parsed with `int()`.
  - `PointDiff` is computed.
  - The location handling is imperative: methods over arrays proved equal to a
    specification function.
- `calc_season_statistics` (modules `Groups` and `SeasonStats`). The
  per-(Season, Team1) means of a fixed, asymmetric list of box-score columns,
  published under two labelling schemes.
- `win_ratio_14_days` (module `RecentForm`). The share of late-season games
  (after day 118) won, from the Team1 side and from the Team2 side.
- `calc_seed_diff` (module `Seeds`). The seed number is read from characters
  1..2 of the seed code and written into the caller's seeds frame, which is
  modelled as a class.
- `clean_kp_data` (modules `Text`, `TeamNames`, `KenPom`, `Joins`):
  - KenPom names are lower-cased and rewritten by an ordered table of 13 rules.
  - Kaggle names and alternative spellings are lower-cased, hyphens become
    spaces, and duplicates are dropped.
  - The caller's spellings frame gains its `TeamName` column.
  - The names are matched by a left merge.
- The merge chain and `SeedDiff` of `main` (module `Assembly`). Eight left
  merges on (Season, TeamID), then `T1_seed - T2_seed`.

Means are exact rationals (`real`). Integers are unbounded, which is what the
source's 64-bit columns hold for this data. A missing value (pandas' NaN) is
`None`. An exception raised by `int()` is an `Err` result.

Where the code and its documented intent differ, the model follows the code:

- Lines 24-25 run two overwrites in sequence, H to A and then A to H. In the
  loser rows, H and A therefore both end up as H (location 1), and -1 never
  appears there.
- The seed code `Y1` parses to 1: `int("1")` succeeds on the short slice.
- pandas' `Series.replace` with a dict of regular expressions (line 116)
  decides, for every rule, whether `re.search` finds its pattern in the
  lower-cased name as it was before any rewriting. It then runs the rules in
  order, each on the current value, but only the rules found in the original.
  Rules written for the output of earlier rules therefore do not fire:
  - `Troy St` and `Troy St.` are cleaned to `troy state`, not `troy`
    (`TeamNames.TroySt`). Only a name that already reads `Troy State` becomes
    `troy` (`TeamNames.TroyState`).
  - `Southwest Missouri St.` is cleaned to `southwest missouri state`, not
    `sw missouri state` (`TeamNames.SouthwestMissouriSt`).
  - `Michigan St. 3` is cleaned to `michigan st.`. The original name ends in
    the digit, so the suffix rule is not found, and only the digit rule applies
    (`TeamNames.MichiganSt`, `TeamNames.DigitHidesAbbreviation`).
- The rewrite rule at line 109 (`texas a&m corpus christi`) is not dead:
  - on the name it was written for, the rule at line 107 has already rewritten
    it (`TeamNames.CorpusChristi`);
  - on `texas texas a&m corpus christi`, the rule at line 109 is the one that
    fires, and the result differs from the result without it
    (`TeamNames.TexasTwice`).

## Model

| member | source | states |
|---|---|---|
| Games.PrepareData | src/features/build_features.py:8-43 | The method builds the location column in arrays and returns exactly `PrepareDataSpec(games)`: two oriented rows per game in game order, or the `ValueError` that `astype(int)` raises. |
| Games.PrepareDataOk | src/features/build_features.py:35-38 | `prepare_data` succeeds if and only if every winner code and every overwritten loser code parses as an integer after the N/H/A encoding. |
| Games.PrepareDataRows | src/features/build_features.py:16-41 | n games give exactly 2n rows. Rows 2k and 2k+1 are game k seen from its winner and from its loser, adjacent, each with its parsed location. |
| Games.PrepareDataMirror | src/features/build_features.py:28-41 | The two rows of a game mirror each other: each row's Team1 IDs, scores and box scores are the other row's Team2 ones, and season, day and overtime agree. PointDiff is T1 minus T2 score, the loser row's is the negation of the winner row's, and a won game gives positive and negative. |
| Games.LocationEncoding | src/features/build_features.py:24-38 | N encodes to 0, H to 1 and A to -1. The loser copy's two overwrites send both H and A to H and keep N. Every loser location is 0 or 1, never -1. |
| Games.WinnerHeaderRelabelling | src/features/build_features.py:20-28 | In the winner copy, every W column becomes T1_ and every L column T2_ (IDs, scores, box scores). WLoc becomes `location`, and Season, DayNum and NumOT keep their names. |
| Games.LoserHeaderRelabelling | src/features/build_features.py:21-29 | In the loser copy, every W column becomes T2_ and every L column T1_, so the loser's statistics carry the T1_ labels. |
| Games.OverwriteWhere | src/features/build_features.py:24-25 | The in-place `.loc` overwrite: every cell equal to `from` now holds `to`, and every other cell is unchanged. |
| Games.CopyLocations | src/features/build_features.py:16-25 | The winner copy keeps each game's location code. The loser copy holds the code after both overwrites. |
| Games.Interleave | src/features/build_features.py:32 | After concatenation and `sort_index`, row 2j holds game j's winner value and row 2j+1 its loser value. |
| Games.LocationColumn | src/features/build_features.py:32-37 | Position 2j of the final location column is the winner code encoded by N/H/A, and position 2j+1 is the loser code, overwritten and then encoded. |
| Groups.GroupMeansSpec | src/features/build_features.py:56 | The groupby mean has one row per key present in the input and none for absent keys, rows in key order. Each value is the key's column sum divided by its row count. |
| Groups.GroupMeansUnique | src/features/build_features.py:56 | No key occurs twice in a groupby result. |
| SeasonStats.SeasonStatisticsMeans | src/features/build_features.py:48-58 | Both tables hold the same rows, with unique keys: one row for each (Season, T1_TeamID) present in the regular season and none otherwise. Each of the 19 columns is that team's total divided by its number of Team1 rows. |
| SeasonStats.T1HeaderLabels | src/features/build_features.py:60-66 | The Team1 table is labelled `Season`, `T1_TeamID`, then each column + `mean`. T1_ columns keep their label, T2_ ones become `T1_opponent_`, and PointDiff stays. |
| SeasonStats.T2HeaderLabels | src/features/build_features.py:63-67 | The Team2 table is labelled `Season`, `T2_TeamID`, then T1_ columns as `T2_`, T2_ columns as `T2_opponent_`, and `T2_PointDiffmean`. |
| RecentForm.WinFlagsAgree | src/features/build_features.py:74-79 | The 0/1 win flags of a key number its late games on that side, and they sum to its wins. |
| RecentForm.WinRatioSpec | src/features/build_features.py:74-80 | Each side's table has unique keys, and a row for a team exactly when it played a game after day 118 on that side. The value is wins over games played, between 0 and 1. A zero PointDiff is a loss on both sides. |
| RecentForm.TwoWinsOfThree | src/features/build_features.py:74-76 | Three late games of one team as Team1, two of them won, give a single row with ratio 2/3. |
| Seeds.SeedsFrame.CalcSeedDiff | src/features/build_features.py:83-93 | On success the frame gains the `seed` column (each code's value, in order) and returns the T1 and T2 seed tables. If some code does not parse, that code's error is returned and the frame is unchanged. |
| Seeds.SeedValuesOk | src/features/build_features.py:85 | The column converts if and only if every code does. The values are then per code, and an error is the error of some code. |
| Seeds.TwoDigitSeed | src/features/build_features.py:85 | A code with digits at positions 1 and 2 gives their two-digit value, between 0 and 99, whatever follows. |
| Seeds.SeedExamples | src/features/build_features.py:85 | `W01` gives 1, `X16a` gives 16 and `Y1` gives 1. `Z` and `Wab` raise ValueError. |
| Text.ParseInt | src/features/build_features.py:85 | `int()` succeeds exactly on a non-empty digit string with an optional `-` or `+` sign. The value is the sign times the decimal value of the digits. Any other text gives `ValueError` of that text. |
| TeamNames.RemoveDigitsSpec | src/features/build_features.py:100 | Rule `\s?[0-9]` deletes exactly the digits and each whitespace character directly before a digit. It keeps every other character, in order. |
| TeamNames.RemoveDigitsIdempotent | src/features/build_features.py:100 | Applying the digit rule twice is the same as applying it once. |
| TeamNames.StateSuffixSpelledOut | src/features/build_features.py:101 | A name ending in one whitespace character followed by `st` or `st.` ends in ` state` instead. |
| TeamNames.StateSuffixIdempotent | src/features/build_features.py:101 | Applying the suffix rule twice is the same as applying it once. |
| TeamNames.NormalizeNamePlain | src/features/build_features.py:99-116 | A cleaned KenPom name has no upper-case letter, no digit, and no `-`, `(`, `)` or `*`, whichever rules the original name lets fire. |
| TeamNames.DigitHidesAbbreviation | src/features/build_features.py:99-116 | A name `x st. <digit>` (x of lower-case letters, spaces, `&` and `.`, without the name rules' key letters) is cleaned to `x st.`. The digit rule removes ` <digit>`, and the suffix rule is not found in the original name, which ends in the digit. |
| TeamNames.MichiganSt | src/features/build_features.py:99-116 | `Michigan St. 3` is cleaned to `michigan st.`, while `Michigan St.` is cleaned to `michigan state`. |
| TeamNames.TroySt | src/features/build_features.py:99-116 | `troy st` and `troy st.` (in any case) are cleaned to `troy state`. The suffix rule spells the state out, but the `troy state` rule is searched for in the original name, does not occur there, and is skipped. |
| TeamNames.TroyState | src/features/build_features.py:112-116 | `Troy State` (in any case) is cleaned to `troy` by the line-112 rule. |
| TeamNames.SouthwestMissouriSt | src/features/build_features.py:99-116 | `southwest missouri st` and `southwest missouri st.` are cleaned to `southwest missouri state`. The line-108 rule's pattern is longer than the original name, so that rule is skipped. |
| TeamNames.CorpusChristi | src/features/build_features.py:107-109 | `Texas A&M Corpus Christi` is cleaned to `a&m corpus christi` by the line-107 rule; the line-109 rule then finds nothing to rewrite. |
| TeamNames.TexasTwice | src/features/build_features.py:107-109 | For `texas texas a&m corpus christi`, the first nine rules leave `texas a&m corpus christi`. The line-109 rule, found in the original name, rewrites that to `a&m corpus christi`; the rules after it alone would leave `texas a&m corpus christi`. |
| KenPom.MatchName | src/features/build_features.py:120-121 | A Kaggle name as matched has the length of the name. Each character is a space where the name has `-`, and the lower-cased character of the name elsewhere. |
| KenPom.DedupSpec | src/features/build_features.py:122 | `drop_duplicates` keeps exactly the elements of its input, each once, in the order of their first occurrences. |
| KenPom.AllTeamNamesSpec | src/features/build_features.py:118-122 | A (name, ID) pair is listed exactly when some team or spelling row gives it after lower-casing and hyphen replacement, and no pair is listed twice. |
| KenPom.KpJoinUnique | src/features/build_features.py:124 | With one ID per listed name, each KenPom row gives exactly one row, in order. It carries the ID listed for its cleaned name, or none when no entry has that name. |
| KenPom.KpJoinKeepsUnmatched | src/features/build_features.py:124 | A KenPom row whose cleaned name is not listed is kept, with a missing TeamID. |
| KenPom.KpJoinIds | src/features/build_features.py:124 | One KenPom row gives one row with no ID when its name is unlisted, and otherwise one row per listed (name, ID) pair, with no two rows equal. |
| KenPom.KpJoinMultiplies | src/features/build_features.py:118-124 | A KenPom row is repeated once per distinct TeamID that the team and spelling rows give its cleaned name. It gets a missing ID exactly when no such row exists. |
| KenPom.KpHeaders | src/features/build_features.py:127-141 | The rating tables are labelled `Season`, then `T1_TeamID` (or `T2_TeamID`), then each rating column prefixed. |
| KenPom.CleanKpData | src/features/build_features.py:95-142 | The spellings frame gains `TeamName` equal to `TeamNameSpelling`, its other columns unchanged. The two tables are the prefixed views of the KenPom rows left-merged on the cleaned name. |
| Joins.LookupSpec | src/features/build_features.py:180-187 | A lookup misses exactly when no right row has the key; a hit is a listed pair. |
| Joins.MatchesSpec | src/features/build_features.py:124 | The values a merge attaches for a key are exactly those the right table pairs with it. Without repeated right rows, none is attached twice. |
| Joins.LeftJoinUnique | src/features/build_features.py:180-187 | A left merge with unique right keys keeps the left rows' number and order. Row i is left row i with its key's right value, or missing. |
| Joins.LeftJoinKeepsUnmatched | src/features/build_features.py:180-187 | A left row without a partner is kept, with the right-hand side missing. |
| Assembly.AttachUnique | src/features/build_features.py:180 | One merge with unique keys fills one feature group of each tournament row with the lookup of its (Season, team) key, and changes nothing else. |
| Assembly.MergeSeasonUnique | src/features/build_features.py:180-181 | The two season-statistics merges fill T1 and T2 season averages by lookup, keeping rows and order. |
| Assembly.MergeFormUnique | src/features/build_features.py:182-183 | The two win-ratio merges fill the T1 and T2 ratios by lookup, keeping rows and order. |
| Assembly.MergeKpUnique | src/features/build_features.py:184-185 | The two KenPom merges fill the T1 and T2 ratings by lookup, keeping rows and order. |
| Assembly.MergeSeedsUnique | src/features/build_features.py:186-187 | The two seed merges fill the T1 and T2 seeds by lookup, keeping rows and order. |
| Assembly.CombineUnique | src/features/build_features.py:180-188 | With unique keys in all eight tables, each tournament row yields exactly one output row, in order. Each feature group is the lookup for the row's Team1 or Team2 key, and SeedDiff is their seed difference. |
| Assembly.KpKeyed | src/features/build_features.py:184-185 | The keyed ratings are exactly those of the KenPom rows that found a TeamID: every listed pair comes from such a row under its own (Season, TeamID), and every such row is listed. |
| Assembly.AssembleRows | src/features/build_features.py:170-188 | The assembled table has one row per tournament row, each equal to that game's expected features. |
| Assembly.AssembleSeason | src/features/build_features.py:175-181 | A team's season averages on a tournament row exist exactly when it has a regular-season Team1 row in that season. They are its column totals over its game count. |
| Assembly.AssembleForm | src/features/build_features.py:176-183 | A team's win ratio on a tournament row exists exactly when it played after day 118 on that side. It is wins over games played. |
| Assembly.AssembleRatings | src/features/build_features.py:167-185 | A team's KenPom ratings are missing exactly when no KenPom row with a TeamID has its (Season, TeamID). Otherwise they are the ratings of a KenPom row for that season and TeamID. |
| Assembly.AssembleSeeds | src/features/build_features.py:177-188 | Each seed is missing exactly when the seed table has no row for the team, and otherwise is the listed seed. SeedDiff exists exactly when both seeds do, and is T1 minus T2. |
| Assembly.BuildFeatures | src/features/build_features.py:166-188 | The pipeline returns `BuildFeaturesSpec` of its inputs. It adds `TeamName` to the spellings frame, and adds the `seed` column to the seeds frame when both `prepare_data` calls succeed and every seed code parses. Otherwise that frame keeps its old `seed` column. |

## Left out

- File reading and writing (the CSV reads at lines 156-164 and the write at line 192) and all logging (lines 125 and 146-153). The model takes the frames as parameters and returns the table.
- Floating point: `np.mean` is modelled as an exact rational sum over count.
- pandas internals: MultiIndex flattening is modelled only by its resulting labels (`column + "mean"`, with the empty key labels stripped). Rows are records with named fields rather than positional columns.
- Games.PrepareData: the relative order of the two rows with the same index after `sort_index` is not modelled. The winner row is taken to come first.
- Text.ParseInt: `int()`'s acceptance of surrounding whitespace and of `_` digit separators is not modelled. Such codes count as errors.
- Text.Lower: lower-cases ASCII letters only. Unicode case mapping is not modelled.
- TeamNames.ApplyRule: the regular expressions are modelled as specific string rewrites and searches (`TeamNames.Searches`), not as a general regex engine:
  - `\s` is ASCII whitespace;
  - `$` matches only at the very end of the name;
  - `\**` is found in every name and removes every asterisk;
  - in the literal name rules, `.` matches any single character except a newline, as in the regex.
- KenPom.CleanKpData: the `missing ID's` count written to the log at line 125 is not modelled.
- Assembly.CombineUnique and the other assembly lemmas assume unique (Season, team) keys in each right-hand table. `Joins.LeftJoin` itself, and `KenPom.KpJoinMultiplies`, model the row multiplication that duplicate keys cause.
- Assembly.KpKeyed: a KenPom row whose name found no TeamID never matches a tournament row, because pandas does not match a missing key to an integer ID.
- `src/data/make_dataset.py` (web scraping and HTML parsing) and `makefile.py` (a driver) are not part of this model.
