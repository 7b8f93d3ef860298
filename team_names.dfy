/**
 * `clean_kp_data`, the name cleaning: a KenPom team name is lower-cased and
 * rewritten by a table of regular-expression rules. pandas applies the table
 * (`Series.replace` with a dict of patterns) by first deciding, for every
 * rule, whether `re.search` finds its pattern in the lower-cased name as it
 * was before any rewriting; it then runs the rules in table order, each
 * one's `re.sub` on the current value, but only if that rule was found in the
 * original. A rule can therefore be skipped although an earlier rule produced
 * its pattern, and fire although an earlier rule removed it.
 */
module TeamNames {
  import opened Text

  // ---------------------------------------------------------------------------
  // The rewriting rules

  /**
   * `\s?[0-9]` replaced by nothing: each digit is removed, together with one
   * whitespace character right before it.
   */
  function RemoveDigits(s: string): (r: string)
    ensures forall c :: c in r ==> c in s && !IsDigit(c)
    decreases |s|
  {
    if s == [] then []
    else if |s| >= 2 && IsSpace(s[0]) && IsDigit(s[1]) then
      assert forall c :: c in s[2..] ==> c in s;
      RemoveDigits(s[2..])
    else if IsDigit(s[0]) then
      assert forall c :: c in s[1..] ==> c in s;
      RemoveDigits(s[1..])
    else
      assert forall c :: c in s[1..] ==> c in s;
      [s[0]] + RemoveDigits(s[1..])
  }

  /** Whether the digit rule deletes position `i`: a digit, or a whitespace character right before one. */
  predicate Deleted(s: string, i: nat)
    requires i < |s|
  {
    IsDigit(s[i]) || (IsSpace(s[i]) && i + 1 < |s| && IsDigit(s[i + 1]))
  }

  /** The characters of `s` at the positions that are not deleted, in their order. */
  function Survivors(s: string): string
    decreases |s|
  {
    if s == [] then [] else (if Deleted(s, 0) then [] else [s[0]]) + Survivors(s[1..])
  }

  /** The digit rule deletes exactly the digits and the whitespace right before a digit, and keeps the rest in order. */
  lemma {:induction false} RemoveDigitsSpec(s: string)
    ensures RemoveDigits(s) == Survivors(s)
    decreases |s|
  {
    if s != [] {
      if |s| >= 2 && IsSpace(s[0]) && IsDigit(s[1]) {
        assert s[1..][0] == s[1] && Deleted(s[1..], 0);
        assert s[1..][1..] == s[2..];
        RemoveDigitsSpec(s[2..]);
      } else {
        RemoveDigitsSpec(s[1..]);
      }
    }
  }

  /** A name ending in one whitespace character and `st.`. */
  predicate EndsInStDot(s: string)
  {
    |s| >= 4 && IsSpace(s[|s| - 4]) && s[|s| - 3..] == "st."
  }

  /** A name ending in one whitespace character and `st`. */
  predicate EndsInSt(s: string)
  {
    |s| >= 3 && IsSpace(s[|s| - 3]) && s[|s| - 2..] == "st"
  }

  /**
   * `(\s{1}st\.?$)` replaced by ` state`: a trailing whitespace character
   * followed by `st` or `st.` becomes ` state`.
   */
  function StateSuffix(s: string): (r: string)
    ensures forall c :: c in r ==> c in s || c in " state"
  {
    if EndsInStDot(s) then
      assert forall c :: c in s[..|s| - 4] ==> c in s;
      s[..|s| - 4] + " state"
    else if EndsInSt(s) then
      assert forall c :: c in s[..|s| - 3] ==> c in s;
      s[..|s| - 3] + " state"
    else s
  }

  /**
   * One entry of the replacement table. `Stars` is `\**`, any run of
   * asterisks, the empty run included; a `Sub` pattern's only metacharacter
   * is `.`.
   */
  datatype Rule = DigitsRule | StateRule | Stars | Sub(pat: string, rep: string)

  // The name entries of the table, pattern and replacement.
  const RgvPat: string := "ut rio grande valley"
  const RgvRep: string := "texas rio grande valley"
  const ChrisPat: string := "texas a&m corpus chris"
  const ChrisRep: string := "a&m corpus chris"
  const MissouriPat: string := "southwest missouri state"
  const MissouriRep: string := "sw missouri state"
  const ChristiPat: string := "texas a&m corpus christi"
  const ChristiRep: string := "a&m corpus christi"
  const BakersfieldPat: string := "cal st. bakersfield"
  const BakersfieldRep: string := "cal state bakersfield"
  const FrancisPat: string := "st. francis pa"
  const FrancisRep: string := "st francis pa"
  const TroyPat: string := "troy state"
  const TroyRep: string := "troy"

  /** The first six entries of the table: digits, the state abbreviation, punctuation. `\(` and `\)` are literal parentheses. */
  const CharRules: seq<Rule> := [DigitsRule, StateRule, Sub("-", " "), Sub("(", ""), Sub(")", ""), Stars]

  /** The last seven entries: whole team names. */
  const NameRules: seq<Rule> := [
    Sub(RgvPat, RgvRep),
    Sub(ChrisPat, ChrisRep),
    Sub(MissouriPat, MissouriRep),
    Sub(ChristiPat, ChristiRep),
    Sub(BakersfieldPat, BakersfieldRep),
    Sub(FrancisPat, FrancisRep),
    Sub(TroyPat, TroyRep)]

  /** The replacement table, in order. */
  const Rules: seq<Rule> := CharRules + NameRules

  /** Whether `re.search` finds the entry's pattern in the name `o`. */
  predicate Searches(r: Rule, o: string)
  {
    match r
    case DigitsRule => exists i :: 0 <= i < |o| && IsDigit(o[i])
    case StateRule => EndsInStDot(o) || EndsInSt(o)
    case Stars => true
    case Sub(pat, _) => Occurs(o, pat, true)
  }

  /**
   * `re.sub` of one table entry over the whole name. Removing every run of
   * asterisks is removing every asterisk. Every pattern in the table is
   * non-empty; the empty-pattern guard only makes the function total.
   */
  function ApplyRule(s: string, r: Rule): string
  {
    match r
    case DigitsRule => RemoveDigits(s)
    case StateRule => StateSuffix(s)
    case Stars => Replace(s, "*", "", true)
    case Sub(pat, rep) => if pat == [] then s else Replace(s, pat, rep, true)
  }

  /** Entry `r` rewrites the current value `s` if it was found in the original name `o`, and leaves it alone otherwise. */
  function Gate(o: string, s: string, r: Rule): string
  {
    if Searches(r, o) then ApplyRule(s, r) else s
  }

  /** The entries `rules` in order over the current value `s`, each gated on the original name `o`. */
  function Rewrite(o: string, s: string, rules: seq<Rule>): string
    decreases |rules|
  {
    if rules == [] then s else Rewrite(o, Gate(o, s, rules[0]), rules[1..])
  }

  /** The cleaned KenPom name of a team: lower-cased, then rewritten by the table gated on the lower-cased name. */
  function NormalizeName(team: string): string
  {
    var o := Lower(team);
    Rewrite(o, o, Rules)
  }

  // ---------------------------------------------------------------------------
  // The fold

  lemma {:induction false} RewriteAppend(o: string, s: string, a: seq<Rule>, b: seq<Rule>)
    ensures Rewrite(o, s, a + b) == Rewrite(o, Rewrite(o, s, a), b)
    decreases |a|
  {
    if a != [] {
      assert (a + b)[0] == a[0] && (a + b)[1..] == a[1..] + b;
      RewriteAppend(o, Gate(o, s, a[0]), a[1..], b);
    } else {
      assert a + b == b;
    }
  }

  lemma RewriteFrom(o: string, s: string, rules: seq<Rule>, k: nat)
    requires k < |rules|
    ensures Rewrite(o, s, rules[k..]) == Rewrite(o, Gate(o, s, rules[k]), rules[k + 1..])
  {
    assert rules[k..][1..] == rules[k + 1..];
  }

  /** The first six entries, gated on `o`, one after the other over `s`. */
  function CharStage(o: string, s: string): string
  {
    var s1 := Gate(o, s, DigitsRule);
    var s2 := Gate(o, s1, StateRule);
    var s3 := Gate(o, s2, Sub("-", " "));
    var s4 := Gate(o, s3, Sub("(", ""));
    var s5 := Gate(o, s4, Sub(")", ""));
    Gate(o, s5, Stars)
  }

  lemma CharRulesStage(o: string, s: string)
    ensures Rewrite(o, s, CharRules) == CharStage(o, s)
  {
    var r := CharRules;
    assert r[1..][1..][1..][1..][1..][1..] == [];
  }

  /** A name is cleaned by the character entries and then by the name entries. */
  lemma NormalizeNameStages(team: string)
    ensures NormalizeName(team) == Rewrite(Lower(team), CharStage(Lower(team), Lower(team)), NameRules)
  {
    var o := Lower(team);
    RewriteAppend(o, o, CharRules, NameRules);
    CharRulesStage(o, o);
  }

  /** Joins the two stages of a worked name. */
  lemma Normalizes(team: string, c: string, r: string)
    requires Rewrite(Lower(team), Lower(team), CharRules) == c
    requires Rewrite(Lower(team), c, NameRules) == r
    ensures NormalizeName(team) == r
  {
    RewriteAppend(Lower(team), Lower(team), CharRules, NameRules);
  }

  // ---------------------------------------------------------------------------
  // The name entries

  /** For each name entry a letter of its pattern: a name without it is not rewritten by that entry. */
  const KeyLetters: seq<char> := ['v', 'x', 'w', 'x', 'l', 'f', 'y']

  /** Lower-case letters, spaces, `&` and `.` only. */
  predicate Lettered(s: string)
  {
    forall i :: 0 <= i < |s| ==> s[i] == ' ' || s[i] == '&' || s[i] == '.' || 'a' <= s[i] <= 'z'
  }

  lemma LetteredAppend(a: string, b: string)
    requires Lettered(a) && Lettered(b)
    ensures Lettered(a + b)
  {
  }

  /** The name entries' patterns are non-empty and hold their key letters; their replacements are lettered. */
  lemma NameEntries()
    ensures |NameRules| == |KeyLetters| == 7
    ensures forall k :: 0 <= k < 7 ==> NameRules[k].Sub? && |NameRules[k].pat| > 0
    ensures forall k :: 0 <= k < 7 ==> KeyLetters[k] in NameRules[k].pat && Lettered(NameRules[k].rep)
  {
    NameEntryValues();
    KeyLettersInPatterns();
    RepsLettered();
    MoreRepsLettered();
    forall k | 0 <= k < 7
      ensures NameRules[k].Sub? && |NameRules[k].pat| > 0
      ensures KeyLetters[k] in NameRules[k].pat && Lettered(NameRules[k].rep)
    {
      if k == 0 {
      } else if k == 1 {
      } else if k == 2 {
      } else if k == 3 {
      } else if k == 4 {
      } else if k == 5 {
      } else {
      }
    }
  }

  lemma NameEntryValues()
    ensures NameRules[0] == Sub(RgvPat, RgvRep) && NameRules[1] == Sub(ChrisPat, ChrisRep)
    ensures NameRules[2] == Sub(MissouriPat, MissouriRep) && NameRules[3] == Sub(ChristiPat, ChristiRep)
    ensures NameRules[4] == Sub(BakersfieldPat, BakersfieldRep) && NameRules[5] == Sub(FrancisPat, FrancisRep)
    ensures NameRules[6] == Sub(TroyPat, TroyRep)
    ensures KeyLetters == ['v', 'x', 'w', 'x', 'l', 'f', 'y']
  {
  }

  // Single entries of the table, for proofs that need only one of them.

  lemma KeyLetterValues()
    ensures KeyLetters == ['v', 'x', 'w', 'x', 'l', 'f', 'y']
  {
  }

  lemma ChrisEntry()
    ensures NameRules[1] == Sub(ChrisPat, ChrisRep)
  {
  }

  lemma ChristiEntry()
    ensures NameRules[3] == Sub(ChristiPat, ChristiRep)
  {
  }

  lemma MissouriEntry()
    ensures NameRules[2] == Sub(MissouriPat, MissouriRep)
  {
  }

  lemma TroyEntry()
    ensures NameRules[6] == Sub(TroyPat, TroyRep)
  {
  }

  lemma KeyLettersInPatterns()
    ensures 'v' in RgvPat && 'x' in ChrisPat && 'w' in MissouriPat && 'x' in ChristiPat
    ensures 'l' in BakersfieldPat && 'f' in FrancisPat && 'y' in TroyPat
  {
    assert RgvPat[14] == 'v' && ChrisPat[2] == 'x' && MissouriPat[5] == 'w' && ChristiPat[2] == 'x';
    assert BakersfieldPat[2] == 'l' && FrancisPat[4] == 'f' && TroyPat[3] == 'y';
  }

  lemma RepsLettered()
    ensures Lettered(RgvRep) && Lettered(ChrisRep) && Lettered(MissouriRep) && Lettered(ChristiRep)
  {
  }

  lemma MoreRepsLettered()
    ensures Lettered(BakersfieldRep) && Lettered(FrancisRep) && Lettered(TroyRep)
  {
  }

  /** Entry `k` is skipped when the original name lacks a literal character of its pattern. */
  lemma NameMiss(o: string, s: string, k: nat, c: char)
    requires k < |NameRules| && NameRules[k].Sub? && c in NameRules[k].pat && c != '.' && c !in o
    ensures Rewrite(o, s, NameRules[k..]) == Rewrite(o, s, NameRules[k + 1..])
  {
    RewriteFrom(o, s, NameRules, k);
    OccursAbsent(o, NameRules[k].pat, true, c);
  }

  /** Entry `k` rewrites the current value when its pattern occurs in the original name. */
  lemma NameFire(o: string, s: string, k: nat)
    requires k < |NameRules| && NameRules[k].Sub? && Occurs(o, NameRules[k].pat, true)
    ensures Rewrite(o, s, NameRules[k..]) == Rewrite(o, Replace(s, NameRules[k].pat, NameRules[k].rep, true), NameRules[k + 1..])
  {
    NameEntries();
    RewriteFrom(o, s, NameRules, k);
  }

  /** No character of `s` is in `cs`. */
  predicate Avoids(s: string, cs: set<char>)
  {
    forall i :: 0 <= i < |s| ==> s[i] !in cs
  }

  lemma AvoidsAppend(a: string, b: string, cs: set<char>)
    requires Avoids(a, cs) && Avoids(b, cs)
    ensures Avoids(a + b, cs)
  {
  }

  /** Entries `lo` to `hi - 1` are all skipped for a name that avoids their key letters. */
  lemma {:induction false} Escapes(o: string, s: string, lo: nat, hi: nat, cs: set<char>)
    requires lo <= hi <= 7 && Avoids(o, cs)
    requires forall k :: lo <= k < hi ==> KeyLetters[k] in cs
    ensures Rewrite(o, s, NameRules[lo..]) == Rewrite(o, s, NameRules[hi..])
    decreases hi
  {
    if lo < hi {
      Escapes(o, s, lo, hi - 1, cs);
      NameEntries();
      NameMiss(o, s, hi - 1, KeyLetters[hi - 1]);
    }
  }

  lemma NoEntriesLeft(o: string, s: string)
    ensures Rewrite(o, s, NameRules[7..]) == s
  {
    NameEntries();
    assert NameRules[7..] == [];
  }

  // ---------------------------------------------------------------------------
  // What the table guarantees for every name

  /** No upper-case letter, no digit, and none of the characters the punctuation entries remove. */
  predicate Plain(s: string)
  {
    forall c :: c in s ==> !IsUpper(c) && !IsDigit(c) && c != '-' && c != '(' && c != ')' && c != '*'
  }

  lemma LetteredPlain(s: string)
    requires Lettered(s)
    ensures Plain(s)
  {
    forall c | c in s ensures !IsUpper(c) && !IsDigit(c) && c != '-' && c != '(' && c != ')' && c != '*' {
      var i :| 0 <= i < |s| && s[i] == c;
    }
  }

  /** A gated punctuation entry leaves none of its character, given that the character can only come from the original name. */
  lemma PunctuationGone(o: string, s: string, c: char, rep: string)
    requires c != '.' && c !in rep && (c in s ==> c in o)
    ensures c !in Gate(o, s, Sub([c], rep))
    ensures forall x :: x in Gate(o, s, Sub([c], rep)) ==> x in s || x in rep
  {
    if Occurs(o, [c], true) {
      ReplaceCharRemoves(s, c, rep, true);
    } else {
      OccursChar(o, c, true);
    }
  }

  /**
   * The character entries make a lower-case name plain: the digit entry is
   * skipped only when there are no digits, and each punctuation entry is
   * skipped only when its character is absent from the original name, and no
   * entry writes one.
   */
  lemma CharStagePlain(o: string)
    requires forall c :: c in o ==> !IsUpper(c)
    ensures Plain(CharStage(o, o))
  {
    var s1 := Gate(o, o, DigitsRule);
    DigitGateChars(o);
    var s2 := Gate(o, s1, StateRule);
    StateGateChars(o, s1);
    PunctuationGone(o, s2, '-', " ");
    var s3 := Gate(o, s2, Sub("-", " "));
    PunctuationGone(o, s3, '(', "");
    var s4 := Gate(o, s3, Sub("(", ""));
    PunctuationGone(o, s4, ')', "");
    var s5 := Gate(o, s4, Sub(")", ""));
    ReplaceCharRemoves(s5, '*', "", true);
  }

  /** The digit entry leaves no digit and adds no character. */
  lemma DigitGateChars(o: string)
    ensures forall x :: x in Gate(o, o, DigitsRule) ==> x in o && !IsDigit(x)
  {
    if !Searches(DigitsRule, o) {
      forall x | x in o ensures !IsDigit(x) {
        var i :| 0 <= i < |o| && o[i] == x;
      }
    }
  }

  /** The state entry adds only the letters of ` state`. */
  lemma StateGateChars(o: string, s1: string)
    requires forall x :: x in s1 ==> x in o && !IsDigit(x)
    requires forall c :: c in o ==> !IsUpper(c)
    ensures forall x :: x in Gate(o, s1, StateRule) ==> (x in o || x in " state") && !IsDigit(x) && !IsUpper(x)
  {
    StateLetters();
  }

  lemma StateLetters()
    ensures forall x :: x in " state" ==> x == ' ' || 'a' <= x <= 'z'
  {
  }

  /** An entry that replaces a non-empty pattern by plain text. */
  predicate PlainEntry(r: Rule)
  {
    r.Sub? && |r.pat| > 0 && Plain(r.rep)
  }

  /** Entries that only write plain text keep a plain value plain, whatever their gates decide. */
  lemma {:induction false} RewriteKeepsPlain(o: string, s: string, rules: seq<Rule>)
    requires Plain(s) && forall i :: 0 <= i < |rules| ==> PlainEntry(rules[i])
    ensures Plain(Rewrite(o, s, rules))
    decreases |rules|
  {
    if rules != [] {
      var r := rules[0];
      assert PlainEntry(r);
      if Searches(r, o) {
        ReplaceChars(s, r.pat, r.rep, true);
      }
      assert forall i :: 0 <= i < |rules[1..]| ==> rules[1..][i] == rules[i + 1];
      RewriteKeepsPlain(o, Gate(o, s, r), rules[1..]);
    }
  }

  /** A cleaned KenPom name has no upper-case letter, no digit, and no `-`, `(`, `)` or `*`. */
  lemma NormalizeNamePlain(team: string)
    ensures Plain(NormalizeName(team))
  {
    var o := Lower(team);
    LowerHasNoUpper(team);
    NormalizeNameStages(team);
    CharStagePlain(o);
    NameEntries();
    forall k | 0 <= k < |NameRules| ensures PlainEntry(NameRules[k]) {
      LetteredPlain(NameRules[k].rep);
    }
    RewriteKeepsPlain(o, CharStage(o, o), NameRules);
  }

  /** The digit entry is idempotent. */
  lemma {:induction false} RemoveDigitsNone(s: string)
    requires forall c :: c in s ==> !IsDigit(c)
    ensures RemoveDigits(s) == s
    decreases |s|
  {
    if s != [] {
      assert s[0] in s;
      assert forall c :: c in s[1..] ==> c in s;
      RemoveDigitsNone(s[1..]);
    }
  }

  lemma RemoveDigitsIdempotent(s: string)
    ensures RemoveDigits(RemoveDigits(s)) == RemoveDigits(s)
  {
    RemoveDigitsNone(RemoveDigits(s));
  }

  /** A digit-free prefix not ending in whitespace is kept whole by the digit entry. */
  lemma {:induction false} RemoveDigitsPrefix(a: string, b: string)
    requires |a| > 0 && !IsSpace(a[|a| - 1]) && forall i :: 0 <= i < |a| ==> !IsDigit(a[i])
    ensures RemoveDigits(a + b) == a + RemoveDigits(b)
    decreases |a|
  {
    var s := a + b;
    assert s[0] == a[0] && !IsDigit(s[0]);
    assert !(|s| >= 2 && IsSpace(s[0]) && IsDigit(s[1])) by {
      if |a| > 1 {
        assert s[1] == a[1];
      }
    }
    RemoveDigitsKeeps(s);
    if |a| == 1 {
      assert s[1..] == b && a == [a[0]];
    } else {
      assert s[1..] == a[1..] + b;
      RemoveDigitsPrefix(a[1..], b);
      ConsAppend(a, RemoveDigits(b));
    }
  }

  /** The digit entry keeps a first character that is neither a digit nor whitespace before one. */
  lemma RemoveDigitsKeeps(s: string)
    requires |s| > 0 && !IsDigit(s[0]) && !(|s| >= 2 && IsSpace(s[0]) && IsDigit(s[1]))
    ensures RemoveDigits(s) == [s[0]] + RemoveDigits(s[1..])
  {
  }

  lemma ConsAppend(a: string, t: string)
    requires |a| > 0
    ensures a + t == [a[0]] + (a[1..] + t)
  {
    assert a == [a[0]] + a[1..];
  }

  /** A state abbreviation at the end, with or without its dot, is spelled out. */
  lemma StateSuffixSpelledOut(x: string, w: char)
    requires IsSpace(w)
    ensures StateSuffix(x + [w] + "st") == x + " state"
    ensures StateSuffix(x + [w] + "st.") == x + " state"
  {
    var a := x + [w] + "st";
    assert a[|a| - 1] == 't' && a[|a| - 3] == w && a[|a| - 3..][2] == 't';
    assert a[|a| - 2..] == "st" && a[..|a| - 3] == x;
    var b := x + [w] + "st.";
    assert b[|b| - 4] == w && b[|b| - 3..] == "st." && b[..|b| - 4] == x;
  }

  /** After the state entry the name no longer ends in an abbreviation, so applying it again changes nothing. */
  lemma StateSuffixIdempotent(s: string)
    ensures StateSuffix(StateSuffix(s)) == StateSuffix(s)
  {
    var r := StateSuffix(s);
    if r != s {
      var n := |r|;
      assert r[n - 1] == 'e' && r[n - 2] == 't';
      assert r[n - 3..] != "st." by { assert r[n - 3..][2] == 'e'; }
      assert r[n - 2..] != "st" by { assert r[n - 2..][1] == 'e'; }
    }
  }

  // ---------------------------------------------------------------------------
  // Worked names

  /** A name holding none of `-`, `(`, `)` is not found by the punctuation entries. */
  lemma NoPunctuation(o: string)
    requires '-' !in o && '(' !in o && ')' !in o
    ensures !Occurs(o, "-", true) && !Occurs(o, "(", true) && !Occurs(o, ")", true)
  {
    OccursChar(o, '-', true);
    OccursChar(o, '(', true);
    OccursChar(o, ')', true);
  }

  /** When the punctuation entries are not found in `o`, the character entries reduce to the digit and state entries and the asterisks. */
  lemma CharStageSkips(o: string, s: string)
    requires !Occurs(o, "-", true) && !Occurs(o, "(", true) && !Occurs(o, ")", true)
    ensures Rewrite(o, s, CharRules) == Replace(Gate(o, Gate(o, s, DigitsRule), StateRule), "*", "", true)
  {
    CharRulesStage(o, s);
  }

  /** The digit and punctuation entries are not found in a lettered name, which holds no asterisk either. */
  lemma LetteredSkips(o: string)
    requires Lettered(o)
    ensures !Searches(DigitsRule, o) && '*' !in o
    ensures !Occurs(o, "-", true) && !Occurs(o, "(", true) && !Occurs(o, ")", true)
  {
    LetteredPlain(o);
    forall i | 0 <= i < |o| ensures !IsDigit(o[i]) {
      assert o[i] in o;
    }
    NoPunctuation(o);
  }

  /** A name that does not end in `t` or `.` is not found by the state entry. */
  lemma NoAbbreviation(o: string)
    requires |o| > 0 && o[|o| - 1] != 't' && o[|o| - 1] != '.'
    ensures !Searches(StateRule, o)
  {
    assert !EndsInStDot(o) by {
      if |o| >= 3 {
        assert o[|o| - 3..][2] == o[|o| - 1];
      }
    }
    assert !EndsInSt(o) by {
      if |o| >= 2 {
        assert o[|o| - 2..][1] == o[|o| - 1];
      }
    }
  }

  /** A lettered name not ending in `t` or `.` passes the character entries unchanged. */
  lemma CharStageQuiet(o: string)
    requires Lettered(o) && |o| > 0 && o[|o| - 1] != 't' && o[|o| - 1] != '.'
    ensures Rewrite(o, o, CharRules) == o
  {
    LetteredSkips(o);
    NoAbbreviation(o);
    CharStageSkips(o, o);
    ReplaceAbsentChar(o, "*", "", true, '*');
  }

  /** The state entry is found in, and spells out, a name ending in ` st` or ` st.`. */
  lemma AbbreviationFound(x: string, o: string)
    requires o == x + " st" || o == x + " st."
    ensures Gate(o, o, StateRule) == x + " state"
  {
    StateSuffixSpelledOut(x, ' ');
    if o == x + " st" {
      assert o == x + [' '] + "st";
      assert o[|o| - 3] == ' ' && o[|o| - 2..] == "st";
    } else {
      assert o == x + [' '] + "st.";
      assert o[|o| - 4] == ' ' && o[|o| - 3..] == "st.";
    }
  }

  /** The endings the worked names are built from. */
  lemma Endings()
    ensures Lettered(" st") && Lettered(" st.") && Lettered(" st. ") && Lettered(" state")
    ensures Avoids(" st", Keys) && Avoids(" st.", Keys)
  {
  }

  /** A lettered name ending in ` st` or ` st.` has the state spelled out by the character entries. */
  lemma CharStageSpellsOut(x: string, o: string)
    requires Lettered(x) && (o == x + " st" || o == x + " st.")
    ensures Rewrite(o, o, CharRules) == x + " state"
  {
    assert Lettered(o) by {
      Endings();
      LetteredAppend(x, " st");
      LetteredAppend(x, " st.");
    }
    LetteredSkips(o);
    CharStageSkips(o, o);
    AbbreviationFound(x, o);
    assert '*' !in x + " state" by {
      Endings();
      LetteredAppend(x, " state");
      LetteredSkips(x + " state");
    }
    ReplaceAbsentChar(x + " state", "*", "", true, '*');
  }

  /** The digit entry turns `x st. <digit>` into `x st.`. */
  lemma DigitDropped(x: string, d: char)
    requires IsDigit(d) && Lettered(x)
    ensures RemoveDigits(x + " st. " + [d]) == x + " st."
  {
    var a := x + " st.";
    assert x + " st. " + [d] == a + (" " + [d]);
    assert |a| > 0 && !IsSpace(a[|a| - 1]) && forall i :: 0 <= i < |a| ==> !IsDigit(a[i]) by {
      Endings();
      LetteredAppend(x, " st.");
    }
    RemoveDigitsPrefix(a, " " + [d]);
    assert RemoveDigits(" " + [d]) == [] by {
      SpaceDigit(d);
    }
    assert a + [] == a;
  }

  lemma SpaceDigit(d: char)
    requires IsDigit(d)
    ensures RemoveDigits(" " + [d]) == []
  {
  }

  /** The character entries on a name `x st. <digit>`: only the digit entry is found. */
  lemma DigitStage(x: string, d: char, o: string)
    requires o == x + " st. " + [d] && IsDigit(d) && Lettered(x)
    ensures Rewrite(o, o, CharRules) == x + " st."
  {
    var a := x + " st.";
    assert '-' !in o && '(' !in o && ')' !in o by {
      assert Lettered(x + " st. ") by {
        Endings();
        LetteredAppend(x, " st. ");
      }
      assert o == (x + " st. ") + [d];
    }
    NoPunctuation(o);
    CharStageSkips(o, o);
    assert Gate(o, o, DigitsRule) == a by {
      DigitDropped(x, d);
      assert IsDigit(o[|o| - 1]);
    }
    NoAbbreviation(o);
    assert '*' !in a by {
      Endings();
      LetteredAppend(x, " st.");
      LetteredSkips(a);
    }
    ReplaceAbsentChar(a, "*", "", true, '*');
  }

  /** All the key letters. */
  const Keys: set<char> := {'v', 'x', 'w', 'l', 'f', 'y'}

  /** The name entries leave alone a name avoiding all their key letters. */
  lemma NameStageQuiet(o: string, s: string)
    requires Avoids(o, Keys)
    ensures Rewrite(o, s, NameRules) == s
  {
    NameEntryValues();
    assert NameRules[0..] == NameRules;
    Escapes(o, s, 0, 7, Keys);
    NoEntriesLeft(o, s);
  }

  /**
   * A digit after a state abbreviation hides it from the state entry, whose
   * gate looks at the original name and finds it ending in the digit: the
   * digit entry removes ` <digit>`, and `st.` stays.
   */
  lemma DigitHidesAbbreviation(team: string, x: string, d: char)
    requires Lower(team) == x + " st. " + [d] && IsDigit(d)
    requires Lettered(x) && Avoids(x, Keys)
    ensures NormalizeName(team) == x + " st."
  {
    var o := Lower(team);
    DigitStage(x, d, o);
    assert Avoids(o, Keys) by {
      assert o == x + (" st. " + [d]);
      DigitAvoids(d);
      AvoidsAppend(x, " st. " + [d], Keys);
    }
    NameStageQuiet(o, x + " st.");
    Normalizes(team, x + " st.", x + " st.");
  }

  lemma DigitAvoids(d: char)
    requires IsDigit(d)
    ensures Avoids(" st. " + [d], Keys)
  {
    assert " st. " + [d] == [' ', 's', 't', '.', ' ', d];
  }

  /** `Michigan St. 3` keeps its abbreviation, unlike `Michigan St.`. */
  lemma MichiganSt(team: string)
    requires Lower(team) == "michigan st. 3" || Lower(team) == "michigan st."
    ensures Lower(team) == "michigan st. 3" ==> NormalizeName(team) == "michigan st."
    ensures Lower(team) == "michigan st." ==> NormalizeName(team) == "michigan state"
  {
    var x := "michigan";
    Michigan();
    if Lower(team) == "michigan st. 3" {
      DigitHidesAbbreviation(team, x, '3');
    } else {
      MichiganStStages(Lower(team));
      Normalizes(team, x + " state", x + " state");
    }
  }

  lemma Michigan()
    ensures Lettered("michigan") && Avoids("michigan", Keys)
    ensures "michigan st. 3" == "michigan" + " st. " + ['3'] && "michigan st." == "michigan" + " st."
    ensures "michigan state" == "michigan" + " state"
  {
  }

  lemma MichiganStStages(o: string)
    requires o == "michigan" + " st."
    ensures Rewrite(o, o, CharRules) == "michigan" + " state"
    ensures Rewrite(o, "michigan" + " state", NameRules) == "michigan" + " state"
  {
    Michigan();
    CharStageSpellsOut("michigan", o);
    assert Avoids(o, Keys) by {
      Endings();
      AvoidsAppend("michigan", " st.", Keys);
    }
    NameStageQuiet(o, "michigan" + " state");
  }

  /** `Troy St` and `Troy St.` have the state spelled out; the entry for `troy state` is not found in them, so they stay `troy state`. */
  lemma TroySt(team: string)
    requires Lower(team) == "troy st" || Lower(team) == "troy st."
    ensures NormalizeName(team) == "troy state"
  {
    var o := Lower(team);
    TroyStStages(o);
    Normalizes(team, TroyPat, TroyPat);
  }

  lemma TroyStStages(o: string)
    requires o == "troy st" || o == "troy st."
    ensures Rewrite(o, o, CharRules) == TroyPat && Rewrite(o, TroyPat, NameRules) == TroyPat && TroyPat == "troy state"
  {
    assert TroyPat == TroyRep + " state" && Lettered(TroyRep);
    assert o == TroyRep + " st" || o == TroyRep + " st.";
    CharStageSpellsOut(TroyRep, o);
    TroyStNames(o);
  }

  /** Entries 0 to 5 lack letters of `troy st.`, and entry 6 needs an `a`. */
  lemma TroyStNames(o: string)
    requires o == "troy st" || o == "troy st."
    ensures Rewrite(o, TroyPat, NameRules) == TroyPat
  {
    var cs := {'v', 'x', 'w', 'l', 'f'};
    assert Avoids(o, cs) && 'a' !in o by {
      TroyStLetters(o);
    }
    NameEntryValues();
    assert NameRules[0..] == NameRules;
    Escapes(o, TroyPat, 0, 6, cs);
    assert TroyPat[7] == 'a';
    NameMiss(o, TroyPat, 6, 'a');
    NoEntriesLeft(o, TroyPat);
  }

  lemma TroyStLetters(o: string)
    requires o == "troy st" || o == "troy st."
    ensures Avoids(o, {'v', 'x', 'w', 'l', 'f'}) && 'a' !in o
  {
  }

  /** `Troy State` is shortened to `troy` by the last entry. */
  lemma TroyState(team: string)
    requires Lower(team) == "troy state"
    ensures NormalizeName(team) == "troy"
  {
    var o := Lower(team);
    TroyStateStages(o);
    Normalizes(team, o, TroyRep);
  }

  lemma TroyStateStages(o: string)
    requires o == "troy state"
    ensures Rewrite(o, o, CharRules) == o && Rewrite(o, o, NameRules) == TroyRep && TroyRep == "troy"
  {
    assert Lettered(o) && o[|o| - 1] == 'e';
    CharStageQuiet(o);
    TroyStateNames(o);
  }

  lemma TroyStateNames(o: string)
    requires o == TroyPat
    ensures Rewrite(o, o, NameRules) == TroyRep
  {
    var cs := {'v', 'x', 'w', 'l', 'f'};
    assert Rewrite(o, o, NameRules) == Rewrite(o, o, NameRules[6..]) by {
      TroyStateAvoids(o);
      KeyLetterValues();
      assert NameRules[0..] == NameRules;
      Escapes(o, o, 0, 6, cs);
    }
    TroyEntry();
    OccursWhole(TroyPat, true);
    NameFire(o, o, 6);
    ReplaceWhole(TroyPat, TroyRep, true);
    NoEntriesLeft(o, TroyRep);
  }

  lemma TroyStateAvoids(o: string)
    requires o == TroyPat
    ensures Avoids(o, {'v', 'x', 'w', 'l', 'f'})
  {
  }

  /**
   * `Southwest Missouri St.` has the state spelled out, but the entry for
   * `southwest missouri state` looks for its pattern in the original name,
   * which is too short to hold it: the name is not shortened to
   * `sw missouri state`.
   */
  lemma SouthwestMissouriSt(team: string)
    requires Lower(team) == "southwest missouri st" || Lower(team) == "southwest missouri st."
    ensures NormalizeName(team) == "southwest missouri state"
  {
    var o := Lower(team);
    SouthwestMissouriStages(o);
    Normalizes(team, MissouriPat, MissouriPat);
  }

  lemma SouthwestMissouriStages(o: string)
    requires o == "southwest missouri st" || o == "southwest missouri st."
    ensures Rewrite(o, o, CharRules) == MissouriPat && Rewrite(o, MissouriPat, NameRules) == MissouriPat
    ensures MissouriPat == "southwest missouri state"
  {
    var x := "southwest missouri";
    Southwest(o);
    CharStageSpellsOut(x, o);
    MissouriNames(o);
  }

  lemma Southwest(o: string)
    requires o == "southwest missouri st" || o == "southwest missouri st."
    ensures Lettered("southwest missouri") && MissouriPat == "southwest missouri" + " state"
    ensures o == "southwest missouri" + " st" || o == "southwest missouri" + " st."
    ensures Avoids(o, {'v', 'x'}) && Avoids(o, {'x', 'l', 'f', 'y'}) && |o| < |MissouriPat|
  {
    SouthwestLettered();
    SouthwestSpelling();
    SouthwestEnding(o);
    SouthwestAvoids(o);
  }

  lemma SouthwestLettered()
    ensures Lettered("southwest missouri")
  {
  }

  lemma SouthwestSpelling()
    ensures MissouriPat == "southwest missouri" + " state"
  {
  }

  lemma SouthwestEnding(o: string)
    requires o == "southwest missouri st" || o == "southwest missouri st."
    ensures o == "southwest missouri" + " st" || o == "southwest missouri" + " st."
    ensures |o| < |MissouriPat|
  {
  }

  lemma SouthwestAvoids(o: string)
    requires o == "southwest missouri st" || o == "southwest missouri st."
    ensures Avoids(o, {'v', 'x'}) && Avoids(o, {'x', 'l', 'f', 'y'})
  {
  }

  /** Entries 0 and 1 lack letters of the name, entry 2 is longer than it, and entries 3 to 6 lack letters of it. */
  lemma MissouriNames(o: string)
    requires o == "southwest missouri st" || o == "southwest missouri st."
    ensures Rewrite(o, MissouriPat, NameRules) == MissouriPat
  {
    var s := MissouriPat;
    var cs, ds := {'v', 'x'}, {'x', 'l', 'f', 'y'};
    Southwest(o);
    KeyLetterValues();
    assert Rewrite(o, s, NameRules) == Rewrite(o, s, NameRules[2..]) by {
      assert NameRules[0..] == NameRules;
      Escapes(o, s, 0, 2, cs);
    }
    assert Rewrite(o, s, NameRules[2..]) == Rewrite(o, s, NameRules[3..]) by {
      MissouriEntry();
      OccursTooShort(o, MissouriPat, true);
      RewriteFrom(o, s, NameRules, 2);
    }
    Escapes(o, s, 3, 7, ds);
    NoEntriesLeft(o, s);
  }

  lemma ChristiSpelling()
    ensures ChristiPat == ChrisPat + "ti" && ChristiRep == ChrisRep + "ti" && ChrisPat == "texas " + ChrisRep
    ensures ChrisPat[6] == 'a' && ChristiPat[2] == 'x'
  {
  }

  lemma ChrisLetters()
    ensures Lettered(ChrisPat)
  {
  }

  lemma ChrisAvoids()
    ensures Avoids(ChrisPat, {'v', 'w', 'l', 'f', 'y'}) && 'x' !in ChrisRep
  {
  }

  lemma TiLetters()
    ensures Lettered("ti") && Avoids("ti", {'v', 'w', 'l', 'f', 'y'}) && 'a' !in "ti" && 'x' !in "ti"
    ensures Lettered("texas ") && Avoids("texas ", {'v', 'w', 'l', 'f', 'y'})
  {
  }

  /**
   * The name entries over a name `texas a&m corpus chris` + `x`: the entry for
   * that pattern drops the leading `texas `, and the entry for
   * `texas a&m corpus christi`, found or not, has nothing left to replace.
   */
  lemma ChrisNames(o: string, x: string)
    requires o == ChrisPat + x && 'a' !in x && 'x' !in x && Avoids(x, {'v', 'w', 'l', 'f', 'y'})
    ensures Rewrite(o, o, NameRules) == ChrisRep + x
  {
    var cs := {'v', 'w', 'l', 'f', 'y'};
    var r := ChrisRep + x;
    assert Avoids(o, cs) && 'x' !in r by {
      ChrisAvoids();
      AvoidsAppend(ChrisPat, x, cs);
    }
    ChrisGate(o, x);
    ChrisFirst(o, r);
    ChristiSkipped(o, r);
  }

  /** Entries 3 to 6 leave alone a value without `x`, for a name without their other key letters. */
  lemma ChristiSkipped(o: string, r: string)
    requires Avoids(o, {'v', 'w', 'l', 'f', 'y'}) && 'x' !in r
    ensures Rewrite(o, r, NameRules[3..]) == r
  {
    var cs := {'v', 'w', 'l', 'f', 'y'};
    KeyLetterValues();
    assert Rewrite(o, r, NameRules[3..]) == Rewrite(o, r, NameRules[4..]) by {
      ChristiEntry();
      ChristiSpelling();
      ReplaceAbsentChar(r, ChristiPat, ChristiRep, true, 'x');
      RewriteFrom(o, r, NameRules, 3);
    }
    Escapes(o, r, 4, 7, cs);
    NoEntriesLeft(o, r);
  }

  /** The entry for `texas a&m corpus chris` rewrites a name that starts with it. */
  lemma ChrisGate(o: string, x: string)
    requires o == ChrisPat + x && 'a' !in x
    ensures Gate(o, o, Sub(ChrisPat, ChrisRep)) == ChrisRep + x
  {
    ChristiSpelling();
    OccursAtStart(ChrisPat, x, true);
    ReplaceFront(ChrisPat, x, ChrisRep, true, 'a');
  }

  /** `Texas A&M Corpus Christi` is rewritten by the entry for `texas a&m corpus chris`; the entry for `texas a&m corpus christi` then finds nothing to replace. */
  lemma CorpusChristi(team: string)
    requires Lower(team) == ChristiPat
    ensures NormalizeName(team) == ChristiRep
  {
    var o := Lower(team);
    CorpusChristiStages(o);
    Normalizes(team, o, ChristiRep);
  }

  lemma CorpusChristiStages(o: string)
    requires o == ChristiPat
    ensures Rewrite(o, o, CharRules) == o && Rewrite(o, o, NameRules) == ChristiRep
  {
    ChristiSpelling();
    TiLetters();
    assert Lettered(o) by {
      ChrisLetters();
      LetteredAppend(ChrisPat, "ti");
    }
    assert o[|o| - 1] == 'i';
    CharStageQuiet(o);
    ChrisNames(o, "ti");
  }

  /** No position of `texas ` starts a match of the `texas a&m corpus chris` entry when `texas a&m...` follows. */
  lemma TexasPrefixSkips(x: string)
    ensures Replace("texas " + ChrisPat + x, ChrisPat, ChrisRep, true)
         == "texas " + Replace(ChrisPat + x, ChrisPat, ChrisRep, true)
  {
    var a, b := "texas ", ChrisPat + x;
    assert "texas " + ChrisPat + x == a + b;
    assert ChrisPat[0] == 't' && ChrisPat[6] == 'a';
    forall i | 0 <= i < |a| ensures !MatchesPrefix((a + b)[i..], ChrisPat, true) {
      if i == 0 {
        Mismatch((a + b)[i..], ChrisPat, 6, true);
      } else {
        Mismatch((a + b)[i..], ChrisPat, 0, true);
      }
    }
    ReplaceSkip(a, b, ChrisPat, ChrisRep, true);
  }

  /**
   * On `Texas Texas A&M Corpus Christi` the entry for `texas a&m corpus chris`
   * leaves exactly `texas a&m corpus christi`, and the entry for that name,
   * found in the original, rewrites it; without that entry the cleaned name
   * would keep its `texas `.
   */
  lemma TexasTwice(team: string)
    requires Lower(team) == "texas " + ChristiPat
    ensures NormalizeName(team) == Rewrite(Lower(team), ChristiPat, NameRules[3..])
    ensures NormalizeName(team) == ChristiRep
    ensures Rewrite(Lower(team), ChristiPat, NameRules[4..]) == ChristiPat
  {
    var o := Lower(team);
    TwiceStages(o);
    Normalizes(team, o, ChristiRep);
  }

  lemma TwiceStages(o: string)
    requires o == "texas " + ChristiPat
    ensures Rewrite(o, o, CharRules) == o
    ensures Rewrite(o, o, NameRules) == Rewrite(o, ChristiPat, NameRules[3..])
    ensures Rewrite(o, ChristiPat, NameRules[3..]) == ChristiRep
    ensures Rewrite(o, ChristiPat, NameRules[4..]) == ChristiPat
  {
    var cs := {'v', 'w', 'l', 'f', 'y'};
    ChristiSpelling();
    TiLetters();
    assert o == "texas " + ChrisPat + "ti";
    assert Lettered(o) by {
      ChrisLetters();
      LetteredAppend("texas ", ChrisPat);
      LetteredAppend("texas " + ChrisPat, "ti");
    }
    assert o[|o| - 1] == 'i';
    CharStageQuiet(o);
    assert Avoids(o, cs) by {
      ChrisAvoids();
      AvoidsAppend("texas ", ChrisPat, cs);
      AvoidsAppend("texas " + ChrisPat, "ti", cs);
    }
    TwiceNames(o);
  }

  /** The name entries over `texas texas a&m corpus christi`. */
  lemma TwiceNames(o: string)
    requires o == "texas " + ChrisPat + "ti" && o == "texas " + ChristiPat && Avoids(o, {'v', 'w', 'l', 'f', 'y'})
    ensures Rewrite(o, o, NameRules) == Rewrite(o, ChristiPat, NameRules[3..])
    ensures Rewrite(o, ChristiPat, NameRules[3..]) == ChristiRep
    ensures Rewrite(o, ChristiPat, NameRules[4..]) == ChristiPat
  {
    TwiceChrisGate(o);
    ChrisFirst(o, ChristiPat);
    TwiceFromChristi(o);
  }

  /** Entries 0 and 2 are skipped, for a name without their key letters, and entry 1 gives `r`. */
  lemma ChrisFirst(o: string, r: string)
    requires Avoids(o, {'v', 'w', 'l', 'f', 'y'}) && Gate(o, o, Sub(ChrisPat, ChrisRep)) == r
    ensures Rewrite(o, o, NameRules) == Rewrite(o, r, NameRules[3..])
  {
    var cs := {'v', 'w', 'l', 'f', 'y'};
    KeyLetterValues();
    assert Rewrite(o, o, NameRules) == Rewrite(o, o, NameRules[1..]) by {
      assert NameRules[0..] == NameRules;
      Escapes(o, o, 0, 1, cs);
    }
    assert Rewrite(o, o, NameRules[1..]) == Rewrite(o, r, NameRules[2..]) by {
      ChrisEntry();
      RewriteFrom(o, o, NameRules, 1);
    }
    Escapes(o, r, 2, 3, cs);
  }

  /** The entry for `texas a&m corpus chris` finds its pattern after the first `texas ` and rewrites it there. */
  lemma TwiceChrisGate(o: string)
    requires o == "texas " + ChrisPat + "ti"
    ensures Gate(o, o, Sub(ChrisPat, ChrisRep)) == ChristiPat
  {
    ChristiSpelling();
    TiLetters();
    OccursIn("texas ", ChrisPat, "ti", true);
    TexasPrefixSkips("ti");
    ReplaceFront(ChrisPat, "ti", ChrisRep, true, 'a');
    FrontDropped("texas ", ChrisPat, ChrisRep, "ti", ChristiPat);
  }

  /** Rewriting `a + p + t` inside its `p`, where `p` is `a + r`, gives `p + t`. */
  lemma FrontDropped(a: string, p: string, r: string, t: string, c: string)
    requires |p| > 0
    requires Replace(a + p + t, p, r, true) == a + Replace(p + t, p, r, true)
    requires Replace(p + t, p, r, true) == r + t
    requires p == a + r && c == p + t
    ensures Replace(a + p + t, p, r, true) == c
  {
    Associative(a, r, t);
  }

  /** The entry for `texas a&m corpus christi` and those after it. */
  lemma TwiceFromChristi(o: string)
    requires o == "texas " + ChristiPat && Avoids(o, {'v', 'w', 'l', 'f', 'y'})
    ensures Rewrite(o, ChristiPat, NameRules[3..]) == ChristiRep
    ensures Rewrite(o, ChristiPat, NameRules[4..]) == ChristiPat
  {
    var cs := {'v', 'w', 'l', 'f', 'y'};
    NameEntryValues();
    assert Gate(o, ChristiPat, NameRules[3]) == ChristiRep by {
      OccursAtEnd("texas ", ChristiPat, true);
      ReplaceWhole(ChristiPat, ChristiRep, true);
    }
    RewriteFrom(o, ChristiPat, NameRules, 3);
    Escapes(o, ChristiRep, 4, 7, cs);
    NoEntriesLeft(o, ChristiRep);
    Escapes(o, ChristiPat, 4, 7, cs);
    NoEntriesLeft(o, ChristiPat);
  }

  /** So the two outcomes above differ. */
  lemma EntryShortens()
    ensures ChristiRep != ChristiPat
  {
    assert |ChristiRep| < |ChristiPat|;
  }
}
