/**
 * The string operations the pipeline relies on: Python's `str.lower`,
 * `str.replace`, `re.sub` with a pattern made of literal characters and `.`,
 * slicing, and `int()` on a decimal literal.
 */
module Text {
  import opened Common

  predicate IsUpper(c: char) { 'A' <= c <= 'Z' }

  predicate IsDigit(c: char) { '0' <= c <= '9' }

  /** The ASCII characters that `\s` matches. */
  predicate IsSpace(c: char) { c == ' ' || c == '\t' || c == '\n' || c == '\r' || c as int == 11 || c as int == 12 }

  function LowerChar(c: char): (r: char)
    ensures !IsUpper(r)
    ensures IsUpper(c) ==> r as int == c as int + 32
    ensures !IsUpper(c) ==> r == c
  {
    if IsUpper(c) then (c as int + 32) as char else c
  }

  /** `s.lower()`, restricted to ASCII letters. */
  function Lower(s: string): (r: string)
    ensures |r| == |s|
    ensures forall i :: 0 <= i < |s| ==> r[i] == LowerChar(s[i])
  {
    seq(|s|, i requires 0 <= i < |s| => LowerChar(s[i]))
  }

  lemma LowerHasNoUpper(s: string)
    ensures forall c :: c in Lower(s) ==> !IsUpper(c)
  {
    forall c | c in Lower(s) ensures !IsUpper(c) {
      var i :| 0 <= i < |s| && Lower(s)[i] == c;
    }
  }

  lemma LowerOfLower(s: string)
    requires forall i :: 0 <= i < |s| ==> !IsUpper(s[i])
    ensures Lower(s) == s
  {
  }

  /** Whether pattern character `p` matches `c`; with `wild`, `.` matches any character but a newline. */
  predicate CharMatches(p: char, c: char, wild: bool)
  {
    p == c || (wild && p == '.' && c != '\n')
  }

  /** Whether `pat` matches the start of `s`. */
  predicate MatchesPrefix(s: string, pat: string, wild: bool)
  {
    |pat| <= |s| && forall j :: 0 <= j < |pat| ==> CharMatches(pat[j], s[j], wild)
  }

  /**
   * Replaces, scanning left to right, every non-overlapping match of `pat`
   * by `rep`. With `wild == false` this is `s.replace(pat, rep)`; with
   * `wild == true` it is `re.sub(pat, rep, s)` for a pattern whose only
   * metacharacter is `.`.
   */
  function Replace(s: string, pat: string, rep: string, wild: bool): string
    requires |pat| > 0
    decreases |s|
  {
    if s == [] then []
    else if MatchesPrefix(s, pat, wild) then rep + Replace(s[|pat|..], pat, rep, wild)
    else [s[0]] + Replace(s[1..], pat, rep, wild)
  }

  /** `s.replace(pat, rep)`. */
  function ReplaceAll(s: string, pat: string, rep: string): string
    requires |pat| > 0
  {
    Replace(s, pat, rep, false)
  }

  /** Every character of a replacement's result comes from the input or from the replacement text. */
  lemma {:induction false} ReplaceChars(s: string, pat: string, rep: string, wild: bool)
    requires |pat| > 0
    ensures forall c :: c in Replace(s, pat, rep, wild) ==> c in s || c in rep
    decreases |s|
  {
    if s == [] {
    } else if MatchesPrefix(s, pat, wild) {
      ReplaceChars(s[|pat|..], pat, rep, wild);
      assert forall c :: c in s[|pat|..] ==> c in s;
    } else {
      ReplaceChars(s[1..], pat, rep, wild);
      assert forall c :: c in s[1..] ==> c in s;
    }
  }

  /** Replacing a single (non-wildcard) character `c` leaves no `c` behind unless the replacement has one. */
  lemma {:induction false} ReplaceCharRemoves(s: string, c: char, rep: string, wild: bool)
    requires !wild || c != '.'
    ensures forall x :: x in Replace(s, [c], rep, wild) ==> (x in s && x != c) || x in rep
    decreases |s|
  {
    if s == [] {
    } else if MatchesPrefix(s, [c], wild) {
      ReplaceCharRemoves(s[1..], c, rep, wild);
      assert forall x :: x in s[1..] ==> x in s;
    } else {
      assert s[0] != c by { assert !CharMatches(c, s[0], wild); }
      ReplaceCharRemoves(s[1..], c, rep, wild);
      assert forall x :: x in s[1..] ==> x in s;
    }
  }

  /** A pattern holding a literal character that `s` lacks never matches, so nothing changes. */
  lemma {:induction false} ReplaceAbsent(s: string, pat: string, rep: string, wild: bool, k: nat)
    requires k < |pat| && pat[k] !in s && (!wild || pat[k] != '.')
    ensures Replace(s, pat, rep, wild) == s
    decreases |s|
  {
    if s != [] {
      if k < |s| {
        assert s[k] in s;
        assert !CharMatches(pat[k], s[k], wild);
      }
      assert !MatchesPrefix(s, pat, wild);
      assert forall x :: x in s[1..] ==> x in s;
      ReplaceAbsent(s[1..], pat, rep, wild, k);
    }
  }

  /** `ReplaceAbsent` with the missing character named instead of its position. */
  lemma ReplaceAbsentChar(s: string, pat: string, rep: string, wild: bool, c: char)
    requires c in pat && c !in s && (!wild || c != '.')
    ensures Replace(s, pat, rep, wild) == s
  {
    var k :| 0 <= k < |pat| && pat[k] == c;
    ReplaceAbsent(s, pat, rep, wild, k);
  }

  /** A match at the very start is replaced and scanning resumes after it. */
  lemma ReplaceHit(pat: string, x: string, rep: string, wild: bool)
    requires |pat| > 0
    ensures Replace(pat + x, pat, rep, wild) == rep + Replace(x, pat, rep, wild)
  {
    assert MatchesPrefix(pat + x, pat, wild);
    assert (pat + x)[|pat|..] == x;
  }

  /** A prefix at none of whose positions the pattern matches is copied unchanged. */
  lemma {:induction false} ReplaceSkip(a: string, b: string, pat: string, rep: string, wild: bool)
    requires |pat| > 0
    requires forall i :: 0 <= i < |a| ==> !MatchesPrefix((a + b)[i..], pat, wild)
    ensures Replace(a + b, pat, rep, wild) == a + Replace(b, pat, rep, wild)
    decreases |a|
  {
    if a != [] {
      assert !MatchesPrefix((a + b)[0..], pat, wild);
      assert (a + b)[0..] == a + b;
      assert (a + b)[1..] == a[1..] + b;
      forall i | 0 <= i < |a[1..]| ensures !MatchesPrefix((a[1..] + b)[i..], pat, wild) {
        assert (a[1..] + b)[i..] == (a + b)[i + 1..];
      }
      ReplaceSkip(a[1..], b, pat, rep, wild);
    }
  }

  /** A character where `s` and `pat` differ rules out a match at the start of `s`. */
  lemma Mismatch(s: string, pat: string, j: nat, wild: bool)
    requires j < |pat| && j < |s| && s[j] != pat[j] && (!wild || pat[j] != '.')
    ensures !MatchesPrefix(s, pat, wild)
  {
  }

  /** `re.search(pat, s)` (or `pat in s` without `wild`): a match of `pat` starts at some position of `s`. */
  predicate Occurs(s: string, pat: string, wild: bool)
  {
    exists i :: 0 <= i <= |s| && MatchesPrefix(s[i..], pat, wild)
  }

  /** A pattern holding a literal character that `s` lacks is not found in `s`. */
  lemma OccursAbsent(s: string, pat: string, wild: bool, c: char)
    requires c in pat && c !in s && (!wild || c != '.')
    ensures !Occurs(s, pat, wild)
  {
    var k :| 0 <= k < |pat| && pat[k] == c;
    forall i | 0 <= i <= |s| ensures !MatchesPrefix(s[i..], pat, wild) {
      if k < |s[i..]| {
        assert s[i..][k] == s[i + k] && s[i + k] in s;
        assert !CharMatches(pat[k], s[i..][k], wild);
      }
    }
  }

  /** A one-character pattern is found exactly when the character occurs. */
  /** A pattern longer than the string does not occur in it. */
  lemma OccursTooShort(s: string, pat: string, wild: bool)
    requires |s| < |pat|
    ensures !Occurs(s, pat, wild)
  {
  }

  lemma OccursChar(s: string, c: char, wild: bool)
    requires !wild || c != '.'
    ensures Occurs(s, [c], wild) <==> c in s
  {
    if c in s {
      var i :| 0 <= i < |s| && s[i] == c;
      assert s[i..][0] == c && MatchesPrefix(s[i..], [c], wild);
    } else {
      OccursAbsent(s, [c], wild, c);
    }
  }

  lemma Associative(a: string, b: string, c: string)
    ensures a + (b + c) == a + b + c
  {
  }

  /** A pattern occurs wherever it is written out. */
  lemma OccursIn(a: string, pat: string, b: string, wild: bool)
    ensures Occurs(a + pat + b, pat, wild)
  {
    var s := a + pat + b;
    assert s[|a|..] == pat + b;
    assert MatchesPrefix(s[|a|..], pat, wild);
  }

  lemma OccursAtEnd(a: string, pat: string, wild: bool)
    ensures Occurs(a + pat, pat, wild)
  {
    OccursIn(a, pat, [], wild);
    assert a + pat + [] == a + pat;
  }

  lemma OccursAtStart(pat: string, b: string, wild: bool)
    ensures Occurs(pat + b, pat, wild)
  {
    OccursIn([], pat, b, wild);
    assert [] + pat + b == pat + b;
  }

  lemma OccursWhole(pat: string, wild: bool)
    ensures Occurs(pat, pat, wild)
  {
    OccursAtEnd([], pat, wild);
    assert [] + pat == pat;
  }

  /** A string that is exactly the pattern is replaced whole. */
  lemma ReplaceWhole(pat: string, rep: string, wild: bool)
    requires |pat| > 0
    ensures Replace(pat, pat, rep, wild) == rep
  {
    ReplaceHit(pat, [], rep, wild);
    assert pat + [] == pat && rep + [] == rep;
  }

  /** A match at the start is replaced, and a rest lacking a literal character of the pattern is copied. */
  lemma ReplaceFront(pat: string, x: string, rep: string, wild: bool, c: char)
    requires c in pat && c !in x && (!wild || c != '.')
    ensures Replace(pat + x, pat, rep, wild) == rep + x
  {
    ReplaceHit(pat, x, rep, wild);
    ReplaceAbsentChar(x, pat, rep, wild, c);
  }

  /** Replacing one character by another changes exactly the positions holding it. */
  lemma {:induction false} ReplaceCharPointwise(s: string, c: char, d: char)
    ensures |Replace(s, [c], [d], false)| == |s|
    ensures forall i :: 0 <= i < |s| ==> Replace(s, [c], [d], false)[i] == if s[i] == c then d else s[i]
    decreases |s|
  {
    if s != [] {
      ReplaceCharPointwise(s[1..], c, d);
      assert MatchesPrefix(s, [c], false) <==> s[0] == c;
      assert forall i :: 1 <= i < |s| ==> s[1..][i - 1] == s[i];
    }
  }

  /** Python's slice `s[i:j]` for non-negative bounds: bounds past the end are clamped. */
  function Slice(s: string, i: nat, j: nat): string
  {
    var lo := if i <= |s| then i else |s|;
    var hi := if j <= |s| then j else |s|;
    if lo <= hi then s[lo..hi] else []
  }

  predicate AllDigits(s: string) { forall i :: 0 <= i < |s| ==> IsDigit(s[i]) }

  function DigitValue(c: char): (d: nat)
    requires IsDigit(c)
    ensures d <= 9
  {
    c as int - '0' as int
  }

  /** The value of a string of decimal digits, most significant first. */
  function DigitsValue(s: string): nat
    requires AllDigits(s)
  {
    if s == [] then 0 else 10 * DigitsValue(s[..|s| - 1]) + DigitValue(s[|s| - 1])
  }

  /** The sign `int()` reads in front of the digits: -1 after a `-`, 1 otherwise. */
  function SignOf(s: string): int
  {
    if |s| > 0 && s[0] == '-' then -1 else 1
  }

  /** The text after an optional leading sign. */
  function Unsigned(s: string): string
  {
    if |s| > 0 && (s[0] == '-' || s[0] == '+') then s[1..] else s
  }

  /** Whether Python's `int()` accepts `s`: an optional sign followed by at least one digit. */
  predicate IsIntLiteral(s: string)
  {
    (|s| > 0 && AllDigits(s)) || (|s| > 1 && (s[0] == '-' || s[0] == '+') && AllDigits(s[1..]))
  }

  /**
   * `int(s)` for a decimal literal: the digits after the optional sign, read
   * most significant first, negated after a `-`; anything else raises `ValueError`.
   */
  function ParseInt(s: string): (r: Result<int>)
    ensures r.Ok? <==> IsIntLiteral(s)
    ensures r.Err? ==> r.error == ValueError(s)
    ensures r.Ok? ==> AllDigits(Unsigned(s)) && r.value == SignOf(s) * DigitsValue(Unsigned(s))
  {
    if |s| > 0 && AllDigits(s) then Ok(DigitsValue(s))
    else if |s| > 1 && (s[0] == '-' || s[0] == '+') && AllDigits(s[1..]) then
      Ok(if s[0] == '-' then -(DigitsValue(s[1..]) as int) else DigitsValue(s[1..]))
    else Err(ValueError(s))
  }
}
