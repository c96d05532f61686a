/**
 * The few operations of Python's `str` that the URL features use: `count`,
 * `split`, `join`, `lower`, `isdigit` and the substring test `in`.
 * Characters are Unicode scalar values; case and digits are ASCII only.
 */
module Strings {

  /** `c.isdigit()`, restricted to the ASCII digits. */
  predicate IsDigit(c: char) {
    '0' <= c <= '9'
  }

  /** `re.search(r'\d', s)` succeeds. */
  predicate ContainsDigit(s: string) {
    exists k :: 0 <= k < |s| && IsDigit(s[k])
  }

  /** The ASCII part of `str.lower()` on one character. */
  function LowerChar(c: char): char {
    if 'A' <= c <= 'Z' then (c as int + 32) as char else c
  }

  /**
   * `s.lower()`: every character mapped through LowerChar. No ASCII capital
   * is left, and every other character is kept where it was.
   */
  function Lower(s: string): (r: string)
    ensures |r| == |s|
    ensures forall i :: 0 <= i < |s| ==> r[i] == LowerChar(s[i])
    ensures forall i :: 0 <= i < |r| ==> !('A' <= r[i] <= 'Z')
    ensures forall i :: 0 <= i < |s| && !('A' <= s[i] <= 'Z') ==> r[i] == s[i]
  {
    seq(|s|, i requires 0 <= i < |s| => LowerChar(s[i]))
  }

  /** Lower-casing twice is lower-casing once. */
  lemma LowerIdempotent(s: string)
    ensures Lower(Lower(s)) == Lower(s)
  {
    var r := Lower(s);
    assert forall i :: 0 <= i < |r| ==> Lower(r)[i] == r[i];
  }

  /** Index of the first character of `s` that is in `stops`, or `|s|` when there is none. */
  function FindFirst(s: string, stops: set<char>): (i: nat)
    ensures i <= |s|
  {
    if s == [] then 0
    else if s[0] in stops then 0
    else 1 + FindFirst(s[1..], stops)
  }

  /** FindFirst stops at a character of `stops` and passes over none. */
  lemma {:induction false} FindFirstStops(s: string, stops: set<char>)
    ensures forall k :: 0 <= k < FindFirst(s, stops) ==> s[k] !in stops
    ensures FindFirst(s, stops) < |s| ==> s[FindFirst(s, stops)] in stops
  {
    if s != [] && s[0] !in stops {
      FindFirstStops(s[1..], stops);
      assert forall k :: 1 <= k < |s| ==> s[k] == s[1..][k - 1];
    }
  }

  /** The postcondition of FindFirst determines its result. */
  lemma {:induction false} FindFirstUnique(s: string, stops: set<char>, i: nat)
    requires i <= |s|
    requires forall k :: 0 <= k < i ==> s[k] !in stops
    requires i < |s| ==> s[i] in stops
    ensures FindFirst(s, stops) == i
  {
    if s != [] && s[0] !in stops {
      assert i > 0;
      assert forall k :: 0 <= k < i - 1 ==> s[1..][k] == s[k + 1];
      FindFirstUnique(s[1..], stops, i - 1);
    }
  }

  /** `s.count(c)` for a single character. */
  function CountChar(s: string, c: char): (n: nat)
    ensures n <= |s|
    ensures n == 0 <==> c !in s
  {
    if s == [] then 0
    else
      assert s == [s[0]] + s[1..];
      (if s[0] == c then 1 else 0) + CountChar(s[1..], c)
  }

  /** `s.count(c)` is the multiplicity of `c` in the multiset of the characters of `s`. */
  lemma {:induction false} CountCharMultiplicity(s: string, c: char)
    ensures CountChar(s, c) == multiset(s)[c]
  {
    if s != [] {
      assert s == [s[0]] + s[1..];
      CountCharMultiplicity(s[1..], c);
    }
  }

  /** `sum(ch.isdigit() for ch in s)`: the number of ASCII digits of `s`. */
  function CountDigits(s: string): (n: nat)
    ensures n <= |s|
    ensures n == 0 <==> !ContainsDigit(s)
    ensures n == |s| <==> forall k :: 0 <= k < |s| ==> IsDigit(s[k])
  {
    if s == [] then 0
    else
      assert forall k :: 1 <= k < |s| ==> s[k] == s[1..][k - 1];
      (if IsDigit(s[0]) then 1 else 0) + CountDigits(s[1..])
  }

  /** `w` occurs in `s` at index `i`. */
  predicate OccursAt(w: string, s: string, i: int) {
    0 <= i && i + |w| <= |s| && s[i..i + |w|] == w
  }

  /** Python's `w in s` for strings: `w` is a substring of `s`. */
  predicate IsSubstring(w: string, s: string) {
    exists i :: 0 <= i <= |s| && OccursAt(w, s, i)
  }

  /**
   * `s.count(w)`: the number of non-overlapping occurrences of `w` in `s`,
   * scanning from the left; an empty `w` is counted `|s| + 1` times.
   */
  function CountOccurrences(s: string, w: string): (n: nat)
    ensures |w| > 0 ==> n * |w| <= |s|
    decreases |s|
  {
    if |w| == 0 then |s| + 1
    else if |s| < |w| then 0
    else if s[..|w|] == w then 1 + CountOccurrences(s[|w|..], w)
    else CountOccurrences(s[1..], w)
  }

  /** An occurrence at the front is counted once and the scan goes on after it. */
  lemma CountPrefix(s: string, w: string)
    requires |w| > 0
    ensures CountOccurrences(w + s, w) == 1 + CountOccurrences(s, w)
  {
    assert (w + s)[..|w|] == w;
    assert (w + s)[|w|..] == s;
  }

  /** Two back-to-back occurrences count twice: `"loginlogin".count("login") == 2`. */
  lemma RepeatedWordCountedTwice()
    ensures CountOccurrences("loginlogin", "login") == 2
  {
    CountPrefix("", "login");
    assert "login" + "" == "login";
    CountPrefix("login", "login");
    assert "login" + "login" == "loginlogin";
  }

  /** `s.count(w)` is positive exactly when `w in s`. */
  lemma {:induction false} CountOccurrencesPositive(s: string, w: string)
    ensures CountOccurrences(s, w) > 0 <==> IsSubstring(w, s)
    decreases |s|
  {
    if |w| == 0 {
      assert OccursAt(w, s, 0);
    } else if |s| < |w| {
    } else if s[..|w|] == w {
      assert OccursAt(w, s, 0);
    } else {
      CountOccurrencesPositive(s[1..], w);
      if IsSubstring(w, s) {
        var i :| 0 <= i <= |s| && OccursAt(w, s, i);
        assert i != 0;
        assert s[1..][i - 1..i - 1 + |w|] == s[i..i + |w|];
        assert OccursAt(w, s[1..], i - 1);
      }
      if IsSubstring(w, s[1..]) {
        var j :| 0 <= j <= |s[1..]| && OccursAt(w, s[1..], j);
        assert s[j + 1..j + 1 + |w|] == s[1..][j..j + |w|];
        assert OccursAt(w, s, j + 1);
      }
    }
  }

  /**
   * `re.split('[...]', s)` on a class of single characters: the pieces of `s`
   * between the characters of `seps`, empty pieces included.
   */
  function SplitAny(s: string, seps: set<char>): (parts: seq<string>)
    ensures |parts| >= 1
    ensures forall i, k :: 0 <= i < |parts| && 0 <= k < |parts[i]| ==> parts[i][k] !in seps
    decreases |s|
  {
    var i := FindFirst(s, seps);
    FindFirstStops(s, seps);
    if i == |s| then [s] else [s[..i]] + SplitAny(s[i + 1..], seps)
  }

  /** `s.split(sep)` for a one-character separator. */
  function Split(s: string, sep: char): (parts: seq<string>)
    ensures |parts| >= 1
    ensures forall i, k :: 0 <= i < |parts| && 0 <= k < |parts[i]| ==> parts[i][k] != sep
  {
    SplitAny(s, {sep})
  }

  /** `sep.join(parts)`. */
  function Join(parts: seq<string>, sep: char): string {
    if parts == [] then ""
    else if |parts| == 1 then parts[0]
    else parts[0] + [sep] + Join(parts[1..], sep)
  }

  /** Joining the pieces of a split gives back the string. */
  lemma {:induction false} JoinSplit(s: string, sep: char)
    ensures Join(Split(s, sep), sep) == s
    decreases |s|
  {
    var i := FindFirst(s, {sep});
    FindFirstStops(s, {sep});
    if i < |s| {
      var rest := Split(s[i + 1..], sep);
      assert Split(s, sep) == [s[..i]] + rest;
      JoinSplit(s[i + 1..], sep);
      assert s == s[..i] + [sep] + s[i + 1..];
    }
  }

  /** Splitting a join of separator-free pieces gives back the pieces. */
  lemma {:induction false} SplitJoin(parts: seq<string>, sep: char)
    requires |parts| >= 1
    requires forall i, k :: 0 <= i < |parts| && 0 <= k < |parts[i]| ==> parts[i][k] != sep
    ensures Split(Join(parts, sep), sep) == parts
    decreases |parts|
  {
    var s := Join(parts, sep);
    if |parts| == 1 {
      FindFirstUnique(s, {sep}, |s|);
    } else {
      var p := parts[0];
      assert s == p + [sep] + Join(parts[1..], sep);
      FindFirstUnique(s, {sep}, |p|);
      assert s[..|p|] == p;
      assert s[|p| + 1..] == Join(parts[1..], sep);
      SplitJoin(parts[1..], sep);
      assert parts == [p] + parts[1..];
    }
  }

  /** `s.count(c)` adds up over a concatenation. */
  lemma CountCharAppend(a: string, b: string, c: char)
    ensures CountChar(a + b, c) == CountChar(a, c) + CountChar(b, c)
  {
    CountCharMultiplicity(a + b, c);
    CountCharMultiplicity(a, c);
    CountCharMultiplicity(b, c);
  }

  /** `len(s.split(c)) == s.count(c) + 1`. */
  lemma {:induction false} SplitCount(s: string, sep: char)
    ensures |Split(s, sep)| == CountChar(s, sep) + 1
    decreases |s|
  {
    var i := FindFirst(s, {sep});
    FindFirstStops(s, {sep});
    if i < |s| {
      SplitCount(s[i + 1..], sep);
      assert s == s[..i] + ([s[i]] + s[i + 1..]);
      CountCharAppend(s[..i], [s[i]] + s[i + 1..], sep);
      CountCharAppend([s[i]], s[i + 1..], sep);
      assert sep !in s[..i];
    }
  }

  /** Where the `j`-th piece of a split starts in the split string. */
  lemma {:induction false} SplitAnyPieceOffset(s: string, seps: set<char>, j: nat) returns (offset: nat)
    requires j < |SplitAny(s, seps)|
    ensures OccursAt(SplitAny(s, seps)[j], s, offset)
    decreases |s|
  {
    var i := FindFirst(s, seps);
    if i == |s| {
      offset := 0;
      assert s[0..|s|] == s;
    } else if j == 0 {
      offset := 0;
      assert SplitAny(s, seps)[0] == s[..i];
    } else {
      var t := s[i + 1..];
      assert SplitAny(s, seps)[j] == SplitAny(t, seps)[j - 1];
      var k := SplitAnyPieceOffset(t, seps, j - 1);
      OccursInSuffix(SplitAny(t, seps)[j - 1], s, i + 1, k);
      offset := i + 1 + k;
    }
  }

  /** An occurrence in the suffix of `s` from `d` on is an occurrence in `s`, `d` further on. */
  lemma OccursInSuffix(w: string, s: string, d: nat, k: int)
    requires d <= |s| && OccursAt(w, s[d..], k)
    ensures OccursAt(w, s, d + k)
  {
    assert s[d + k..d + k + |w|] == s[d..][k..k + |w|];
  }

  /** Every piece of a split is a substring of the split string. */
  lemma SplitAnyPieceIsSubstring(s: string, seps: set<char>, j: nat)
    requires j < |SplitAny(s, seps)|
    ensures IsSubstring(SplitAny(s, seps)[j], s)
  {
    var offset := SplitAnyPieceOffset(s, seps, j);
    assert OccursAt(SplitAny(s, seps)[j], s, offset);
  }

  /** A substring is no longer than the string it occurs in. */
  lemma SubstringShorter(w: string, s: string)
    requires IsSubstring(w, s)
    ensures |w| <= |s|
  {
  }
}
