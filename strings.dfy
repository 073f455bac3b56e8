/** The two string operations the device locator relies on: Rust's
    `str::contains` with a string pattern and `str::trim_end_matches` with a
    character pattern. */
module Strings {

  /** `p` occurs in `s` starting at index `i`. */
  predicate OccursAt(s: string, p: string, i: int) {
    0 <= i && i + |p| <= |s| && s[i..i + |p|] == p
  }

  lemma OccursAtShift(s: string, p: string, i: int)
    requires |s| > 0 && 0 <= i
    ensures OccursAt(s[1..], p, i) <==> OccursAt(s, p, i + 1)
  {
    if i + |p| <= |s| - 1 {
      assert s[1..][i..i + |p|] == s[i + 1..i + 1 + |p|];
    }
  }

  /** Substring search, trying each start position from the left. */
  function Contains(s: string, p: string): bool
    decreases |s|
  {
    if |s| < |p| then false
    else if s[..|p|] == p then true
    else Contains(s[1..], p)
  }

  /** The search succeeds exactly when the pattern occurs somewhere. */
  lemma {:induction false} ContainsIff(s: string, p: string)
    ensures Contains(s, p) <==> exists i :: OccursAt(s, p, i)
    decreases |s|
  {
    if |s| < |p| {
    } else if s[..|p|] == p {
      assert OccursAt(s, p, 0);
    } else {
      ContainsIff(s[1..], p);
      if Contains(s[1..], p) {
        var j :| OccursAt(s[1..], p, j);
        OccursAtShift(s, p, j);
      }
      if exists i :: OccursAt(s, p, i) {
        var j :| OccursAt(s, p, j);
        assert j != 0;
        OccursAtShift(s, p, j - 1);
      }
    }
  }

  /** `trim_end_matches(c)`: `s` with every trailing `c` removed. */
  function TrimEnd(s: string, c: char): string
    decreases |s|
  {
    if |s| > 0 && s[|s| - 1] == c then TrimEnd(s[..|s| - 1], c) else s
  }

  /** The trimmed string is the prefix of `s` that does not end in `c` and
      is followed only by copies of `c`. */
  lemma {:induction false} TrimEndIff(s: string, c: char)
    ensures TrimEnd(s, c) <= s
    ensures |TrimEnd(s, c)| == 0 || TrimEnd(s, c)[|TrimEnd(s, c)| - 1] != c
    ensures forall i :: |TrimEnd(s, c)| <= i < |s| ==> s[i] == c
    decreases |s|
  {
    if |s| > 0 && s[|s| - 1] == c {
      TrimEndIff(s[..|s| - 1], c);
    }
  }

  /** A string with no character equal to the first character of a non-empty
      pattern cannot contain that pattern. */
  lemma NoFirstCharNoMatch(s: string, p: string)
    requires |p| > 0
    requires forall k :: 0 <= k < |s| ==> s[k] != p[0]
    ensures !Contains(s, p)
  {
    ContainsIff(s, p);
  }

  /** Trimming is idempotent: a trimmed string has nothing left to trim. */
  lemma TrimEndIdempotent(s: string, c: char)
    ensures TrimEnd(TrimEnd(s, c), c) == TrimEnd(s, c)
  {
    TrimEndIff(s, c);
  }
}
