/** Occurrences of a pattern in a string, shared by the text-processing units. */
module Text {
  /** pat occurs in s at index i. */
  predicate MatchAt(pat: string, s: string, i: int)
  {
    0 <= i && i + |pat| <= |s| && s[i..i + |pat|] == pat
  }

  /** pat occurs somewhere in s. */
  ghost predicate Occurs(pat: string, s: string)
  {
    exists i :: MatchAt(pat, s, i)
  }

  /** An occurrence after the first character is one in the tail. */
  lemma TailMatch(pat: string, s: string, i: int)
    requires |s| > 0 && MatchAt(pat, s[1..], i)
    ensures MatchAt(pat, s, i + 1)
  {
    assert s[1..][i..i + |pat|] == s[i + 1..i + 1 + |pat|];
  }
}
