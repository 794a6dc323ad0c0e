/** The string tests the classifier applies to inbox paths and file names. */
module Text {

  /**
    Python's `sub in s` on strings: `sub` occurs somewhere in `s` as a run of
    consecutive characters. It knows nothing of path segments.
   */
  predicate Contains(s: string, sub: string)
  {
    exists i :: 0 <= i <= |s| - |sub| && OccursAt(s, sub, i)
  }

  /** `sub` is the run of characters of `s` that starts at index `i`. */
  predicate OccursAt(s: string, sub: string, i: int)
    requires 0 <= i <= |s| - |sub|
  {
    s[i..i + |sub|] == sub
  }

  /** Lower-cases the ASCII letters A-Z and leaves every other character alone. */
  function LowerChar(c: char): char
  {
    if 'A' <= c <= 'Z' then (c as int + 32) as char else c
  }

  /**
    `str.lower()` restricted to ASCII. For the membership tests the model makes
    (against all-lower-case ASCII suffixes) this agrees with Python's Unicode
    lower-casing.
   */
  function Lower(s: string): (r: string)
    ensures |r| == |s|
    ensures forall i :: 0 <= i < |s| ==> r[i] == LowerChar(s[i])
  {
    seq(|s|, i requires 0 <= i < |s| => LowerChar(s[i]))
  }
}
