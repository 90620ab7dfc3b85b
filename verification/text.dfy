/** String helpers shared by the key lookups and the version script:
    `str.lower` restricted to ASCII letters, and substring search. */
module Text {
  /** ASCII lower-casing, the part of `str.lower` these names need. */
  function Lower(s: string): (t: string)
    ensures |t| == |s|
    ensures forall i :: 0 <= i < |s| ==> t[i] == LowerChar(s[i])
  {
    if |s| == 0 then "" else [LowerChar(s[0])] + Lower(s[1..])
  }

  function LowerChar(c: char): char {
    if 'A' <= c <= 'Z' then (c as int + 32) as char else c
  }

  lemma LowerIdempotent(s: string)
    ensures Lower(Lower(s)) == Lower(s)
  {
    assert forall i :: 0 <= i < |s| ==> LowerChar(LowerChar(s[i])) == LowerChar(s[i]);
  }

  /** A string without capital letters is its own lower-case form. */
  lemma LowerOfLowercase(s: string)
    requires forall i :: 0 <= i < |s| ==> !('A' <= s[i] <= 'Z')
    ensures Lower(s) == s
  {
  }

  /** `needle in s` for strings: `needle` starts at some position of `s`. */
  predicate HasSubstring(s: string, needle: string)
    decreases |s|
  {
    needle <= s || (|s| > 0 && HasSubstring(s[1..], needle))
  }
}
