/**
 * JavaScript's measure of a string. `length` counts UTF-16 code units, so a character outside
 * the Basic Multilingual Plane (an emoji, say) counts twice; zod's `.min(n)` compares that
 * length. PostgreSQL's `varchar(n)` counts characters instead, as `|s|` does.
 */
module JsStrings {
  /** `s.length`. */
  function Utf16Length(s: string): (n: nat)
    ensures |s| <= n <= 2 * |s|
  {
    if s == [] then 0 else (if s[0] as int >= 0x1_0000 then 2 else 1) + Utf16Length(s[1..])
  }

  /** For text within the Basic Multilingual Plane the two measures agree. */
  lemma {:induction false} Utf16LengthOfBmp(s: string)
    requires forall i :: 0 <= i < |s| ==> (s[i] as int) < 0x1_0000
    ensures Utf16Length(s) == |s|
  {
    if s != [] {
      Utf16LengthOfBmp(s[1..]);
    }
  }

  /** A string of n characters has at least n code units, one more for each astral character. */
  lemma {:induction false} Utf16LengthOfAstral(s: string)
    requires s != [] && (s[0] as int) >= 0x1_0000
    ensures Utf16Length(s) >= |s| + 1
  {
    assert Utf16Length(s) == 2 + Utf16Length(s[1..]);
  }
}
