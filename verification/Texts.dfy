/** Python's operations on strings that the compiler applies to names. */
module Texts {
  /** `str.lower` on letters A to Z. */
  function Lower(s: string): string {
    if s == "" then "" else [if 'A' <= s[0] <= 'Z' then ((s[0] as int) + 32) as char else s[0]] + Lower(s[1..])
  }

  /** `str.upper` on letters a to z. */
  function Upper(s: string): string {
    if s == "" then "" else [if 'a' <= s[0] <= 'z' then ((s[0] as int) - 32) as char else s[0]] + Upper(s[1..])
  }

  /** `name.replace("_", "-")`. */
  function Dashed(s: string): (r: string)
    ensures |r| == |s|
    ensures forall i :: 0 <= i < |s| ==> r[i] == if s[i] == '_' then '-' else s[i]
  {
    if s == "" then "" else [if s[0] == '_' then '-' else s[0]] + Dashed(s[1..])
  }

  /** `needle in s`. */
  predicate Occurs(needle: string, s: string) { |s| >= |needle| && (needle <= s || (s != "" && Occurs(needle, s[1..]))) }
}
