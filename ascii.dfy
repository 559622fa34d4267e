/**
  Locale-independent lower-casing on the ASCII range: 'A'..'Z' become
  'a'..'z', every other character passes through unchanged.
*/
module Ascii {

  predicate IsUpper(ch: char) {
    'A' <= ch <= 'Z'
  }

  /** The string holds no ASCII upper-case letter. */
  predicate HasNoUpper(s: string) {
    forall i :: 0 <= i < |s| ==> !IsUpper(s[i])
  }

  function ToLower(ch: char): (r: char)
    ensures !IsUpper(r)
    ensures IsUpper(ch) ==> 'a' <= r <= 'z' && r as int - ch as int == 'a' as int - 'A' as int
    ensures !IsUpper(ch) ==> r == ch
  {
    if IsUpper(ch) then (ch as int + ('a' as int - 'A' as int)) as char else ch
  }

  /** Lower-cases every character of `s` in place, keeping the length. */
  function LowerCase(s: string): (r: string)
    ensures |r| == |s|
    ensures forall i :: 0 <= i < |s| ==> r[i] == ToLower(s[i])
    ensures HasNoUpper(r)
  {
    if s == [] then [] else [ToLower(s[0])] + LowerCase(s[1..])
  }

  /** A string already free of upper-case letters is left as it is. */
  lemma LowerCaseKeepsLower(s: string)
    requires HasNoUpper(s)
    ensures LowerCase(s) == s
  {
  }

  /** Lower-casing twice is the same as lower-casing once. */
  lemma LowerCaseIdempotent(s: string)
    ensures LowerCase(LowerCase(s)) == LowerCase(s)
  {
  }
}
