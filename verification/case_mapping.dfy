/** ASCII case mapping, standing in for `String.prototype.toLowerCase` and
    `String.prototype.toUpperCase`. Both maps work character by character and
    preserve length; letters outside `A`-`Z` / `a`-`z` are left unchanged. */
module CaseMapping {

  predicate IsAsciiUpper(c: char) { 'A' <= c <= 'Z' }

  predicate IsAsciiLower(c: char) { 'a' <= c <= 'z' }

  /** No character of `s` is an ASCII capital letter. */
  predicate NoAsciiUpper(s: string) {
    forall i :: 0 <= i < |s| ==> !IsAsciiUpper(s[i])
  }

  /** No character of `s` is an ASCII small letter. */
  predicate NoAsciiLower(s: string) {
    forall i :: 0 <= i < |s| ==> !IsAsciiLower(s[i])
  }

  function LowerChar(c: char): (d: char)
    ensures !IsAsciiUpper(d)
    ensures d == c <==> !IsAsciiUpper(c)
    ensures IsAsciiUpper(c) ==> IsAsciiLower(d)
    ensures IsAsciiUpper(c) ==> d as int - 'a' as int == c as int - 'A' as int
    ensures IsAsciiLower(d) <==> IsAsciiLower(c) || IsAsciiUpper(c)
  {
    if IsAsciiUpper(c) then (c as int + 32) as char else c
  }

  function UpperChar(c: char): (d: char)
    ensures !IsAsciiLower(d)
    ensures d == c <==> !IsAsciiLower(c)
    ensures IsAsciiLower(c) ==> IsAsciiUpper(d)
    ensures IsAsciiLower(c) ==> d as int - 'A' as int == c as int - 'a' as int
    ensures IsAsciiUpper(d) <==> IsAsciiUpper(c) || IsAsciiLower(c)
  {
    if IsAsciiLower(c) then (c as int - 32) as char else c
  }

  /** Lower-casing then upper-casing a character is the same as upper-casing it. */
  lemma UpperAfterLowerChar(c: char)
    ensures UpperChar(LowerChar(c)) == UpperChar(c)
  {
  }

  /** The two maps undo each other on letters: a small letter comes back from
      upper-casing and lower-casing, and a capital from the reverse. */
  lemma CaseRoundTripChar(c: char)
    ensures IsAsciiLower(c) ==> LowerChar(UpperChar(c)) == c
    ensures IsAsciiUpper(c) ==> UpperChar(LowerChar(c)) == c
  {
  }

  /** `toLowerCase`: every character is mapped by `LowerChar`, nothing else changes. */
  function ToLower(s: string): (r: string)
    ensures |r| == |s|
    ensures forall i :: 0 <= i < |s| ==> r[i] == LowerChar(s[i])
    ensures NoAsciiUpper(r)
  {
    if s == [] then [] else [LowerChar(s[0])] + ToLower(s[1..])
  }

  /** `toUpperCase`: every character is mapped by `UpperChar`, nothing else changes. */
  function ToUpper(s: string): (r: string)
    ensures |r| == |s|
    ensures forall i :: 0 <= i < |s| ==> r[i] == UpperChar(s[i])
    ensures NoAsciiLower(r)
  {
    if s == [] then [] else [UpperChar(s[0])] + ToUpper(s[1..])
  }

  /** Upper-casing absorbs a preceding lower-casing. */
  lemma UpperAfterLower(s: string)
    ensures ToUpper(ToLower(s)) == ToUpper(s)
  {
    forall i | 0 <= i < |s|
      ensures ToUpper(ToLower(s))[i] == ToUpper(s)[i]
    {
      UpperAfterLowerChar(s[i]);
    }
  }
}
