/** ASCII case mapping: what `String.toUpperCase` and `String.toLowerCase` do on ASCII text. */
module AsciiCase {

  predicate IsLower(ch: char) {
    'a' <= ch <= 'z'
  }

  predicate IsUpper(ch: char) {
    'A' <= ch <= 'Z'
  }

  /** The distance between a letter and the same letter in the other case. */
  const CaseOffset: int := 'a' as int - 'A' as int

  function UpperChar(ch: char): (u: char)
    ensures IsLower(ch) ==> IsUpper(u) && u as int + CaseOffset == ch as int
    ensures !IsLower(ch) ==> u == ch
  {
    if IsLower(ch) then (ch as int - CaseOffset) as char else ch
  }

  function LowerChar(ch: char): (l: char)
    ensures IsUpper(ch) ==> IsLower(l) && l as int == ch as int + CaseOffset
    ensures !IsUpper(ch) ==> l == ch
  {
    if IsUpper(ch) then (ch as int + CaseOffset) as char else ch
  }

  /** The text with every lower-case letter replaced by its upper-case letter. */
  function ToUpper(s: string): (r: string)
    ensures |r| == |s|
    ensures forall i :: 0 <= i < |s| ==> r[i] == UpperChar(s[i])
  {
    if s == [] then [] else [UpperChar(s[0])] + ToUpper(s[1..])
  }

  /** The text with every upper-case letter replaced by its lower-case letter. */
  function ToLower(s: string): (r: string)
    ensures |r| == |s|
    ensures forall i :: 0 <= i < |s| ==> r[i] == LowerChar(s[i])
  {
    if s == [] then [] else [LowerChar(s[0])] + ToLower(s[1..])
  }

  /** Upper-casing after lower-casing is the same as upper-casing: lower-casing loses
      nothing that upper-casing would keep. */
  lemma UpperOfLower(s: string)
    ensures ToUpper(ToLower(s)) == ToUpper(s)
  {
  }

  /** Upper-casing is idempotent, and it leaves a text alone exactly when the text
      holds no lower-case letter. */
  lemma UpperFixedPoint(s: string)
    ensures ToUpper(ToUpper(s)) == ToUpper(s)
    ensures ToUpper(s) == s <==> forall i :: 0 <= i < |s| ==> !IsLower(s[i])
  {
  }
}
