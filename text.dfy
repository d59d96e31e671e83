/** The two string operations the service relies on: `toLowerCase` (modelled on
    the ASCII letters) and `includes` (substring containment). */
module Text {

  predicate IsUpper(c: char) { 'A' <= c <= 'Z' }

  function LowerChar(c: char): (r: char)
    ensures !IsUpper(r)
    ensures IsUpper(c) ==> r as int == c as int + 32
    ensures !IsUpper(c) ==> r == c
  {
    if IsUpper(c) then (c as int + 32) as char else c
  }

  /** `toLowerCase`: the same characters with every upper-case letter lowered. */
  function ToLower(s: string): (r: string)
    ensures |r| == |s|
    ensures forall i :: 0 <= i < |s| ==> r[i] == LowerChar(s[i])
  {
    if s == [] then [] else [LowerChar(s[0])] + ToLower(s[1..])
  }

  /** Lowering twice is lowering once, so comparing lowered strings is a stable test. */
  lemma ToLowerIdempotent(s: string)
    ensures ToLower(ToLower(s)) == ToLower(s)
  {
    var t := ToLower(s);
    assert forall i :: 0 <= i < |t| ==> ToLower(t)[i] == t[i];
  }

  /** `pat` occurs in `text` starting at index `i`. */
  predicate OccursAt(text: string, pat: string, i: nat)
  {
    i + |pat| <= |text| && text[i..i + |pat|] == pat
  }

  /** `pat` occurs somewhere in `text`. */
  ghost predicate Occurs(text: string, pat: string)
  {
    exists i: nat :: OccursAt(text, pat, i)
  }

  /** `text.includes(pat)`: holds exactly when `pat` occurs in `text` at some index. */
  function Contains(text: string, pat: string): (r: bool)
    ensures r <==> Occurs(text, pat)
    decreases |text|
  {
    if pat <= text then
      assert OccursAt(text, pat, 0) by { assert text[0..|pat|] == pat; }
      true
    else if |text| == 0 then
      false
    else
      var rest := Contains(text[1..], pat);
      assert !OccursAt(text, pat, 0) by {
        if |pat| <= |text| { assert text[0..|pat|] == text[..|pat|]; }
      }
      assert forall i: nat :: OccursAt(text[1..], pat, i) ==> OccursAt(text, pat, i + 1) by {
        forall i: nat | OccursAt(text[1..], pat, i) ensures OccursAt(text, pat, i + 1) {
          assert text[1..][i..i + |pat|] == text[i + 1..i + 1 + |pat|];
        }
      }
      assert forall i: nat :: OccursAt(text, pat, i) && i > 0 ==> OccursAt(text[1..], pat, i - 1) by {
        forall i: nat | OccursAt(text, pat, i) && i > 0 ensures OccursAt(text[1..], pat, i - 1) {
          assert text[1..][i - 1..i - 1 + |pat|] == text[i..i + |pat|];
        }
      }
      rest
  }
}
