/**
 * The parts of JavaScript's string semantics the core relies on: `toLowerCase`,
 * the whitespace class shared by the regular-expression escape `\s` and by `trim`,
 * and `includes`.
 */
module Text {

  /**
   * ECMAScript WhiteSpace and LineTerminator code points: what `\s` matches and
   * what `String.prototype.trim` removes.
   */
  predicate IsWhitespace(c: char) {
    || c == '\t' || c == '\n' || c == '\U{000B}' || c == '\U{000C}' || c == '\r' || c == ' '
    || c == '\U{00A0}' || c == '\U{1680}' || ('\U{2000}' <= c <= '\U{200A}')
    || c == '\U{2028}' || c == '\U{2029}' || c == '\U{202F}' || c == '\U{205F}'
    || c == '\U{3000}' || c == '\U{FEFF}'
  }

  predicate IsAsciiUpper(c: char) { 'A' <= c <= 'Z' }
  predicate IsAsciiLower(c: char) { 'a' <= c <= 'z' }
  predicate IsDigit(c: char) { '0' <= c <= '9' }

  /** Code points outside ASCII whose lower-case form contains an ASCII letter. */
  predicate FoldsToAscii(c: char) { c == '\U{0130}' || c == '\U{212A}' }

  /**
   * The lower-case form of one character. ASCII capitals fold to ASCII; of the other
   * code points only U+0130 (capital I with dot above, folding to "i" and a combining dot)
   * and U+212A (Kelvin sign, folding to "k") reach ASCII, and both are folded.
   */
  function LowerChar(c: char): (r: string)
    ensures 1 <= |r|
    ensures forall k :: 0 <= k < |r| ==> !IsAsciiUpper(r[k]) && !FoldsToAscii(r[k])
    ensures !IsAsciiUpper(c) && !FoldsToAscii(c) ==> r == [c]
    ensures IsAsciiUpper(c) ==> |r| == 1 && IsAsciiLower(r[0])
  {
    if IsAsciiUpper(c) then [(c as int - 'A' as int + 'a' as int) as char]
    else if c == '\U{0130}' then ['i', '\U{0307}']
    else if c == '\U{212A}' then ['k']
    else [c]
  }

  /** `String.prototype.toLowerCase`, character by character. */
  function Lower(s: string): (r: string)
    ensures |s| <= |r|
    ensures forall k :: 0 <= k < |r| ==> !IsAsciiUpper(r[k]) && !FoldsToAscii(r[k])
    ensures (forall k :: 0 <= k < |s| ==> !IsAsciiUpper(s[k]) && !FoldsToAscii(s[k])) ==> r == s
  {
    if s == [] then [] else LowerChar(s[0]) + Lower(s[1..])
  }

  /** The distance between an ASCII capital and its small letter. */
  const CaseOffset: int := 'a' as int - 'A' as int

  /** `c` and `d` are the same character up to the case of an ASCII letter. */
  predicate SameIgnoringAsciiCase(c: char, d: char) {
    || c == d
    || (IsAsciiUpper(c) && d as int == c as int + CaseOffset)
    || (IsAsciiUpper(d) && c as int == d as int + CaseOffset)
  }

  /** An ASCII capital and its small letter lower-case alike. */
  lemma LowerCharIgnoresAsciiCase(c: char, d: char)
    requires SameIgnoringAsciiCase(c, d)
    ensures LowerChar(c) == LowerChar(d)
  {
  }

  /** Strings that differ only in the case of ASCII letters have the same lower-case form. */
  lemma {:induction false} LowerIgnoresAsciiCase(a: string, b: string)
    requires |a| == |b|
    requires forall k :: 0 <= k < |a| ==> SameIgnoringAsciiCase(a[k], b[k])
    ensures Lower(a) == Lower(b)
  {
    if a != [] {
      LowerCharIgnoresAsciiCase(a[0], b[0]);
      LowerIgnoresAsciiCase(a[1..], b[1..]);
    }
  }

  /** Lower-casing works character by character, so it distributes over concatenation. */
  lemma {:induction false} LowerAppend(a: string, b: string)
    ensures Lower(a + b) == Lower(a) + Lower(b)
  {
    if a == [] {
      assert a + b == b;
    } else {
      assert (a + b)[0] == a[0] && (a + b)[1..] == a[1..] + b;
      LowerAppend(a[1..], b);
    }
  }

  /** `sub` occurs in `s` starting at index `i`. */
  predicate OccursAt(s: string, sub: string, i: int) {
    0 <= i && i + |sub| <= |s| && s[i..i + |sub|] == sub
  }

  /** `String.prototype.includes`: scan `s` for a position where `sub` starts. */
  function Includes(s: string, sub: string): (r: bool)
    ensures r <==> exists i :: OccursAt(s, sub, i)
    decreases |s|
  {
    if |sub| <= |s| && s[..|sub|] == sub then
      assert OccursAt(s, sub, 0);
      true
    else if s == [] then
      assert forall i :: !OccursAt(s, sub, i);
      false
    else
      var r := Includes(s[1..], sub);
      assert forall i :: OccursAt(s[1..], sub, i) <==> OccursAt(s, sub, i + 1);
      assert !OccursAt(s, sub, 0);
      assert forall i :: OccursAt(s, sub, i) ==> i == 0 || OccursAt(s[1..], sub, i - 1);
      r
  }

  /** Every string includes the empty string, so an empty search term matches anything. */
  lemma IncludesEmpty(s: string)
    ensures Includes(s, [])
  {
    assert OccursAt(s, [], 0);
  }
}
