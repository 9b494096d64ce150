/**
 * The three string operations the wake-word filter uses, restricted to what
 * the model needs: `String.prototype.trim`, an ASCII-only
 * `String.prototype.toLowerCase`, and `String.prototype.includes`.
 */
module JsString {

  /** ECMAScript WhiteSpace and LineTerminator code points: exactly what `trim` removes. */
  predicate IsWhitespace(c: char) {
    || c == '\t' || c == '\n' || c == '\U{B}' || c == '\U{C}' || c == '\r'
    || c == ' ' || c == '\U{A0}' || c == '\U{1680}'
    || ('\U{2000}' <= c <= '\U{200A}')
    || c == '\U{2028}' || c == '\U{2029}' || c == '\U{202F}' || c == '\U{205F}'
    || c == '\U{3000}' || c == '\U{FEFF}'
  }

  /** Number of whitespace characters at the start of `s`. */
  function LeadingSpace(s: string): (n: nat)
    ensures n <= |s|
    ensures forall k :: 0 <= k < n ==> IsWhitespace(s[k])
    ensures n < |s| ==> !IsWhitespace(s[n])
  {
    if |s| > 0 && IsWhitespace(s[0]) then 1 + LeadingSpace(s[1..]) else 0
  }

  /** Number of whitespace characters at the end of `s`. */
  function TrailingSpace(s: string): (n: nat)
    ensures n <= |s|
    ensures forall k :: |s| - n <= k < |s| ==> IsWhitespace(s[k])
    ensures n < |s| ==> !IsWhitespace(s[|s| - 1 - n])
  {
    if |s| > 0 && IsWhitespace(s[|s| - 1]) then 1 + TrailingSpace(s[..|s| - 1]) else 0
  }

  /** Whether `s` begins or ends with whitespace. */
  predicate Untrimmed(s: string) {
    |s| > 0 && (IsWhitespace(s[0]) || IsWhitespace(s[|s| - 1]))
  }

  /**
   * `String.prototype.trim`: the slice of `s` left once whitespace is cut
   * from both ends. Only whitespace is cut, and what remains neither
   * starts nor ends with whitespace.
   */
  function Trim(s: string): (r: string)
    ensures exists i, j :: 0 <= i <= j <= |s| && r == s[i..j]
                         && (forall k :: 0 <= k < i ==> IsWhitespace(s[k]))
                         && (forall k :: j <= k < |s| ==> IsWhitespace(s[k]))
    ensures !Untrimmed(r)
  {
    var i := LeadingSpace(s);
    var t := s[i..];
    var j := |s| - TrailingSpace(t);
    assert t[..|t| - TrailingSpace(t)] == s[i..j];
    s[i..j]
  }

  /** ASCII-only lower-casing of one character. */
  function LowerChar(c: char): char {
    if 'A' <= c <= 'Z' then (c as int + 32) as char else c
  }

  /** `String.prototype.toLowerCase`, restricted to the ASCII letters. */
  function Lower(s: string): (r: string)
    ensures |r| == |s|
    ensures forall i :: 0 <= i < |s| ==> r[i] == LowerChar(s[i])
    ensures forall i :: 0 <= i < |s| && 'A' <= s[i] <= 'Z' ==> r[i] as int == s[i] as int + 32
    ensures forall i :: 0 <= i < |s| && !('A' <= s[i] <= 'Z') ==> r[i] == s[i]
    ensures forall i :: 0 <= i < |r| ==> !('A' <= r[i] <= 'Z')
  {
    seq(|s|, i requires 0 <= i < |s| => LowerChar(s[i]))
  }

  /** Whether `p` occurs in `s` starting at index `i`. */
  predicate OccursAt(s: string, p: string, i: int) {
    0 <= i && i + |p| <= |s| && s[i..i + |p|] == p
  }

  /**
   * `String.prototype.includes`: tries every start position from the left.
   * True exactly when `p` occurs somewhere in `s` (so always for an empty `p`).
   */
  function Contains(s: string, p: string): (r: bool)
    ensures r <==> exists i :: OccursAt(s, p, i)
    decreases |s|
  {
    if |p| <= |s| && s[..|p|] == p then
      assert OccursAt(s, p, 0);
      true
    else if |s| == 0 then
      false
    else
      ShiftOccurrence(s, p);
      Contains(s[1..], p)
  }

  /** An occurrence not at index 0 is an occurrence in the tail, one place earlier. */
  lemma ShiftOccurrence(s: string, p: string)
    requires |s| > 0 && !OccursAt(s, p, 0)
    ensures (exists i :: OccursAt(s, p, i)) <==> (exists i :: OccursAt(s[1..], p, i))
  {
    forall i | OccursAt(s, p, i)
      ensures OccursAt(s[1..], p, i - 1)
    {
      assert s[1..][i - 1..i - 1 + |p|] == s[i..i + |p|];
    }
    forall i | OccursAt(s[1..], p, i)
      ensures OccursAt(s, p, i + 1)
    {
      assert s[1..][i..i + |p|] == s[i + 1..i + 1 + |p|];
    }
  }

  /** Lower-casing twice is lower-casing once. */
  lemma LowerIdempotent(s: string)
    ensures Lower(Lower(s)) == Lower(s)
  {
  }

  /** Lower-casing commutes with slicing. */
  lemma LowerSlice(s: string, i: int, j: int)
    requires 0 <= i <= j <= |s|
    ensures Lower(s)[i..j] == Lower(s[i..j])
  {
  }

  /** Trimming an already trimmed string changes nothing. */
  lemma TrimIdempotent(s: string)
    ensures Trim(Trim(s)) == Trim(s)
  {
    var t := Trim(s);
    assert LeadingSpace(t) == 0;
    assert TrailingSpace(t) == 0;
    assert t[0..|t|] == t;
  }
}
