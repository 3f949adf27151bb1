/**
 * The string operations the audit query relies on: commons-lang StringUtils.isBlank,
 * String.toLowerCase and the substring match of a SQL `LIKE '%p%'` pattern.
 */
module Strings {
  import opened Wrappers

  /** Character.isWhitespace on the ASCII range. */
  predicate IsWhitespace(c: char)
  {
    c == ' ' || c == '\t' || c == '\n' || c == '\U{000B}' || c == '\U{000C}' || c == '\r'
    || ('\U{001C}' <= c <= '\U{001F}')
  }

  /** StringUtils.isBlank: null, empty, or whitespace only. */
  predicate IsBlank(s: Option<string>)
  {
    s.None? || forall i :: 0 <= i < |s.value| ==> IsWhitespace(s.value[i])
  }

  function LowerChar(c: char): (d: char)
    ensures 'A' <= c <= 'Z' ==> d as int == c as int + 32
    ensures !('A' <= c <= 'Z') ==> d == c
  {
    if 'A' <= c <= 'Z' then (c as int + 32) as char else c
  }

  /** String.toLowerCase on the ASCII letters; every other character is kept. */
  function ToLower(s: string): (r: string)
    ensures |r| == |s|
    ensures forall i :: 0 <= i < |s| ==> r[i] == LowerChar(s[i])
    ensures forall i :: 0 <= i < |r| ==> !('A' <= r[i] <= 'Z')
  {
    seq(|s|, i requires 0 <= i < |s| => LowerChar(s[i]))
  }

  lemma ToLowerIdempotent(s: string)
    ensures ToLower(ToLower(s)) == ToLower(s)
  {
  }

  /** sub occurs in s starting at position i. */
  predicate OccursAt(sub: string, s: string, i: nat)
  {
    i + |sub| <= |s| && s[i..i + |sub|] == sub
  }

  /** sub occurs in s at some position. */
  predicate IsSubstring(sub: string, s: string)
  {
    exists i: nat :: i <= |s| && OccursAt(sub, s, i)
  }

  /** `lower(s) like lower('%' + sub + '%')`, with no wildcard inside sub. */
  predicate ContainsIgnoringCase(s: string, sub: string)
  {
    IsSubstring(ToLower(sub), ToLower(s))
  }
}
