/**
 * String operations of JavaScript that the game relies on, over `seq<char>`:
 * ASCII upper-casing (standing in for `toUpperCase`/`toLocaleUpperCase`),
 * `'_'.repeat(n)`, `indexOf` and the `substr`-based splice both clients use
 * to overwrite one position of the mask.
 */
module Text {

  /** `toUpperCase` of one character, restricted to ASCII letters. */
  function UpperChar(c: char): char
  {
    if 'a' <= c <= 'z' then (c as int - 'a' as int + 'A' as int) as char else c
  }

  /** `toUpperCase` of a string: every character is upper-cased in place. */
  function Upper(s: string): (r: string)
    ensures |r| == |s|
    ensures forall i :: 0 <= i < |s| ==> r[i] == UpperChar(s[i])
  {
    seq(|s|, i requires 0 <= i < |s| => UpperChar(s[i]))
  }

  /** A string that upper-casing leaves unchanged. */
  predicate IsUpper(s: string)
  {
    forall i :: 0 <= i < |s| ==> UpperChar(s[i]) == s[i]
  }

  lemma UpperCharIdempotent(c: char)
    ensures UpperChar(UpperChar(c)) == UpperChar(c)
  {
  }

  /** Upper-casing twice is upper-casing once: its result is upper case. */
  lemma UpperIsUpper(s: string)
    ensures IsUpper(Upper(s))
    ensures Upper(Upper(s)) == Upper(s)
  {
    forall i | 0 <= i < |s|
      ensures UpperChar(Upper(s)[i]) == Upper(s)[i]
    {
      UpperCharIdempotent(s[i]);
    }
  }

  /** An upper-case string is a fixed point of `Upper`. */
  lemma UpperOfUpper(s: string)
    requires IsUpper(s)
    ensures Upper(s) == s
  {
  }

  /** `c.repeat(n)` for a one-character string `c`. */
  function Repeat(c: char, n: nat): (r: string)
    ensures |r| == n
    ensures forall i :: 0 <= i < n ==> r[i] == c
  {
    if n == 0 then [] else [c] + Repeat(c, n - 1)
  }

  /** `sub` occurs in `s` starting at position `k`. */
  predicate OccursAt(s: string, sub: string, k: int)
  {
    0 <= k && k + |sub| <= |s| && s[k..k + |sub|] == sub
  }

  /** `sub` is a substring of `s` (the empty string is a substring of every string). */
  predicate Occurs(sub: string, s: string)
  {
    exists k :: 0 <= k <= |s| && OccursAt(s, sub, k)
  }

  /** `s.indexOf(sub)`: the first position where `sub` occurs, or -1. */
  function IndexOf(s: string, sub: string): (r: int)
    ensures r == -1 || OccursAt(s, sub, r)
    ensures r == -1 <==> !Occurs(sub, s)
    ensures forall k :: 0 <= k < r ==> !OccursAt(s, sub, k)
  {
    IndexFrom(s, sub, 0)
  }

  /** The first position at or after `from` where `sub` occurs, or -1. */
  function IndexFrom(s: string, sub: string, from: nat): (r: int)
    ensures r == -1 || (from <= r && OccursAt(s, sub, r))
    ensures r == -1 <==> forall k :: from <= k ==> !OccursAt(s, sub, k)
    ensures forall k :: from <= k < r ==> !OccursAt(s, sub, k)
    decreases |s| - from
  {
    if from + |sub| > |s| then -1
    else if s[from..from + |sub|] == sub then from
    else IndexFrom(s, sub, from + 1)
  }

  /**
   * `s.substr(0, index) + rep + s.substr(index + rep.length)`: `substr`
   * clamps both bounds to the string, so an index past the end appends.
   */
  function Splice(s: string, index: nat, rep: string): (r: string)
    ensures index + |rep| <= |s| ==> |r| == |s|
    ensures index + |rep| <= |s| ==>
      forall k :: 0 <= k < |s| ==> r[k] == if index <= k < index + |rep| then rep[k - index] else s[k]
    ensures index < |s| && |rep| == 1 ==> r == s[index := rep[0]]
  {
    var front := if index <= |s| then index else |s|;
    var back := if index + |rep| <= |s| then index + |rep| else |s|;
    s[..front] + rep + s[back..]
  }
}
