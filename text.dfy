/**
 * The Kotlin string operations the core relies on: `isBlank`, `replace`, `lowercase`
 * and `replaceFirstChar`, restricted to what the core's inputs need.
 */
module Text {

  /** Kotlin's `Char.isWhitespace` (Java's `isWhitespace` or `isSpaceChar`), on Latin-1. */
  predicate IsWhitespace(c: char)
  {
    c == ' ' || c == '\t' || c == '\n' || c == '\r' || c == '\U{B}' || c == '\U{C}'
    || c == '\U{1C}' || c == '\U{1D}' || c == '\U{1E}' || c == '\U{1F}' || c == '\U{A0}'
  }

  /** Kotlin's `CharSequence.isBlank`: empty, or whitespace only. */
  predicate IsBlank(s: string)
  {
    forall i :: 0 <= i < |s| ==> IsWhitespace(s[i])
  }

  /** Kotlin's `String.replace(old, new)` for one-character patterns. */
  function ReplaceChar(s: string, from: char, to: char): (r: string)
    ensures |r| == |s|
    ensures forall i :: 0 <= i < |s| ==> r[i] == (if s[i] == from then to else s[i])
  {
    if s == [] then []
    else [if s[0] == from then to else s[0]] + ReplaceChar(s[1..], from, to)
  }

  predicate IsUpperAscii(c: char) { 'A' <= c <= 'Z' }

  predicate IsLowerAscii(c: char) { 'a' <= c <= 'z' }

  function ToLowerChar(c: char): char
  {
    if IsUpperAscii(c) then (c as int + 32) as char else c
  }

  function ToUpperChar(c: char): char
  {
    if IsLowerAscii(c) then (c as int - 32) as char else c
  }

  /** `String.lowercase(Locale.ROOT)` on ASCII letters; every other character is kept. */
  function Lowercase(s: string): (r: string)
    ensures |r| == |s|
    ensures forall i :: 0 <= i < |s| ==> r[i] == ToLowerChar(s[i]) && !IsUpperAscii(r[i])
  {
    if s == [] then [] else [ToLowerChar(s[0])] + Lowercase(s[1..])
  }

  /** `replaceFirstChar { if (it.isLowerCase()) it.titlecase(Locale.getDefault()) else it.toString() }`. */
  function CapitalizeFirst(s: string): (r: string)
    ensures |r| == |s|
    ensures 0 < |s| ==> r[0] == ToUpperChar(s[0]) && r[1..] == s[1..]
  {
    if s == [] then [] else [ToUpperChar(s[0])] + s[1..]
  }
}
