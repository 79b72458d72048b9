/** Occurrences of a word in a text, the leftmost one, and replacement of all of them. */
module Texts {

  type Byte = b: int | 0 <= b < 256

  predicate OccursAt<T(==)>(text: seq<T>, word: seq<T>, i: int) {
    0 <= i && i + |word| <= |text| && text[i..i + |word|] == word
  }

  ghost predicate Contains<T>(text: seq<T>, word: seq<T>) {
    exists i :: OccursAt(text, word, i)
  }

  /** The least occurrence at or after `from`, or -1. */
  function FindFrom<T(==)>(text: seq<T>, word: seq<T>, from: nat): (i: int)
    ensures i < 0 ==> i == -1 && forall j :: from <= j ==> !OccursAt(text, word, j)
    ensures i >= 0 ==> from <= i && OccursAt(text, word, i) && forall j :: from <= j < i ==> !OccursAt(text, word, j)
    decreases |text| - from
  {
    if from + |word| > |text| then -1
    else if OccursAt(text, word, from) then from
    else FindFrom(text, word, from + 1)
  }

  /** Leftmost occurrence, or -1: `bytes.find`. */
  function Find<T(==)>(text: seq<T>, word: seq<T>): (i: int)
    ensures i == -1 <==> !Contains(text, word)
    ensures i != -1 ==> OccursAt(text, word, i) && forall j :: j < i ==> !OccursAt(text, word, j)
  {
    FindFrom(text, word, 0)
  }

  /** Leftmost, non-overlapping replacement: `bytes.replace`. */
  function Replace<T(==)>(text: seq<T>, word: seq<T>, mark: seq<T>): (r: seq<T>)
    requires |word| > 0
    decreases |text|
  {
    var i := Find(text, word);
    if i < 0 then text else text[..i] + mark + Replace(text[i + |word|..], word, mark)
  }

  lemma Regroup<T>(a: seq<T>, b: seq<T>, c: seq<T>)
    ensures a + (b + c) == a + b + c
  {
  }

  /** An occurrence in the left part of a concatenation. */
  lemma OccursLeft<T>(a: seq<T>, b: seq<T>, word: seq<T>, i: int)
    requires i + |word| <= |a|
    ensures OccursAt(a + b, word, i) <==> OccursAt(a, word, i)
  {
    if 0 <= i {
      assert (a + b)[i..i + |word|] == a[i..i + |word|];
    }
  }

  /** An occurrence in the right part of a concatenation. */
  lemma OccursRight<T>(a: seq<T>, b: seq<T>, word: seq<T>, i: int)
    requires |a| <= i
    ensures OccursAt(a + b, word, i) <==> OccursAt(b, word, i - |a|)
  {
    if i + |word| <= |a| + |b| {
      assert (a + b)[i..i + |word|] == b[i - |a|..i - |a| + |word|];
    }
  }

  /** All pieces of a stream, in order. */
  function Concat<T>(pieces: seq<seq<T>>): (r: seq<T>)
  {
    if pieces == [] then [] else Concat(pieces[..|pieces| - 1]) + pieces[|pieces| - 1]
  }

  predicate AllDigits(s: string) {
    forall i :: 0 <= i < |s| ==> '0' <= s[i] <= '9'
  }

  /** What a decimal numeral denotes. */
  function Numeral(s: string): (n: int) {
    if s == "" then 0 else Numeral(s[..|s| - 1]) * 10 + (s[|s| - 1] as int - '0' as int)
  }

  /** The lower-case hexadecimal digit, as a byte. */
  function HexDigit(d: nat): (b: Byte)
    requires d < 16
  {
    if d < 10 then 48 + d else 87 + d
  }
}
