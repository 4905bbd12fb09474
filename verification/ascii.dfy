/** Letter case of single characters. Only the ASCII letters A-Z and a-z have
    a case partner; every other character is its own upper, lower and swapped
    form. */
module Ascii {

  /** Distance between an upper-case ASCII letter and its lower-case partner. */
  const CaseOffset: int := 32

  predicate IsUpperLetter(c: char) {
    'A' <= c <= 'Z'
  }

  predicate IsLowerLetter(c: char) {
    'a' <= c <= 'z'
  }

  predicate IsLetter(c: char) {
    IsUpperLetter(c) || IsLowerLetter(c)
  }

  /** A character that UTF-8 encodes in a single byte. */
  predicate IsAsciiChar(c: char) {
    c as int < 128
  }

  /** The upper-case form of `c`: lower-case letters move to their partner. */
  function UpperChar(c: char): (r: char)
    ensures !IsLowerLetter(r)
    ensures IsLetter(r) <==> IsLetter(c)
    ensures IsAsciiChar(r) <==> IsAsciiChar(c)
    ensures IsLowerLetter(c) ==> r as int + CaseOffset == c as int
    ensures !IsLowerLetter(c) ==> r == c
  {
    if IsLowerLetter(c) then (c as int - CaseOffset) as char else c
  }

  /** The lower-case form of `c`: upper-case letters move to their partner. */
  function LowerChar(c: char): (r: char)
    ensures !IsUpperLetter(r)
    ensures IsLetter(r) <==> IsLetter(c)
    ensures IsAsciiChar(r) <==> IsAsciiChar(c)
    ensures IsUpperLetter(c) ==> r as int == c as int + CaseOffset
    ensures !IsUpperLetter(c) ==> r == c
  {
    if IsUpperLetter(c) then (c as int + CaseOffset) as char else c
  }

  /** The other-case form of `c`: each letter moves to its partner. */
  function SwapChar(c: char): (r: char)
    ensures IsUpperLetter(c) <==> IsLowerLetter(r)
    ensures IsLowerLetter(c) <==> IsUpperLetter(r)
    ensures IsAsciiChar(r) <==> IsAsciiChar(c)
    ensures !IsLetter(c) ==> r == c
  {
    if IsUpperLetter(c) then LowerChar(c)
    else if IsLowerLetter(c) then UpperChar(c)
    else c
  }

  /** Swapping twice gives the character back. */
  lemma SwapCharInvolutive(c: char)
    ensures SwapChar(SwapChar(c)) == c
  {
  }

  /** Upper-casing after any case change is the same as upper-casing at once,
      and likewise for lower-casing. */
  lemma CaseCharAbsorbs(c: char)
    ensures UpperChar(UpperChar(c)) == UpperChar(c)
    ensures LowerChar(LowerChar(c)) == LowerChar(c)
    ensures UpperChar(LowerChar(c)) == UpperChar(c)
    ensures LowerChar(UpperChar(c)) == LowerChar(c)
    ensures UpperChar(SwapChar(c)) == UpperChar(c)
    ensures LowerChar(SwapChar(c)) == LowerChar(c)
  {
  }
}
