/** Whole-string case transforms: Python's `str.upper`, `str.lower` and
    `str.swapcase`, restricted to the character model of `Ascii`. */
module CaseText {
  import opened Ascii

  /** Every character of `t` encodes as one UTF-8 byte. */
  predicate IsAscii(t: string) {
    forall i :: 0 <= i < |t| ==> IsAsciiChar(t[i])
  }

  /** Every character of `t` is an ASCII letter. */
  predicate IsLetters(t: string) {
    forall i :: 0 <= i < |t| ==> IsLetter(t[i])
  }

  /** The characters of `t`, each transformed by `f`, in order. */
  function MapChars(f: char -> char, t: string): (r: string)
    ensures |r| == |t|
    ensures forall i :: 0 <= i < |t| ==> r[i] == f(t[i])
  {
    if t == [] then [] else [f(t[0])] + MapChars(f, t[1..])
  }

  function Upper(t: string): (r: string)
    ensures |r| == |t|
    ensures forall i :: 0 <= i < |t| ==> r[i] == UpperChar(t[i])
    ensures forall i :: 0 <= i < |r| ==> !IsLowerLetter(r[i])
  {
    MapChars(UpperChar, t)
  }

  function Lower(t: string): (r: string)
    ensures |r| == |t|
    ensures forall i :: 0 <= i < |t| ==> r[i] == LowerChar(t[i])
    ensures forall i :: 0 <= i < |r| ==> !IsUpperLetter(r[i])
  {
    MapChars(LowerChar, t)
  }

  function SwapCase(t: string): (r: string)
    ensures |r| == |t|
    ensures forall i :: 0 <= i < |t| ==> r[i] == SwapChar(t[i])
  {
    MapChars(SwapChar, t)
  }

  /** Upper-casing is idempotent, and so is lower-casing. */
  lemma UpperLowerIdempotent(t: string)
    ensures Upper(Upper(t)) == Upper(t)
    ensures Lower(Lower(t)) == Lower(t)
  {
    forall i | 0 <= i < |t| {
      CaseCharAbsorbs(t[i]);
    }
  }

  /** Swapping case twice gives the text back. */
  lemma SwapCaseInvolutive(t: string)
    ensures SwapCase(SwapCase(t)) == t
  {
    forall i | 0 <= i < |t| {
      SwapCharInvolutive(t[i]);
    }
  }

  /** A later upper- or lower-casing erases whatever case change came before. */
  lemma CaseAbsorbs(t: string)
    ensures Upper(Lower(t)) == Upper(t) && Lower(Upper(t)) == Lower(t)
    ensures Upper(SwapCase(t)) == Upper(t) && Lower(SwapCase(t)) == Lower(t)
  {
    forall i | 0 <= i < |t| {
      CaseCharAbsorbs(t[i]);
    }
  }

  /** Text made of lower-case letters comes back from upper-casing by
      lower-casing, and the other way round. */
  lemma CaseRoundTrip(t: string)
    ensures (forall i :: 0 <= i < |t| ==> IsLowerLetter(t[i])) ==> Lower(Upper(t)) == t
    ensures (forall i :: 0 <= i < |t| ==> IsUpperLetter(t[i])) ==> Upper(Lower(t)) == t
  {
  }

  /** Case transforms keep text ASCII when it was ASCII, and non-ASCII when it was not. */
  lemma CasePreservesAscii(t: string)
    ensures IsAscii(Upper(t)) <==> IsAscii(t)
    ensures IsAscii(Lower(t)) <==> IsAscii(t)
    ensures IsAscii(SwapCase(t)) <==> IsAscii(t)
  {
    if !IsAscii(t) {
      var i :| 0 <= i < |t| && !IsAsciiChar(t[i]);
      assert !IsAsciiChar(Upper(t)[i]);
      assert !IsAsciiChar(Lower(t)[i]);
      assert !IsAsciiChar(SwapCase(t)[i]);
    }
  }
}
