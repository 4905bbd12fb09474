/** `convert_case`: the pattern/direction dispatch over the case transforms.
    The naming is inverted on purpose: pattern `lower` upper-cases and
    pattern `upper` lower-cases. */
module Convert {
  import opened Fields
  import opened Ascii
  import opened CaseText

  const Mixed: string := "mixed"

  /** The direction values that `mixed` recognises. */
  predicate IsDirection(d: Option<string>) {
    d == Some("to_upper") || d == Some("to_lower") || d == Some("swap")
  }

  /** The pattern values that select a transform. */
  predicate IsPattern(p: Option<string>) {
    p == Some("lower") || p == Some("upper") || p == Some(Mixed)
  }

  /** The converted text: same length, and each position either kept or
      moved to its case partner, so only letters can change. */
  function ConvertCase(text: string, pattern: Option<string>, direction: Option<string>): (r: string)
    ensures |r| == |text|
    ensures forall i :: 0 <= i < |text| ==> r[i] == text[i] || r[i] == SwapChar(text[i])
    ensures forall i :: 0 <= i < |text| && !IsLetter(text[i]) ==> r[i] == text[i]
  {
    if pattern == Some("lower") then Upper(text)
    else if pattern == Some("upper") then Lower(text)
    else if pattern == Some(Mixed) then
      if direction == Some("to_upper") then Upper(text)
      else if direction == Some("to_lower") then Lower(text)
      else if direction == Some("swap") then SwapCase(text)
      else text
    else text
  }

  /** Pattern `lower` upper-cases and pattern `upper` lower-cases, whatever
      the direction. */
  lemma InvertedNaming(text: string, direction: Option<string>)
    ensures ConvertCase(text, Some("lower"), direction) == Upper(text)
    ensures ConvertCase(text, Some("upper"), direction) == Lower(text)
  {
  }

  /** Under `mixed`, each recognised direction applies its transform. */
  lemma MixedDirections(text: string)
    ensures ConvertCase(text, Some(Mixed), Some("to_upper")) == Upper(text)
    ensures ConvertCase(text, Some(Mixed), Some("to_lower")) == Lower(text)
    ensures ConvertCase(text, Some(Mixed), Some("swap")) == SwapCase(text)
  {
  }

  /** `mixed` with `swap` undoes itself. */
  lemma {:induction false} SwapTwiceIsIdentity(text: string)
    ensures ConvertCase(ConvertCase(text, Some(Mixed), Some("swap")), Some(Mixed), Some("swap")) == text
  {
    SwapCaseInvolutive(text);
  }

  /** `mixed` with `to_upper`, or with `to_lower`, changes nothing the second time. */
  lemma {:induction false} MixedIdempotent(text: string)
    ensures var u := ConvertCase(text, Some(Mixed), Some("to_upper"));
            ConvertCase(u, Some(Mixed), Some("to_upper")) == u
    ensures var l := ConvertCase(text, Some(Mixed), Some("to_lower"));
            ConvertCase(l, Some(Mixed), Some("to_lower")) == l
  {
    UpperLowerIdempotent(text);
  }

  /** The text comes back unchanged when the pattern selects no transform,
      or when `mixed` gets no recognised direction. */
  lemma UnchangedWithoutTransform(text: string, pattern: Option<string>, direction: Option<string>)
    requires !IsPattern(pattern) || (pattern == Some(Mixed) && !IsDirection(direction))
    ensures ConvertCase(text, pattern, direction) == text
  {
  }

  /** Text whose characters all lack case is never changed. */
  lemma {:induction false} CaselessTextUnchanged(text: string, pattern: Option<string>, direction: Option<string>)
    requires forall i :: 0 <= i < |text| ==> !IsLetter(text[i])
    ensures ConvertCase(text, pattern, direction) == text
  {
    var r := ConvertCase(text, pattern, direction);
    assert forall i :: 0 <= i < |text| ==> r[i] == text[i];
  }

  /** Conversion keeps ASCII text ASCII. */
  lemma {:induction false} ConvertPreservesAscii(text: string, pattern: Option<string>, direction: Option<string>)
    requires IsAscii(text)
    ensures IsAscii(ConvertCase(text, pattern, direction))
  {
    var r := ConvertCase(text, pattern, direction);
    forall i | 0 <= i < |r|
      ensures IsAsciiChar(r[i])
    {
      assert r[i] == text[i] || r[i] == SwapChar(text[i]);
    }
  }

  /** Text of lower-case letters converted under pattern `lower` and then
      under pattern `upper` comes back unchanged. */
  lemma {:induction false} LowerPatternRoundTrip(text: string, d1: Option<string>, d2: Option<string>)
    requires forall i :: 0 <= i < |text| ==> IsLowerLetter(text[i])
    ensures ConvertCase(ConvertCase(text, Some("lower"), d1), Some("upper"), d2) == text
  {
    CaseRoundTrip(text);
  }

  /** The worked examples: `Hello` swapped is `hELLO`; under pattern `lower`
      it is `HELLO`. */
  lemma Examples()
    ensures ConvertCase("Hello", Some(Mixed), Some("swap")) == "hELLO"
    ensures ConvertCase("Hello", Some("lower"), None) == "HELLO"
  {
  }
}
