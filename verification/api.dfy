/** The two POST handlers, `/api/generate` and `/api/analyze`, as decisions
    from the request body to the response. Timing and timestamps are not
    part of the model. */
module Api {
  import opened Fields
  import opened Ascii
  import opened CaseText
  import opened Convert
  import opened Generate
  import opened Metrics

  const DefaultCount: int := 100
  const DefaultAlgorithm: string := "iterative"

  const CountError: string := "n must be greater than 0"
  const TextError: string := "Text is required"
  const AlgorithmError: string := "Invalid algorithm"

  /** A request body: a JSON object with the handler's keys, or anything
      else, on which `data.get` raises. */
  datatype Body<+F> = Object(fields: F) | NotObject

  datatype GenerateFields = GenerateFields(n: Field<int>, pattern: Field<string>)

  datatype AnalyzeFields = AnalyzeFields(
    text: Field<string>,
    algorithm: Field<string>,
    pattern: Field<string>,
    direction: Field<string>)

  datatype Response =
    | Rejected(status: int, message: string)
      // `jsonify({'error': message}), status`
    | InternalError
      // an exception caught by the generic handler: status 500
    | Generated(text: string, length: int, pattern: Option<string>)
    | Analyzed(
        input: string,
        output: string,
        algorithm: string,
        memoryBytes: int,
        inputLength: int,
        outputLength: int)
  {
    function Status(): int {
      match this
      case Rejected(status, _) => status
      case InternalError => 500
      case _ => 200
    }
  }

  /** `data.get('n', 100)`. */
  function RequestedCount(f: GenerateFields): Option<int> {
    Lookup(f.n, Some(DefaultCount))
  }

  /** `data.get('pattern', 'mixed')` in the generate handler. */
  function GeneratePattern(f: GenerateFields): Option<string> {
    Lookup(f.pattern, Some(Mixed))
  }

  /** `/api/generate`. A `null` count makes `n < 1` raise, which the generic
      handler turns into a 500; a count below one is rejected; otherwise the
      response carries a generated string, its length and the pattern as given. */
  method GenerateApi(body: Body<GenerateFields>) returns (resp: Response)
    ensures resp == InternalError <==> body.NotObject? || body.fields.n.Null?
    ensures resp.Rejected? <==>
              body.Object? && RequestedCount(body.fields).Some? && RequestedCount(body.fields).value < 1
    ensures resp.Rejected? ==> resp == Rejected(400, CountError)
    ensures resp.Generated? <==>
              body.Object? && RequestedCount(body.fields).Some? && RequestedCount(body.fields).value >= 1
    ensures resp.Generated? ==>
              && body.Object?
              && RequestedCount(body.fields).Some?
              && resp.length == RequestedCount(body.fields).value == |resp.text|
              && resp.pattern == GeneratePattern(body.fields)
              && IsGenerated(resp.text, resp.length, resp.pattern)
    ensures resp.Status() == 200 <==> resp.Generated?
    ensures !resp.Analyzed?
  {
    if body.NotObject? {
      return InternalError;
    }
    var n := RequestedCount(body.fields);
    var pattern := GeneratePattern(body.fields);
    if n.None? {
      return InternalError;
    }
    if n.value < 1 {
      return Rejected(400, CountError);
    }
    var s := GenerateString(n.value, pattern);
    resp := Generated(s, |s|, pattern);
  }

  /** Without an `n`, the handler generates 100 characters from the mixed pool. */
  method GenerateDefaults(pattern: Field<string>) returns (resp: Response)
    ensures resp.Generated? && resp.length == DefaultCount == |resp.text|
    ensures pattern.Absent? ==> resp.pattern == Some(Mixed)
    ensures pattern.Absent? ==> forall i :: 0 <= i < |resp.text| ==> IsLetter(resp.text[i])
  {
    resp := GenerateApi(Object(GenerateFields(Absent, pattern)));
    GeneratedIsAdmitted(resp.text, resp.length, resp.pattern);
  }

  /** `data.get('text', '')`, tested by `if not text`. */
  function RequestedText(f: AnalyzeFields): Option<string> {
    Lookup(f.text, Some(""))
  }

  predicate HasText(f: AnalyzeFields) {
    RequestedText(f).Some? && RequestedText(f).value != ""
  }

  /** `data.get('algorithm', 'iterative')`. */
  function RequestedAlgorithm(f: AnalyzeFields): Option<string> {
    Lookup(f.algorithm, Some(DefaultAlgorithm))
  }

  predicate IsAlgorithm(a: Option<string>) {
    a == Some("iterative") || a == Some("recursive")
  }

  /** The conversion both algorithms perform for these fields. */
  function Conversion(f: AnalyzeFields): string
    requires HasText(f)
  {
    ConvertCase(RequestedText(f).value, Lookup(f.pattern, Some(Mixed)), Lookup(f.direction, None))
  }

  /** `/api/analyze`. Missing or empty text is rejected before the algorithm
      is looked at; an algorithm other than `iterative` or `recursive` is
      rejected; both accepted algorithms run the same conversion. */
  function Analyze(body: Body<AnalyzeFields>): (resp: Response)
    ensures body.NotObject? <==> resp == InternalError
    ensures body.Object? && !HasText(body.fields) ==> resp == Rejected(400, TextError)
    ensures body.Object? && HasText(body.fields) && !IsAlgorithm(RequestedAlgorithm(body.fields)) ==>
              resp == Rejected(400, AlgorithmError)
    ensures resp.Analyzed? <==>
              body.Object? && HasText(body.fields) && IsAlgorithm(RequestedAlgorithm(body.fields))
    ensures resp.Analyzed? ==>
              && Some(resp.input) == RequestedText(body.fields)
              && Some(resp.algorithm) == RequestedAlgorithm(body.fields)
              && resp.output == Conversion(body.fields)
              && resp.inputLength == resp.outputLength == |resp.input| == |resp.output| > 0
              && resp.memoryBytes == MemoryNumerator(resp.output)
              && resp.memoryBytes >= resp.outputLength + ObjectOverhead
    ensures !resp.Generated?
  {
    match body
    case NotObject => InternalError
    case Object(f) =>
      if !HasText(f) then Rejected(400, TextError)
      else
        var text := RequestedText(f).value;
        var algorithm := RequestedAlgorithm(f);
        if IsAlgorithm(algorithm) then
          var result := Conversion(f);
          Analyzed(text, result, algorithm.value, MemoryNumerator(result), |text|, |result|)
        else
          Rejected(400, AlgorithmError)
  }

  /** Empty or missing text is rejected whatever the algorithm, even one that
      would itself be rejected. */
  lemma {:induction false} TextCheckedFirst(f: AnalyzeFields, algorithm: Field<string>)
    requires !HasText(f)
    ensures Analyze(Object(f.(algorithm := algorithm))) == Rejected(400, TextError)
  {
    assert RequestedText(f.(algorithm := algorithm)) == RequestedText(f);
  }

  /** The two algorithms produce the same output. */
  lemma {:induction false} AlgorithmsAgree(f: AnalyzeFields)
    requires HasText(f)
    ensures var it := Analyze(Object(f.(algorithm := Given("iterative"))));
            var rec := Analyze(Object(f.(algorithm := Given("recursive"))));
            && it.Analyzed? && rec.Analyzed?
            && it.output == rec.output
            && it.memoryBytes == rec.memoryBytes
            && it.outputLength == rec.outputLength
  {
    var fi := f.(algorithm := Given("iterative"));
    var fr := f.(algorithm := Given("recursive"));
    assert RequestedText(fi) == RequestedText(f) == RequestedText(fr);
    assert Conversion(fi) == Conversion(fr);
  }

  /** For ASCII input the memory estimate's numerator is the text length plus
      the object overhead. */
  lemma {:induction false} AsciiMemoryEstimate(body: Body<AnalyzeFields>)
    requires Analyze(body).Analyzed? && IsAscii(Analyze(body).input)
    ensures Analyze(body).memoryBytes == Analyze(body).inputLength + ObjectOverhead
  {
    var f := body.fields;
    ConvertPreservesAscii(RequestedText(f).value, Lookup(f.pattern, Some(Mixed)), Lookup(f.direction, None));
  }

  /** A string produced by the generator and sent to the analyzer with an
      accepted algorithm comes back with `n` characters and a numerator of
      `n + 56`. */
  lemma {:induction false} AnalyzeGenerated(s: string, n: int, gen: Option<string>,
                                            algorithm: string, pattern: Field<string>, direction: Field<string>)
    requires n >= 1 && IsGenerated(s, n, gen)
    requires algorithm == "iterative" || algorithm == "recursive"
    ensures var resp := Analyze(Object(AnalyzeFields(Given(s), Given(algorithm), pattern, direction)));
            && resp.Analyzed?
            && resp.outputLength == resp.inputLength == n
            && resp.memoryBytes == n + ObjectOverhead
  {
    GeneratedIsAdmitted(s, n, gen);
    AsciiMemoryEstimate(Object(AnalyzeFields(Given(s), Given(algorithm), pattern, direction)));
  }
}
