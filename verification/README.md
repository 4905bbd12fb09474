# Case-conversion service: a Dafny model

This project models the text-processing core of a small Flask service
(`app.py`) that generates random letter strings and converts the case of a
text. It covers:

- `generate_string`: `n` characters drawn from the pool a pattern selects
  (26 lower-case, 26 upper-case, or all 52 letters);
- `convert_case`: the dispatch over `pattern` and `direction`, with the
  service's deliberately inverted naming (pattern `lower` upper-cases,
  pattern `upper` lower-cases; `mixed` takes `to_upper`, `to_lower` or
  `swap`; anything else leaves the text alone);
- `measure_memory_usage`: the integer numerator of the estimate, the UTF-8
  byte length of the text plus 56;
- the `/api/generate` and `/api/analyze` handlers, as decisions from the
  JSON body to a response: a generated or analysed result, a 400 rejection
  with its message, or a 500 from the generic exception handler.

Modules: `Fields` (JSON keys and `data.get` with a default), `Ascii`
(single-character case), `CaseText` (`str.upper`, `str.lower`,
`str.swapcase` over whole strings), `Convert` (`convert_case`), `Generate`
(pools and generation), `Metrics` (byte length and memory numerator), `Api`
(the two handlers).

A JSON key is `Absent`, `Null` or `Given(v)`, and `data.get(key, default)`
yields the default, Python's `None`, or `v`. This keeps the source's
behaviour on explicit `null`s. A `null` for `n` makes `n < 1` raise, which
gives a 500. A `null` algorithm is rejected as invalid. A `null` text counts
as missing. A `null` pattern selects no transform and the mixed pool.

The "iterative" and "recursive" algorithms of `/api/analyze` both call the
same `convert_case` in `app.py:81-84`. Neither recurses. The model follows
that code: both algorithms are one conversion. The conversion itself never
raises `RecursionError`. The handler for it can only be reached while
`request.get_json()` decodes the body, which is outside the model (see
"## Left out").

`generate_string` is a method with a nondeterministic pick from the pool at
each step. Its contract holds for every possible sequence of picks, so the
random distribution is not modelled.

## Model

| member | source | states |
|---|---|---|
| Ascii.UpperChar | app.py:22 | the upper-case form of a character has no lower-case letter left; letters stay letters and ASCII stays ASCII; a lower-case letter moves 32 code points down to its partner; every other character is kept |
| Ascii.LowerChar | app.py:24 | the lower-case form has no upper-case letter left; an upper-case letter moves 32 code points up to its partner; every other character is kept |
| Ascii.SwapChar | app.py:31 | swapping turns upper-case letters into lower-case ones and the reverse; non-letters are kept |
| Ascii.SwapCharInvolutive | app.py:31 | swapping a character twice gives it back |
| Ascii.CaseCharAbsorbs | app.py:22-31 | upper- or lower-casing a character after any case change gives the same result as doing it directly |
| CaseText.MapChars | app.py:22-31 | the per-character transform keeps the length, and position `i` of the result is the transformed character `i` of the input |
| CaseText.Upper | app.py:22 | `text.upper()` keeps the length, upper-cases each position, and leaves no lower-case letter |
| CaseText.Lower | app.py:24 | `text.lower()` keeps the length, lower-cases each position, and leaves no upper-case letter |
| CaseText.SwapCase | app.py:31 | `text.swapcase()` keeps the length and swaps the case of each position |
| CaseText.UpperLowerIdempotent | app.py:26-29 | upper-casing twice equals upper-casing once, and likewise for lower-casing |
| CaseText.SwapCaseInvolutive | app.py:30-31 | swapping case twice returns the original text |
| CaseText.CaseAbsorbs | app.py:22-31 | a later upper- or lower-casing erases any earlier lower-casing, upper-casing or swap |
| CaseText.CaseRoundTrip | app.py:22-24 | all-lower-case letter text survives upper- then lower-casing, and all-upper-case text survives lower- then upper-casing |
| CaseText.CasePreservesAscii | app.py:22-31 | each case transform gives ASCII output exactly when its input is ASCII |
| Convert.ConvertCase | app.py:20-35 | the converted text has the input's length, and at each position it holds the input character or its case partner, so non-letters never change |
| Convert.InvertedNaming | app.py:21-24 | pattern `lower` upper-cases and pattern `upper` lower-cases, whatever the direction |
| Convert.MixedDirections | app.py:25-31 | under `mixed`, `to_upper` upper-cases, `to_lower` lower-cases and `swap` swaps case |
| Convert.SwapTwiceIsIdentity | app.py:25-31 | converting twice with `mixed`/`swap` returns the original text |
| Convert.MixedIdempotent | app.py:25-29 | converting the output of `mixed`/`to_upper` again with `mixed`/`to_upper` changes nothing, and likewise for `to_lower` |
| Convert.UnchangedWithoutTransform | app.py:32-35 | a pattern other than `lower`, `upper` or `mixed`, or `mixed` with an absent or unrecognised direction, returns the text unchanged |
| Convert.CaselessTextUnchanged | app.py:20-35 | text containing no letter is returned unchanged under every pattern and direction |
| Convert.ConvertPreservesAscii | app.py:20-35 | converting ASCII text yields ASCII text |
| Convert.LowerPatternRoundTrip | app.py:21-24 | lower-case letter text converted with pattern `lower`, then with pattern `upper`, comes back unchanged |
| Convert.Examples | app.py:21-31 | `Hello` under `mixed`/`swap` is `hELLO`, and under pattern `lower` it is `HELLO` |
| Generate.Pool | app.py:12-17 | every pattern selects a non-empty pool |
| Generate.LowerPoolIsLowerLetters | app.py:13 | the lower-case pool holds exactly the letters `a` to `z` |
| Generate.UpperPoolIsUpperLetters | app.py:15 | the upper-case pool holds exactly the letters `A` to `Z` |
| Generate.MixedPoolIsLetters | app.py:17 | the mixed pool holds exactly the 52 ASCII letters |
| Generate.PoolIsCharacterClass | app.py:12-17 | a character is in the pool for a pattern iff it is a lower-case letter for `lower`, an upper-case letter for `upper`, and any letter for every other value, including `mixed` and `None` |
| Generate.PoolsAlphabetical | app.py:13-15 | the lower- and upper-case pools hold 26 letters each, in alphabetical order |
| Generate.PoolSizes | app.py:13-17 | the pools have 26, 26 and 52 characters, and the mixed pool repeats none |
| Generate.GenerateString | app.py:11-18 | the generated string has `n` characters, or none when `n` is at most 0 (`range(n)` is empty), and each one comes from the pattern's pool |
| Generate.GeneratedIsAdmitted | app.py:11-18 | every character of a generated string belongs to the pattern's letter class, so the string is all ASCII letters |
| Metrics.Utf8Width | app.py:38 | a character takes one to four UTF-8 bytes, and exactly one iff it is ASCII |
| Metrics.Utf8Length | app.py:38 | the UTF-8 length lies between one and four bytes per character, and equals the character count iff the text is ASCII |
| Metrics.MemoryNumerator | app.py:37-38 | the numerator is at least the character count plus 56, and equals it exactly iff the text is ASCII |
| Api.GenerateApi | app.py:44-65 | a body that is not an object or a null `n` gives a 500; an `n` below 1 gives exactly 400 `n must be greater than 0`; otherwise the response has status 200, `n` generated characters from the pattern's pool, `length` equal to `n`, and the pattern echoed (default `mixed`) |
| Api.GenerateDefaults | app.py:48-49 | with no `n` the handler generates 100 characters, and with no pattern as well they are drawn from all 52 letters and `mixed` is echoed |
| Api.Analyze | app.py:67-111 | missing, null or empty text gives 400 `Text is required` before the algorithm is looked at; an algorithm other than `iterative` or `recursive` gives 400 `Invalid algorithm`; otherwise the response echoes input and algorithm, carries the conversion, reports equal input and output lengths, and its memory numerator is exactly the output's UTF-8 byte length plus 56, which is at least that length plus 56; a body that decodes to something other than a JSON object gives a 500 |
| Api.TextCheckedFirst | app.py:76-86 | empty or missing text is rejected with `Text is required` whatever algorithm is given |
| Api.AlgorithmsAgree | app.py:81-84 | `iterative` and `recursive` both succeed on the same fields with identical output, length and memory numerator |
| Api.AsciiMemoryEstimate | app.py:91-101 | for ASCII input the memory numerator is the input length plus 56 |
| Api.AnalyzeGenerated | app.py:54-101 | a generated string of length `n` analysed with either algorithm reports `n` as input and output length and `n + 56` as memory numerator |

## Left out

- Flask routing, JSON parsing and serialisation, CORS, `render_template`, the `/api/test` endpoint and the start-up directory creation (`app.py:1-9`, `app.py:40-42`, `app.py:113-125`): HTTP and filesystem I/O with no decision logic.
- `time.perf_counter` timing and `datetime.now().isoformat()` timestamps: clock readings. The responses carry neither `execution_time_ms` nor `timestamp`.
- The `/ 1024` division and the `round(…, 4)` and `round(…, 2)` calls: floating point. Only the integer numerator of the memory estimate is modelled.
- The distribution of `random.choice`: generation picks an arbitrary pool index at each step.
- The `RecursionError` branch (`app.py:105-109`): the conversion does not recurse. The branch can only be reached through JSON decoding at `app.py:70`. A body nested deeper than Python's recursion limit makes the decoder raise `RecursionError`, and the handler then answers 400 `Recursion depth exceeded. Try iterative algorithm.` with `max_recommended_length` 1000. JSON parsing is left out, so the model has no such body. Api.Analyze answers 500 for every non-object body it does model.
- Exceptions caught by the generic 500 handlers are modelled as one `InternalError` outcome without the Python message. Two causes are modelled: a body that is not a JSON object, and a null `n`. Non-string text, non-integer `n` and other wrongly typed JSON values are not modelled. The fields are typed as strings and integers.
- Ascii.UpperChar: only ASCII letters have a case partner, and every other character passes through. Python also changes the case of non-ASCII letters. Some of those map into ASCII: `ı` and `ſ` upper-case to `I` and `S`, the Kelvin sign lower-cases to `k`, and `ﬀ` upper-cases to `FF`. Others change the length: `ß` upper-cases to `SS`. The preservation of letter class and ASCII class stated by Ascii.UpperChar, Ascii.LowerChar, Ascii.SwapChar and CaseText.CasePreservesAscii therefore holds of the model only, not of Python on such characters. Every string the generator produces is ASCII, so the model is exact on them.
- Convert.ConvertCase: proves that the output has the input's length for every string of the model. On non-ASCII characters whose Python case mapping has a different length, such as `ß` or `ﬀ`, this differs from Python.
- Api.Analyze: a text holding a lone surrogate, such as the JSON string `"\ud800"`, passes the empty-text check and converts. `text.encode('utf-8')` at `app.py:38` then raises `UnicodeEncodeError`, and `app.py:110-111` answers 500. Dafny characters are Unicode scalar values with no surrogates, so the model has no such input and Metrics.MemoryNumerator never fails.
- The web page script and the deployment shim: browser UI and path configuration, with no logic of the service.
