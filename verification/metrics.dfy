/** `measure_memory_usage`, integer part: the UTF-8 byte length of the text
    plus a fixed per-object overhead. */
module Metrics {
  import opened Ascii
  import opened CaseText

  /** Bytes the estimate adds for the string object itself. */
  const ObjectOverhead: int := 56

  /** Bytes UTF-8 uses for one Unicode scalar value. */
  function Utf8Width(c: char): (w: int)
    ensures 1 <= w <= 4
    ensures w == 1 <==> IsAsciiChar(c)
  {
    if c as int < 0x80 then 1
    else if c as int < 0x800 then 2
    else if c as int < 0x1_0000 then 3
    else 4
  }

  /** `len(text.encode('utf-8'))`: between one and four bytes per
      character, exactly one per character for ASCII text. */
  function Utf8Length(text: string): (n: nat)
    ensures |text| <= n <= 4 * |text|
    ensures n == |text| <==> IsAscii(text)
  {
    if text == [] then 0 else Utf8Width(text[0]) + Utf8Length(text[1..])
  }

  /** The numerator of the kilobyte estimate. */
  function MemoryNumerator(text: string): (bytes: int)
    ensures bytes >= |text| + ObjectOverhead
    ensures IsAscii(text) <==> bytes == |text| + ObjectOverhead
  {
    Utf8Length(text) + ObjectOverhead
  }
}
