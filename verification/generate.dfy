/** `generate_string`: a string of `n` characters, each picked from the pool
    the pattern selects. Which character is picked is left open: the model
    states only what every possible pick satisfies. */
module Generate {
  import opened Fields
  import opened Ascii

  const LowerPool: string := "abcdefghijklmnopqrstuvwxyz"
  const UpperPool: string := "ABCDEFGHIJKLMNOPQRSTUVWXYZ"
  const MixedPool: string := "ABCDEFGHIJKLMNOPQRSTUVWXYZabcdefghijklmnopqrstuvwxyz"

  /** The characters to pick from: lower-case for `lower`, upper-case for
      `upper`, both for every other value (including `mixed` and `None`). */
  function Pool(pattern: Option<string>): (chars: string)
    ensures |chars| > 0
  {
    if pattern == Some("lower") then LowerPool
    else if pattern == Some("upper") then UpperPool
    else MixedPool
  }

  /** Which characters the pool for `pattern` admits, stated by character class. */
  predicate Admits(pattern: Option<string>, c: char) {
    if pattern == Some("lower") then IsLowerLetter(c)
    else if pattern == Some("upper") then IsUpperLetter(c)
    else IsLetter(c)
  }

  /** The number of characters `range(n)` visits. */
  function Count(n: int): nat {
    if n > 0 then n else 0
  }

  /** The contract of a generated string: `n` characters from the pool. */
  predicate IsGenerated(s: string, n: int, pattern: Option<string>) {
    |s| == Count(n) && forall i :: 0 <= i < |s| ==> s[i] in Pool(pattern)
  }

  lemma {:induction false} LowerPoolIsLowerLetters(c: char)
    ensures c in LowerPool <==> IsLowerLetter(c)
  {
    if IsLowerLetter(c) {
      var k := c as int - 'a' as int;
      assert LowerPool[k] == c;
    }
  }

  lemma {:induction false} UpperPoolIsUpperLetters(c: char)
    ensures c in UpperPool <==> IsUpperLetter(c)
  {
    if IsUpperLetter(c) {
      var k := c as int - 'A' as int;
      assert UpperPool[k] == c;
    }
  }

  lemma {:induction false} MixedPoolIsLetters(c: char)
    ensures c in MixedPool <==> IsLetter(c)
  {
    assert MixedPool == UpperPool + LowerPool;
    LowerPoolIsLowerLetters(c);
    UpperPoolIsUpperLetters(c);
  }

  /** The pool literal holds exactly the characters `Admits` describes. */
  lemma {:induction false} PoolIsCharacterClass(pattern: Option<string>, c: char)
    ensures c in Pool(pattern) <==> Admits(pattern, c)
  {
    LowerPoolIsLowerLetters(c);
    UpperPoolIsUpperLetters(c);
    MixedPoolIsLetters(c);
  }

  /** The pools list their letters in alphabetical order. */
  lemma PoolsAlphabetical()
    ensures |LowerPool| == 26 && |UpperPool| == 26
    ensures forall i :: 0 <= i < 26 ==> LowerPool[i] as int == 'a' as int + i
    ensures forall i :: 0 <= i < 26 ==> UpperPool[i] as int == 'A' as int + i
  {
  }

  /** Pool sizes: 26, 26 and 52 characters, none repeated. */
  lemma {:induction false} PoolSizes()
    ensures |LowerPool| == 26 && |UpperPool| == 26 && |MixedPool| == 52
    ensures forall i, j :: 0 <= i < j < |MixedPool| ==> MixedPool[i] != MixedPool[j]
  {
    PoolsAlphabetical();
    assert MixedPool == UpperPool + LowerPool;
    assert forall i :: 0 <= i < 26 ==> MixedPool[i] as int == 'A' as int + i;
    assert forall i :: 26 <= i < 52 ==> MixedPool[i] as int == 'a' as int + (i - 26);
  }

  /** `''.join(random.choice(chars) for _ in range(n))`: each step picks
      some index of the pool. */
  method GenerateString(n: int, pattern: Option<string>) returns (s: string)
    ensures |s| == Count(n)
    ensures forall i :: 0 <= i < |s| ==> s[i] in Pool(pattern)
  {
    var chars := Pool(pattern);
    s := [];
    var k := 0;
    while k < n
      invariant |s| == Count(k)
      invariant k <= Count(n)
      invariant forall i :: 0 <= i < |s| ==> s[i] in chars
    {
      var j :| 0 <= j < |chars|;
      s := s + [chars[j]];
      k := k + 1;
    }
  }

  /** Generated strings are letters of the admitted class, hence ASCII. */
  lemma {:induction false} GeneratedIsAdmitted(s: string, n: int, pattern: Option<string>)
    requires IsGenerated(s, n, pattern)
    ensures forall i :: 0 <= i < |s| ==> Admits(pattern, s[i]) && IsLetter(s[i]) && IsAsciiChar(s[i])
  {
    forall i | 0 <= i < |s|
      ensures Admits(pattern, s[i]) && IsLetter(s[i]) && IsAsciiChar(s[i])
    {
      PoolIsCharacterClass(pattern, s[i]);
    }
  }
}
