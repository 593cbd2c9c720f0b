/** `CharExtensions`: membership, repetition, inclusive character ranges and
    the UTF-16 surrogate helpers.

    A .NET `char` is one 16-bit UTF-16 code unit, surrogates included, so it
    is modelled as an integer in 0..0xFFFF rather than as a Dafny `char`. */
module Chars {
  import opened Wrappers
  import opened Exceptions
  import Arrays

  /** A UTF-16 code unit (`System.Char`). */
  type CodeUnit = c: int | 0 <= c <= 0xFFFF

  /** `In`: `c` equals one of `values`. */
  predicate In(c: CodeUnit, values: seq<CodeUnit>)
    ensures In(c, values) <==> c in values
  {
    Arrays.IndexOf(values, c) != -1
  }

  /** `NotIn`: `c` equals none of `values`. */
  predicate NotIn(c: CodeUnit, values: seq<CodeUnit>)
    ensures NotIn(c, values) <==> !In(c, values)
  {
    Arrays.IndexOf(values, c) == -1
  }

  /** `count` copies of `c`. */
  function Replicate(c: CodeUnit, count: nat): (s: seq<CodeUnit>)
    ensures |s| == count
    ensures forall i :: 0 <= i < count ==> s[i] == c
  {
    if count == 0 then [] else [c] + Replicate(c, count - 1)
  }

  /** `Repeat` (`new string(c, repeatCount)`): a negative count is rejected. */
  function Repeat(c: CodeUnit, repeatCount: int): (r: Result<seq<CodeUnit>, Exception>)
    ensures r.Failure? <==> repeatCount < 0
    ensures r.Failure? ==> r.error == ArgumentOutOfRangeException("count")
    ensures r.Success? ==> |r.value| == repeatCount && forall i :: 0 <= i < repeatCount ==> r.value[i] == c
  {
    if repeatCount < 0 then Failure(ArgumentOutOfRangeException("count"))
    else Success(Replicate(c, repeatCount))
  }

  /** Repeating `m + n` times is repeating `m` times, then `n` times. */
  lemma RepeatAdds(c: CodeUnit, m: nat, n: nat)
    ensures Repeat(c, m + n).value == Repeat(c, m).value + Repeat(c, n).value
  {
    assert Replicate(c, m + n) == Replicate(c, m) + Replicate(c, n);
  }

  /** `Enumerable.Range(first, last - first + 1)`, cast back to `char`. */
  function Ascend(first: CodeUnit, last: CodeUnit): (s: seq<CodeUnit>)
    requires first <= last
    ensures |s| == last - first + 1
    ensures forall i :: 0 <= i < |s| ==> s[i] == first + i
    decreases last - first
  {
    if first == last then [first] else [first] + Ascend(first + 1, last)
  }

  /** `Enumerable.Reverse`. */
  function Reverse<T>(s: seq<T>): (r: seq<T>)
    ensures |r| == |s|
    ensures forall i :: 0 <= i < |s| ==> r[i] == s[|s| - 1 - i]
  {
    if |s| == 0 then [] else Reverse(s[1..]) + [s[0]]
  }

  lemma ReverseReverse<T>(s: seq<T>)
    ensures Reverse(Reverse(s)) == s
  {
  }

  /** `ToEnumerable(this, toCharacter)`: every code unit from `this` to
      `toCharacter`, both included, walking down when the bounds descend. */
  function ToEnumerable(from: CodeUnit, toCharacter: CodeUnit): (s: seq<CodeUnit>)
    ensures |s| == (if from <= toCharacter then toCharacter - from else from - toCharacter) + 1
    ensures s[0] == from && s[|s| - 1] == toCharacter
    ensures forall i :: 0 <= i < |s| - 1 ==> s[i + 1] as int == s[i] as int + (if from <= toCharacter then 1 else -1)
  {
    var reverseRequired := from > toCharacter;
    var first := if reverseRequired then toCharacter else from;
    var last := if reverseRequired then from else toCharacter;
    var result := Ascend(first, last);
    if reverseRequired then Reverse(result) else result
  }

  /** A range from a character to itself is that character alone. */
  lemma ToEnumerableSingleton(c: CodeUnit)
    ensures ToEnumerable(c, c) == [c]
  {
  }

  /** Swapping the bounds reverses the range. */
  lemma ToEnumerableReversed(a: CodeUnit, b: CodeUnit)
    ensures ToEnumerable(a, b) == Reverse(ToEnumerable(b, a))
  {
    if a < b {
      ReverseReverse(Ascend(a, b));
    }
  }

  /** `Char.IsHighSurrogate`: U+D800 through U+DBFF, that is, the code
      units whose top six bits are the tag 110110 of section 2.2 of
      RFC 2781. */
  predicate IsHighSurrogate(c: CodeUnit)
    ensures IsHighSurrogate(c) <==> c / 0x400 == 0x36
  {
    0xD800 <= c <= 0xDBFF
  }

  /** `Char.IsLowSurrogate`: U+DC00 through U+DFFF, the code units tagged
      110111. */
  predicate IsLowSurrogate(c: CodeUnit)
    ensures IsLowSurrogate(c) <==> c / 0x400 == 0x37
  {
    0xDC00 <= c <= 0xDFFF
  }

  /** `Char.IsSurrogate`: the whole surrogate block U+D800 through U+DFFF. */
  predicate IsSurrogate(c: CodeUnit)
    ensures IsSurrogate(c) <==> IsHighSurrogate(c) || IsLowSurrogate(c)
    ensures !(IsHighSurrogate(c) && IsLowSurrogate(c))
  {
    0xD800 <= c <= 0xDFFF
  }

  /** `Char.IsSurrogatePair`. */
  predicate IsSurrogatePair(highSurrogate: CodeUnit, lowSurrogate: CodeUnit)
    ensures IsSurrogatePair(highSurrogate, lowSurrogate) ==> IsSurrogate(highSurrogate) && IsSurrogate(lowSurrogate)
  {
    IsHighSurrogate(highSurrogate) && IsLowSurrogate(lowSurrogate)
  }

  /** The first code point beyond the Basic Multilingual Plane. */
  const SupplementaryStart := 0x1_0000

  /** The last Unicode code point. */
  const MaxCodePoint := 0x10_FFFF

  /** `Char.ConvertToUtf32(highSurrogate, lowSurrogate)`: the code point a
      surrogate pair encodes; either half out of its range is rejected, the
      high one first. */
  function ConvertToUtf32(highSurrogate: CodeUnit, lowSurrogate: CodeUnit): (r: Result<int, Exception>)
    ensures r.Success? <==> IsSurrogatePair(highSurrogate, lowSurrogate)
    ensures !IsHighSurrogate(highSurrogate) ==> r == Failure(ArgumentOutOfRangeException("highSurrogate"))
    ensures IsHighSurrogate(highSurrogate) && !IsLowSurrogate(lowSurrogate) ==> r == Failure(ArgumentOutOfRangeException("lowSurrogate"))
    ensures r.Success? ==> SupplementaryStart <= r.value <= MaxCodePoint
  {
    if !IsHighSurrogate(highSurrogate) then Failure(ArgumentOutOfRangeException("highSurrogate"))
    else if !IsLowSurrogate(lowSurrogate) then Failure(ArgumentOutOfRangeException("lowSurrogate"))
    else Success((highSurrogate - 0xD800) * 0x400 + (lowSurrogate - 0xDC00) + SupplementaryStart)
  }

  /** Decoding as section 2.2 of RFC 2781 describes it: the ten low-order
      bits of the first unit, then the ten low-order bits of the second, plus
      0x10000. */
  function Rfc2781Decode(w1: CodeUnit, w2: CodeUnit): int {
    (w1 % 0x400) * 0x400 + (w2 % 0x400) + SupplementaryStart
  }

  /** Encoding as section 2.1 of RFC 2781 describes it: subtract 0x10000 and
      split the 20 remaining bits ten and ten over a high and a low surrogate. */
  function Rfc2781Encode(u: int): (pair: (CodeUnit, CodeUnit))
    requires SupplementaryStart <= u <= MaxCodePoint
    ensures IsSurrogatePair(pair.0, pair.1)
  {
    var u' := u - SupplementaryStart;
    (0xD800 + u' / 0x400, 0xDC00 + u' % 0x400)
  }

  /** `ConvertToUtf32` agrees with RFC 2781 on every valid pair. */
  lemma ConvertToUtf32IsRfc2781(highSurrogate: CodeUnit, lowSurrogate: CodeUnit)
    requires IsSurrogatePair(highSurrogate, lowSurrogate)
    ensures ConvertToUtf32(highSurrogate, lowSurrogate) == Success(Rfc2781Decode(highSurrogate, lowSurrogate))
  {
    assert highSurrogate % 0x400 == highSurrogate - 0xD800;
    assert lowSurrogate % 0x400 == lowSurrogate - 0xDC00;
  }

  /** Decoding an encoded code point gives it back. */
  lemma DecodeEncode(u: int)
    requires SupplementaryStart <= u <= MaxCodePoint
    ensures var pair := Rfc2781Encode(u); ConvertToUtf32(pair.0, pair.1) == Success(u)
  {
  }

  /** Encoding a decoded pair gives the pair back. */
  lemma EncodeDecode(highSurrogate: CodeUnit, lowSurrogate: CodeUnit)
    requires IsSurrogatePair(highSurrogate, lowSurrogate)
    ensures Rfc2781Encode(ConvertToUtf32(highSurrogate, lowSurrogate).value) == (highSurrogate, lowSurrogate)
  {
    var u' := (highSurrogate - 0xD800) * 0x400 + (lowSurrogate - 0xDC00);
    assert u' / 0x400 == highSurrogate - 0xD800;
    assert u' % 0x400 == lowSurrogate - 0xDC00;
  }
}
