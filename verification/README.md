# Pure.Ext core, modelled in Dafny

Pure.Ext is a C# library of extension methods. This project models its
side-effect-free core as immutable datatypes and pure functions, and proves
what each helper promises:

- `IsBetween` and the two comparers of `ComparableExtensions`;
- the decimal helpers of `DecimalExtenders`: ranges, membership, sign,
  absolute value, min/max, floor/ceiling/truncate and the `Round` family;
- the `char` helpers of `CharExtensions`: membership, `Repeat`, character
  ranges, the surrogate predicates and `ConvertToUtf32`, checked against
  section 2.2 of RFC 2781;
- the enum helpers of `EnumExtensions`: `SetFlag(s)`, `ClearFlag(s)`,
  `HasFlags`, `DisplayString`, `In`/`NotIn`;
- the `Cultures` enum, as a total map from member to culture name;
- `ValueTypeExtensions`: `IsEmpty`, `IsNotEmpty`, `ToNullable`;
- the type-walking helpers of `ReflectionExtension`: base chain, hierarchy,
  generic implementation search, nullable wrap/unwrap, numeric, anonymous,
  concrete and structural tests;
- `TypeExtensions.IsBaseType` and `TypeExtensions.IsSubclassOfRawGeneric`,
  including the null case in which their loops never advance;
- `MethodInfo.GetDeclaraction`, the method-declaration renderer.

One module per source file:

| module | file |
|---|---|
| `Comparable` | comparable.dfy |
| `Decimals` | decimals.dfy |
| `Chars` | chars.dfy |
| `Enums` | enums.dfy |
| `Cultures` | cultures.dfy |
| `ValueTypes` | value_types.dfy |
| `Reflection` | reflection.dfy |
| `TypeExtensions` | type_extensions.dfy |
| `Declarations` | declarations.dfy |

Shared pieces:

- `Wrappers` holds `Option` (null) and `Result` (a value or a thrown
  exception).
- `Exceptions` holds the exception kinds, each with its parameter name.
- `Types` holds the type universe.
- `Arrays` holds `Array.IndexOf`.

Representation choices:

- A `decimal` is a `real`. A `char` is a 16-bit code unit, an `int` below
  0x10000.
- An enum value read through `Convert.ToUInt64` is the set of positions of
  its one bits, each below 64. OR, AND and AND-NOT of 64-bit masks are then
  union, intersection and difference. This is the same algebra as on a
  64-bit vector, but the solver handles it far better than `bv64`.
- Reflection works over a finite `Universe`, a map from type ids to type
  records. A `depth` rank witnesses that base chains are acyclic.
  `MakeGenericType` of `Nullable<>` is given by a map in the universe. A
  value type missing from that map (`void`, `TypedReference`, a ref struct)
  is one `MakeGenericType` rejects with an `ArgumentException`.
- `Equals(default(T))` on a value type is value equality, and the default
  is passed in as a parameter.
- A comparer is its `Compare` function, and a null comparer is `None`.
- The values of `Cultures` are the members' positions, since the enum
  declares no explicit values.

## Model

| member | source | states |
|---|---|---|
| Comparable.Ascending | Pure.Ext/Pure.Ext/OtherExt/ComparableExtensions.cs:70-76 | the ascending comparer compares exactly as `CompareTo` does |
| Comparable.Descending | Pure.Ext/Pure.Ext/OtherExt/ComparableExtensions.cs:58-64 | the descending comparer of (x, y) is the ascending comparer of (y, x) |
| Comparable.IsBetweenWith | Pure.Ext/Pure.Ext/OtherExt/ComparableExtensions.cs:40-52 | a null comparer fails with ArgumentNullException("comparer"), whatever the values; under a lawful comparer the answer is true iff the value lies between the two bounds, both ends included, in either bound order |
| Comparable.IsBetween | Pure.Ext/Pure.Ext/OtherExt/ComparableExtensions.cs:19-22 | the two-bound overload is the comparer overload with the default (ascending) comparer and never fails; under a lawful `CompareTo` it is the inclusive either-order range test |
| Comparable.IsBetweenInclusive | Pure.Ext/Pure.Ext/OtherExt/ComparableExtensions.cs:36 | with min sorting before max, the test is min <= value <= max, both ends inclusive |
| Comparable.IsBetweenSwapBounds | Pure.Ext/Pure.Ext/OtherExt/ComparableExtensions.cs:45-51 | swapping the two bounds never changes the answer |
| Comparable.IsBetweenEqualBounds | Pure.Ext/Pure.Ext/OtherExt/ComparableExtensions.cs:48-51 | with bounds that compare equal, the answer is true iff the value compares equal to the bound |
| Comparable.DescendingIsLawful | Pure.Ext/Pure.Ext/OtherExt/ComparableExtensions.cs:58-64 | reversing a lawful order (reflexive, antisymmetric in sign, transitive) gives a lawful order |
| Comparable.DescendingAgreesWithAscending | Pure.Ext/Pure.Ext/OtherExt/ComparableExtensions.cs:45-51 | `IsBetween` gives the same answer under the descending comparer as under the ascending one |
| Comparable.IntCompareTo | Pure.Ext/Pure.Ext/OtherExt/ComparableExtensions.cs:72-75 | integer `CompareTo` is negative iff x < y and zero iff x == y |
| Comparable.IntIsBetween | Pure.Ext/Pure.Ext/OtherExt/ComparableExtensions.cs:19-22 | on integers `IsBetween(v, a, b)` is min(a,b) <= v <= max(a,b) |
| Decimals.CompareTo | Pure.Ext/Pure.Ext/NumericExt/DecimalExtensions.cs:201 | decimal comparison is -1, 0 or 1, and -1 iff a < b, 1 iff a > b |
| Decimals.Between | Pure.Ext/Pure.Ext/NumericExt/DecimalExtensions.cs:199-202 | `Between` is true iff min < x < max, both ends excluded |
| Decimals.InRange | Pure.Ext/Pure.Ext/NumericExt/DecimalExtensions.cs:226-229 | `InRange` is true iff min <= x <= max, both ends included |
| Decimals.BetweenVersusInRange | Pure.Ext/Pure.Ext/NumericExt/DecimalExtensions.cs:199-229 | `Between` implies `InRange`; an end point fails `Between` but passes `InRange` when min <= max; with min > max nothing is in range |
| Decimals.In | Pure.Ext/Pure.Ext/NumericExt/DecimalExtensions.cs:212-215 | `In` holds iff the value equals one of the listed values |
| Decimals.NotIn | Pure.Ext/Pure.Ext/NumericExt/DecimalExtensions.cs:239-242 | `NotIn` is the negation of `In` |
| Decimals.Abs | Pure.Ext/Pure.Ext/NumericExt/DecimalExtensions.cs:36-39 | the absolute value is non-negative and equal to x or -x |
| Decimals.AbsAll | Pure.Ext/Pure.Ext/NumericExt/DecimalExtensions.cs:46-50 | the sequence overload keeps length and order and takes `Abs` of each element |
| Decimals.Sign | Pure.Ext/Pure.Ext/NumericExt/DecimalExtensions.cs:173-176 | the sign is -1, 0 or 1 exactly as x is negative, zero or positive |
| Decimals.SignTimesAbs | Pure.Ext/Pure.Ext/NumericExt/DecimalExtensions.cs:36-39 | sign times absolute value rebuilds the number |
| Decimals.Max | Pure.Ext/Pure.Ext/NumericExt/DecimalExtensions.cs:93-96 | `Max` is one of its arguments and no smaller than either |
| Decimals.Min | Pure.Ext/Pure.Ext/NumericExt/DecimalExtensions.cs:104-107 | `Min` is one of its arguments and no larger than either |
| Decimals.Floor | Pure.Ext/Pure.Ext/NumericExt/DecimalExtensions.cs:82-85 | `Floor` is the integral r with r <= d < r + 1 |
| Decimals.Ceiling | Pure.Ext/Pure.Ext/NumericExt/DecimalExtensions.cs:70-73 | `Ceiling` is the integral r with r - 1 < d <= r |
| Decimals.Truncate | Pure.Ext/Pure.Ext/NumericExt/DecimalExtensions.cs:185-188 | `Truncate` is integral, below d in magnitude by less than one, with d's sign unless zero |
| Decimals.IntegralPartsOfIntegral | Pure.Ext/Pure.Ext/NumericExt/DecimalExtensions.cs:70-188 | an integral value is its own floor, ceiling and integral part |
| Decimals.RoundToInt | Pure.Ext/Pure.Ext/NumericExt/DecimalExtensions.cs:144-147 | rounding to an integer lands within 0.5, keeps integers, and at an exact tie picks the even neighbour (ToEven) or the one away from zero (AwayFromZero) |
| Decimals.RoundToIntIsNearest | Pure.Ext/Pure.Ext/NumericExt/DecimalExtensions.cs:144-147 | no integer is closer to d than the rounded one |
| Decimals.ShiftBack | Pure.Ext/Pure.Ext/NumericExt/DecimalExtensions.cs:160-163 | moving the decimal point right by k digits and back restores the value |
| Decimals.RoundDigits | Pure.Ext/Pure.Ext/NumericExt/DecimalExtensions.cs:160-163 | `Round(d, decimals, mode)` fails with ArgumentOutOfRangeException("decimals") iff decimals is outside 0..28; otherwise the result has at most `decimals` fractional digits, lies within half a unit of the last kept digit, equals d when d already fits, and at an exact tie keeps an even last digit (ToEven) or moves away from zero (AwayFromZero) |
| Decimals.ExactWhenFewDigits | Pure.Ext/Pure.Ext/NumericExt/DecimalExtensions.cs:160-163 | a value that already has at most k digits is unchanged by rounding to k digits |
| Decimals.DigitsOfScaled | Pure.Ext/Pure.Ext/NumericExt/DecimalExtensions.cs:160-163 | an integer divided by 10^k has at most k fractional digits |
| Decimals.ScaledError | Pure.Ext/Pure.Ext/NumericExt/DecimalExtensions.cs:160-163 | an error of at most 0.5 at scale s shrinks to 0.5/s after scaling back |
| Decimals.RoundedHasDigits | Pure.Ext/Pure.Ext/NumericExt/DecimalExtensions.cs:160-163 | shifting by k digits, rounding to an integer and shifting back leaves at most k fractional digits |
| Decimals.RoundedError | Pure.Ext/Pure.Ext/NumericExt/DecimalExtensions.cs:160-163 | rounding at k digits moves the value by at most half a unit in the k-th digit |
| Decimals.RoundedErrorAt | Pure.Ext/Pure.Ext/NumericExt/DecimalExtensions.cs:160-163 | rounding d·s to an integer and dividing by s moves d by at most 0.5/s, for any scale s >= 1 |
| Decimals.RoundedTie | Pure.Ext/Pure.Ext/NumericExt/DecimalExtensions.cs:155-163 | at an exact tie in the last kept digit, ToEven keeps that digit even and AwayFromZero moves the result away from zero |
| Decimals.RoundedTieEven | Pure.Ext/Pure.Ext/NumericExt/DecimalExtensions.cs:155-163 | at a tie, rounding to even at k digits leaves an even number of units of the k-th digit |
| Decimals.RoundedTieAway | Pure.Ext/Pure.Ext/NumericExt/DecimalExtensions.cs:155-163 | at a tie, rounding away from zero at k digits gives a result larger in magnitude than d |
| Decimals.TieEvenAt | Pure.Ext/Pure.Ext/NumericExt/DecimalExtensions.cs:155-163 | at any scale s >= 1, a tie rounded to even gives an even integer, which scaling back and forth preserves |
| Decimals.TieAwayAt | Pure.Ext/Pure.Ext/NumericExt/DecimalExtensions.cs:155-163 | at any scale s >= 1, a tie rounded away from zero grows in magnitude |
| Decimals.TieAtScale | Pure.Ext/Pure.Ext/NumericExt/DecimalExtensions.cs:155-163 | a result half a unit of the last digit from d is, before scaling back, exactly halfway from the scaled value |
| Decimals.Round | Pure.Ext/Pure.Ext/NumericExt/DecimalExtensions.cs:118-121 | `Round(d)` is integral, within 0.5 of d, and even at a tie |
| Decimals.RoundMode | Pure.Ext/Pure.Ext/NumericExt/DecimalExtensions.cs:144-147 | `Round(d, mode)` is digit rounding with zero digits, which never fails |
| Decimals.RoundTo | Pure.Ext/Pure.Ext/NumericExt/DecimalExtensions.cs:129-132 | `Round(d, decimals)` is digit rounding with ties to even, including its failure outside 0..28 |
| Decimals.RoundDecimalPoints | Pure.Ext/Pure.Ext/NumericExt/DecimalExtensions.cs:16-19 | `RoundDecimalPoints` is digit rounding with ties to even, failing outside 0..28 |
| Decimals.RoundToTwoDecimalPoints | Pure.Ext/Pure.Ext/NumericExt/DecimalExtensions.cs:26-29 | two-digit rounding never fails, leaves at most two fractional digits and moves the value by at most 0.005 |
| Decimals.ToMoney | Pure.Ext/Pure.Ext/NumericExt/DecimalExtensions.cs:57-60 | `ToMoney` is the same two-digit banker's rounding, so its result has at most two digits |
| Decimals.RoundDigitsIdempotent | Pure.Ext/Pure.Ext/NumericExt/DecimalExtensions.cs:160-163 | rounding a rounded value again to the same digits changes nothing |
| Decimals.RoundExamples | Pure.Ext/Pure.Ext/NumericExt/DecimalExtensions.cs:110-163 | 2.5 and -2.5 round to even, 3.5 to 4; AwayFromZero gives 3 and -3; `ToMoney(1.005)` is 1.00 and `ToMoney(1.015)` is 1.02; 0.125 rounds to 0.12 at two digits to even and to 0.13 away from zero; -1 and 29 digits fail |
| Chars.In | Pure.Ext/Pure.Ext/NumericExt/CharExtensions.cs:29-32 | `In` holds iff the character equals one of the listed ones |
| Chars.NotIn | Pure.Ext/Pure.Ext/NumericExt/CharExtensions.cs:16-19 | `NotIn` is the negation of `In` |
| Chars.Replicate | Pure.Ext/Pure.Ext/NumericExt/CharExtensions.cs:40-43 | `count` copies: length `count`, every position the character |
| Chars.Repeat | Pure.Ext/Pure.Ext/NumericExt/CharExtensions.cs:40-43 | a negative count fails with ArgumentOutOfRangeException("count") and only then; otherwise the string has exactly `repeatCount` copies of the character |
| Chars.RepeatAdds | Pure.Ext/Pure.Ext/NumericExt/CharExtensions.cs:40-43 | repeating m + n times is repeating m times followed by n times |
| Chars.Ascend | Pure.Ext/Pure.Ext/NumericExt/CharExtensions.cs:58 | `Enumerable.Range(first, last - first + 1)` lists first, first+1, ..., last |
| Chars.Reverse | Pure.Ext/Pure.Ext/NumericExt/CharExtensions.cs:60-63 | `Reverse` keeps length and mirrors positions |
| Chars.ReverseReverse | Pure.Ext/Pure.Ext/NumericExt/CharExtensions.cs:60-63 | reversing twice is the identity |
| Chars.ToEnumerable | Pure.Ext/Pure.Ext/NumericExt/CharExtensions.cs:51-66 | the range starts at `this`, ends at `toCharacter`, has their distance plus one elements, and steps by +1 upward or -1 downward |
| Chars.ToEnumerableSingleton | Pure.Ext/Pure.Ext/NumericExt/CharExtensions.cs:51-66 | the range from a character to itself is that character alone |
| Chars.ToEnumerableReversed | Pure.Ext/Pure.Ext/NumericExt/CharExtensions.cs:51-66 | swapping the bounds reverses the range |
| Chars.IsHighSurrogate | Pure.Ext/Pure.Ext/NumericExt/CharExtensions.cs:126-129 | a high surrogate is exactly a code unit whose top six bits are 110110 (U+D800..U+DBFF), the high tag of section 2.2 of RFC 2781 |
| Chars.IsLowSurrogate | Pure.Ext/Pure.Ext/NumericExt/CharExtensions.cs:168-171 | a low surrogate is exactly a code unit whose top six bits are 110111 (U+DC00..U+DFFF), the low tag of section 2.2 of RFC 2781 |
| Chars.IsSurrogate | Pure.Ext/Pure.Ext/NumericExt/CharExtensions.cs:208-211 | a surrogate is high or low, never both |
| Chars.IsSurrogatePair | Pure.Ext/Pure.Ext/NumericExt/CharExtensions.cs:222-225 | both halves of a surrogate pair are surrogates |
| Chars.ConvertToUtf32 | Pure.Ext/Pure.Ext/NumericExt/CharExtensions.cs:74-77 | succeeds iff the pair is high+low; a bad high half fails with ArgumentOutOfRangeException("highSurrogate") before the low half is checked ("lowSurrogate"); a success lies in U+10000..U+10FFFF |
| Chars.Rfc2781Encode | Pure.Ext/Pure.Ext/NumericExt/CharExtensions.cs:74-77 | the RFC 2781 encoding of a supplementary code point is a surrogate pair |
| Chars.ConvertToUtf32IsRfc2781 | Pure.Ext/Pure.Ext/NumericExt/CharExtensions.cs:74-77 | on every valid pair, `ConvertToUtf32` is the decoding of section 2.2 of RFC 2781 |
| Chars.DecodeEncode | Pure.Ext/Pure.Ext/NumericExt/CharExtensions.cs:74-77 | converting the encoded pair of a code point gives the code point back |
| Chars.EncodeDecode | Pure.Ext/Pure.Ext/NumericExt/CharExtensions.cs:74-77 | encoding a converted pair gives the pair back |
| Enums.OrAllBits | Pure.Ext/Pure.Ext/EnumExt/EnumExtensions.cs:65-71 | a bit is in the OR of the flags iff some flag has it |
| Enums.OrAllSameFlags | Pure.Ext/Pure.Ext/EnumExt/EnumExtensions.cs:65-71 | the OR of the flags depends only on which flags are listed |
| Enums.SetFlags | Pure.Ext/Pure.Ext/EnumExt/EnumExtensions.cs:65-71 | ORing the flags in one at a time keeps every bit of the value and sets every bit of every flag |
| Enums.SetFlagsIsOr | Pure.Ext/Pure.Ext/EnumExt/EnumExtensions.cs:65-71 | the flag-by-flag loop of `SetFlags` equals the value OR all flags |
| Enums.SetFlag | Pure.Ext/Pure.Ext/EnumExt/EnumExtensions.cs:51-54 | `SetFlag` is the value OR the flag |
| Enums.ClearFlags | Pure.Ext/Pure.Ext/EnumExt/EnumExtensions.cs:34-40 | clearing the flags one at a time sets no new bit and leaves no bit of any flag set |
| Enums.ClearFlagsIsAndNot | Pure.Ext/Pure.Ext/EnumExt/EnumExtensions.cs:34-40 | the flag-by-flag loop of `ClearFlags` equals the value AND NOT (OR of all flags) |
| Enums.ClearFlag | Pure.Ext/Pure.Ext/EnumExt/EnumExtensions.cs:20-23 | `ClearFlag` is the value AND NOT the flag |
| Enums.SetFlagsBits | Pure.Ext/Pure.Ext/EnumExt/EnumExtensions.cs:65-71 | a bit is set after `SetFlags` iff it was set or some flag has it; no flags leaves the value unchanged |
| Enums.ClearFlagsBits | Pure.Ext/Pure.Ext/EnumExt/EnumExtensions.cs:34-40 | a bit is set after `ClearFlags` iff it was set and no flag has it |
| Enums.SetClearIdempotent | Pure.Ext/Pure.Ext/EnumExt/EnumExtensions.cs:34-71 | setting or clearing the same flags a second time changes nothing |
| Enums.SetClearOrderInsensitive | Pure.Ext/Pure.Ext/EnumExt/EnumExtensions.cs:34-71 | the order and repetition of the listed flags do not matter |
| Enums.ClearUndoesSet | Pure.Ext/Pure.Ext/EnumExt/EnumExtensions.cs:34-71 | clearing flags after setting them equals clearing them from the original |
| Enums.AllFlagsSet | Pure.Ext/Pure.Ext/EnumExt/EnumExtensions.cs:87-97 | the `HasFlags` loop is true iff every flag is a defined value and all its bits are set in the variable |
| Enums.HasFlags | Pure.Ext/Pure.Ext/EnumExt/EnumExtensions.cs:81-98 | a non-enum type argument fails with ArgumentException("variable"), and only then; for an enum the result is that every flag is defined and contained in the variable |
| Enums.HasFlagsCases | Pure.Ext/Pure.Ext/EnumExt/EnumExtensions.cs:87-97 | no flags gives true; an undefined flag gives false even if its bits are set; a defined zero flag gives true |
| Enums.HasFlagsAfterSet | Pure.Ext/Pure.Ext/EnumExt/EnumExtensions.cs:65-98 | every defined flag just set is reported present by `HasFlags` |
| Enums.FirstMemberWithValue | Pure.Ext/Pure.Ext/EnumExt/EnumExtensions.cs:141 | finds the first member declared with the value, or reports that none has it |
| Enums.DisplayString | Pure.Ext/Pure.Ext/EnumExt/EnumExtensions.cs:139-144 | succeeds iff the value is defined, otherwise a NullReferenceException; on success it is the first `DisplayString` attribute text, else the name, of the first member declared with that value |
| Enums.DisplayStringOfMember | Pure.Ext/Pure.Ext/EnumExt/EnumExtensions.cs:139-144 | when no two members share a value, `DisplayString` of a member's value is that member's display text |
| Enums.In | Pure.Ext/Pure.Ext/EnumExt/EnumExtensions.cs:163-166 | `In` holds iff the boxed value (type and value) equals one of the listed ones |
| Enums.NotIn | Pure.Ext/Pure.Ext/EnumExt/EnumExtensions.cs:174-177 | `NotIn` is the negation of `In` |
| Arrays.IndexOf | Pure.Ext/Pure.Ext/EnumExt/EnumExtensions.cs:165 | `Array.IndexOf` is -1 iff the value is absent, otherwise the first index holding it |
| Arrays.IndexOfCons | Pure.Ext/Pure.Ext/EnumExt/EnumExtensions.cs:165 | searching with one element in front finds it at 0 if it matches, otherwise one past the position in the rest, and -1 stays -1 |
| Arrays.Before | Pure.Ext/Pure.Ext/ReflectExt/TypeExtensions.cs:57 | the part of a chain before the first `x` never holds `x` and holds only elements of the chain |
| Arrays.BeforeCons | Pure.Ext/Pure.Ext/ReflectExt/TypeExtensions.cs:57-65 | an element other than `x` in front stays in front of the part before the first `x` |
| Cultures.DefinedValues | Pure.Ext/Pure.Ext/Cultures.cs:5-686 | the defined values of `Cultures` are exactly the 225 member positions |
| Cultures.DisplayStringIsTag | Pure.Ext/Pure.Ext/Cultures.cs:10-683 | `DisplayString` of every member is its culture-name attribute; any value past the last member fails |
| Cultures.TagsHaveLanguagePrefix | Pure.Ext/Pure.Ext/Cultures.cs:10-683 | every culture name starts with a two- or three-letter lower-case language code followed by `-` |
| Cultures.TagsContainSeparator | Pure.Ext/Pure.Ext/Cultures.cs:10-683 | every culture name contains a `-` |
| Cultures.NeutralCulturesShareTags | Pure.Ext/Pure.Ext/Cultures.cs:10-176 | neutral members carry a specific culture's name: Afrikaans and Afrikaans_SouthAfrica are both af-ZA, Arabic and Arabic_SaudiArabia ar-SA, English and English_UnitedStates en-US, Serbian and Serbian_Latin_Serbia sr-Latn-CS |
| Cultures.NumericRegionTag | Pure.Ext/Pure.Ext/Cultures.cs:145-146 | English_Caribbean carries the numeric-region tag en-029 |
| Cultures.JapaneseTag | Pure.Ext/Pure.Ext/Cultures.cs:364-365 | Japanese_Japan carries ja-JP |
| Cultures.ChineseScriptTags | Pure.Ext/Pure.Ext/Cultures.cs:661-665 | Chinese_Simplified carries zh-Hans and Chinese_Traditional zh-Hant |
| ValueTypes.IsEmpty | Pure.Ext/Pure.Ext/ReflectExt/ValueTypeExtensions.cs:15-18 | a value is empty iff it equals the type's default |
| ValueTypes.IsNotEmpty | Pure.Ext/Pure.Ext/ReflectExt/ValueTypeExtensions.cs:28-31 | a value is not empty iff it differs from the default |
| ValueTypes.ToNullable | Pure.Ext/Pure.Ext/ReflectExt/ValueTypeExtensions.cs:39-42 | null iff the value is the default; otherwise the value itself, which is not empty |
| ValueTypes.ToNullableRoundTrip | Pure.Ext/Pure.Ext/ReflectExt/ValueTypeExtensions.cs:39-42 | reading the result back with the default as fallback gives the original value |
| ValueTypes.ToNullableNormalizes | Pure.Ext/Pure.Ext/ReflectExt/ValueTypeExtensions.cs:39-42 | the result is never a non-null default, and applying `ToNullable` again to it changes nothing |
| Reflection.GetBaseTypes | Pure.Ext/Pure.Ext/ReflectExt/ReflectionExtension.cs:12-24 | every listed base type is loaded and ranks below the type |
| Reflection.BaseTypesAreTheChain | Pure.Ext/Pure.Ext/ReflectExt/ReflectionExtension.cs:12-24 | the list is empty iff there is no base type; it starts at the base type, each entry is the base of the one before, the last has no base, the type itself is absent, and `object`, when present, is last |
| Reflection.GetHierarchyTypes | Pure.Ext/Pure.Ext/ReflectExt/ReflectionExtension.cs:160-168 | a type is in the hierarchy iff it is the type, one of its base types or one of its interfaces |
| Reflection.HierarchyOrder | Pure.Ext/Pure.Ext/ReflectExt/ReflectionExtension.cs:160-168 | the hierarchy lists the type first, then the base chain in order, then the interfaces |
| Reflection.FirstWithDefinition | Pure.Ext/Pure.Ext/ReflectExt/ReflectionExtension.cs:145-152 | finds the first entry that is a generic type with the given definition, or none when no entry is |
| Reflection.GetGenericImplementType | Pure.Ext/Pure.Ext/ReflectExt/ReflectionExtension.cs:143-153 | null iff no hierarchy type is generic with that definition; otherwise the first hierarchy entry, in hierarchy order, that is generic with it; a null definition never matches |
| Reflection.DefinitionImplementsItself | Pure.Ext/Pure.Ext/ReflectExt/ReflectionExtension.cs:143-153 | a generic type definition is found as its own implementation |
| Reflection.IsNullableType | Pure.Ext/Pure.Ext/ReflectExt/ReflectionExtension.cs:335-339 | a null type fails with ArgumentNullException("type"), and only it; otherwise true iff the generic definition is `Nullable<>` |
| Reflection.GetNonNullableType | Pure.Ext/Pure.Ext/ReflectExt/ReflectionExtension.cs:239-246 | a null type fails with ArgumentNullException("type"); a nullable type yields its type argument, any other type itself; the result is never nullable |
| Reflection.NonNullableIdempotent | Pure.Ext/Pure.Ext/ReflectExt/ReflectionExtension.cs:239-246 | unwrapping twice is unwrapping once |
| Reflection.GetNullableType | Pure.Ext/Pure.Ext/ReflectExt/ReflectionExtension.cs:253-260 | a null type fails with NullReferenceException; a non-nullable value type yields `Nullable<type>` when it can be a type argument and fails with ArgumentException otherwise; any other type is returned itself |
| Reflection.NullableRoundTrip | Pure.Ext/Pure.Ext/ReflectExt/ReflectionExtension.cs:239-260 | wrapping fails only for a value type that cannot be a type argument; whenever it succeeds, unwrapping gives back any type that was not nullable |
| Reflection.NullableRoundTripOfNullable | Pure.Ext/Pure.Ext/ReflectExt/ReflectionExtension.cs:239-260 | a nullable type is left alone by wrapping, so it does not survive the round trip |
| Reflection.NullableIdempotent | Pure.Ext/Pure.Ext/ReflectExt/ReflectionExtension.cs:253-260 | whenever wrapping succeeds, wrapping twice is wrapping once |
| Reflection.IsNumericCode | Pure.Ext/Pure.Ext/ReflectExt/ReflectionExtension.cs:351-366 | the numeric type codes are exactly Char (4) through Decimal (15) |
| Reflection.IsNumericType | Pure.Ext/Pure.Ext/ReflectExt/ReflectionExtension.cs:346-369 | a null type fails with ArgumentNullException("type"); otherwise, after unwrapping `Nullable<>`, true iff the type is not an enum and its type code is Char through Decimal |
| Reflection.NumericIgnoresNullable | Pure.Ext/Pure.Ext/ReflectExt/ReflectionExtension.cs:346-369 | whenever a type can be wrapped, it and its nullable form are numeric alike |
| Reflection.IsAnonymousType | Pure.Ext/Pure.Ext/ReflectExt/ReflectionExtension.cs:262-267 | a null type fails with ArgumentNullException("type"); a missing full name fails with NullReferenceException; otherwise true iff the name is longer than 18 characters and starts with the anonymous-type prefix |
| Reflection.AnonymousNames | Pure.Ext/Pure.Ext/ReflectExt/ReflectionExtension.cs:262-267 | a name that is only the prefix is not anonymous; the prefix followed by anything is |
| Reflection.IsConcreteType | Pure.Ext/Pure.Ext/ReflectExt/ReflectionExtension.cs:274-277 | a concrete type is not abstract, not an array, and not an open generic definition |
| Reflection.IsValidStructuralPropertyType | Pure.Ext/Pure.Ext/ReflectExt/ReflectionExtension.cs:376-379 | a valid structural property type is not an open generic definition, not a pointer and not `object` |
| Reflection.IsValidStructuralType | Pure.Ext/Pure.Ext/ReflectExt/ReflectionExtension.cs:386-389 | a valid structural type is a valid structural property type and a non-generic, non-array, non-primitive, non-value, non-interface reference type other than `string` |
| Reflection.StructuralIsNotNullable | Pure.Ext/Pure.Ext/ReflectExt/ReflectionExtension.cs:253-389 | a structural type is never nullable and `GetNullableType` leaves it alone |
| TypeExtensions.Chain | Pure.Ext/Pure.Ext/ReflectExt/TypeExtensions.cs:57-66 | the loop visits the type first, then its base chain, all loaded |
| TypeExtensions.Visited | Pure.Ext/Pure.Ext/ReflectExt/TypeExtensions.cs:57 | the types the loop body inspects never include `object` |
| TypeExtensions.ChainOfBase | Pure.Ext/Pure.Ext/ReflectExt/TypeExtensions.cs:57-65 | with a base type, the loop's chain is the type followed by the chain of its base |
| TypeExtensions.VisitedStep | Pure.Ext/Pure.Ext/ReflectExt/TypeExtensions.cs:57-65 | one loop step from a type other than `object` with a base: the inspected types are the type followed by those of the base, and `object` is reached from the type iff it is reached from the base |
| TypeExtensions.VisitedNoBase | Pure.Ext/Pure.Ext/ReflectExt/TypeExtensions.cs:57-65 | from a type other than `object` without a base, only the type is inspected and `object` is never reached |
| TypeExtensions.ObjectVisitsNothing | Pure.Ext/Pure.Ext/ReflectExt/TypeExtensions.cs:57 | starting at `object`, the loop inspects no type and has reached `object` at once |
| TypeExtensions.IsBaseType | Pure.Ext/Pure.Ext/ReflectExt/TypeExtensions.cs:55-68 | a null type never returns; `object` gives false for every checked type |
| TypeExtensions.IsBaseTypeSearchesChain | Pure.Ext/Pure.Ext/ReflectExt/TypeExtensions.cs:55-68 | true iff the checked type is the type or a base below `object`; false iff not and the chain reaches `object`; no answer iff not and the chain ends in null first |
| TypeExtensions.IsBaseTypeReflexive | Pure.Ext/Pure.Ext/ReflectExt/TypeExtensions.cs:55-68 | every type other than `object` is its own base type |
| TypeExtensions.ObjectIsNeverABase | Pure.Ext/Pure.Ext/ReflectExt/TypeExtensions.cs:57 | `object` is never reported as a base type, since the loop stops at it before comparing |
| TypeExtensions.IsBaseTypeOfRootlessType | Pure.Ext/Pure.Ext/ReflectExt/TypeExtensions.cs:57-65 | for a type with no base (an interface), true when checking the type itself, no answer otherwise |
| TypeExtensions.Raw | Pure.Ext/Pure.Ext/ReflectExt/TypeExtensions.cs:86 | the compared type is a generic type's definition, any other type itself |
| TypeExtensions.IsSubclassOfRawGeneric | Pure.Ext/Pure.Ext/ReflectExt/TypeExtensions.cs:79-92 | a null type to check never returns; `object` gives false |
| TypeExtensions.RawGenericSearchesChain | Pure.Ext/Pure.Ext/ReflectExt/TypeExtensions.cs:79-92 | true iff some visited type, generic ones read as their definitions, is `generic`; false iff none is and the chain reaches `object`; no answer otherwise |
| TypeExtensions.RawGenericOfItself | Pure.Ext/Pure.Ext/ReflectExt/TypeExtensions.cs:79-92 | a type other than `object` is a subclass of its own raw type; a null `generic` never yields true |
| Declarations.Visibility | Pure.Ext/Pure.Ext/ReflectExt/ZEXT/GetDeclaration/MethodInfo.GetDeclaration.cs:22-41 | exactly one visibility word: public, protected, internal or private for those access levels, "protected internal" for every other one |
| Declarations.Modifier | Pure.Ext/Pure.Ext/ReflectExt/ZEXT/GetDeclaration/MethodInfo.GetDeclaration.cs:44-59 | at most one modifier, by precedence abstract, override (base definition declared elsewhere), virtual, static, and none when no test holds |
| Declarations.ModifierExclusive | Pure.Ext/Pure.Ext/ReflectExt/ZEXT/GetDeclaration/MethodInfo.GetDeclaration.cs:22-59 | an abstract method is never rendered override, virtual or static; the visibility word is one of the five |
| Declarations.Render | Pure.Ext/Pure.Ext/ReflectExt/ZEXT/GetDeclaration/MethodInfo.GetDeclaration.cs:74 | `Select` keeps length and order and renders each element |
| Declarations.OffsetOfRest | Pure.Ext/Pure.Ext/ReflectExt/ZEXT/GetDeclaration/MethodInfo.GetDeclaration.cs:74 | offsets in a join past the first element are the offsets in the rest shifted by the first element and a separator |
| Declarations.JoinCons | Pure.Ext/Pure.Ext/ReflectExt/ZEXT/GetDeclaration/MethodInfo.GetDeclaration.cs:82 | joining two or more strings is the first one and a separator, followed by the join of the rest |
| Declarations.JoinLength | Pure.Ext/Pure.Ext/ReflectExt/ZEXT/GetDeclaration/MethodInfo.GetDeclaration.cs:82 | the join ends exactly where the last element placed at its offset ends |
| Declarations.JoinElement | Pure.Ext/Pure.Ext/ReflectExt/ZEXT/GetDeclaration/MethodInfo.GetDeclaration.cs:82 | element i of a join sits at its offset, in full |
| Declarations.JoinSeparator | Pure.Ext/Pure.Ext/ReflectExt/ZEXT/GetDeclaration/MethodInfo.GetDeclaration.cs:82 | between element i and element i + 1 of a join there is exactly one separator |
| Declarations.JoinLayout | Pure.Ext/Pure.Ext/ReflectExt/ZEXT/GetDeclaration/MethodInfo.GetDeclaration.cs:82 | `string.Join` places element i at its offset, the separator between neighbours, and ends with the last element |
| Declarations.JoinShort | Pure.Ext/Pure.Ext/ReflectExt/ZEXT/GetDeclaration/MethodInfo.GetDeclaration.cs:82 | joining nothing gives "", joining one element gives that element |
| Declarations.GenericPart | Pure.Ext/Pure.Ext/ReflectExt/ZEXT/GetDeclaration/MethodInfo.GetDeclaration.cs:68-77 | the `<...>` part is non-empty iff the method is generic, and then holds the ", "-joined argument renderings between `<` and `>` |
| Declarations.ParameterPart | Pure.Ext/Pure.Ext/ReflectExt/ZEXT/GetDeclaration/MethodInfo.GetDeclaration.cs:80-83 | the parameter list is the ", "-joined parameter renderings between `(` and `)` |
| Declarations.Declaration | Pure.Ext/Pure.Ext/ReflectExt/ZEXT/GetDeclaration/MethodInfo.GetDeclaration.cs:16-86 | the declaration starts with the visibility word and always ends with `)` |
| Declarations.DeclarationParts | Pure.Ext/Pure.Ext/ReflectExt/ZEXT/GetDeclaration/MethodInfo.GetDeclaration.cs:61-83 | the declaration is visibility, modifier, return type, one space and name, then exactly the generic part (longer than nothing iff generic), then the parameter list |
| Declarations.ElementInBrackets | Pure.Ext/Pure.Ext/ReflectExt/ZEXT/GetDeclaration/MethodInfo.GetDeclaration.cs:80-83 | inside the bracketed join, element i sits one place past its offset in the join |
| Declarations.ParametersInOrder | Pure.Ext/Pure.Ext/ReflectExt/ZEXT/GetDeclaration/MethodInfo.GetDeclaration.cs:80-83 | parameter i's rendering appears in the parameter list at its offset, so the parameters appear in declaration order |

## Left out

- Enums.Mask: enum values are sets of bit positions below 64, not `bv64`. OR, AND and AND-NOT on 64-bit values are union, intersection and difference on these sets, so nothing is lost. The sets keep the flag lemmas within the solver's budget.
- The enum conversions through `Convert.ToUInt64` and `Enum.Parse` are not modelled. The model does not cover negative underlying values, their failure modes, or the cast of `ClearFlags<T>`/`SetFlags<T>` results to a different enum type `T`. Flag values are non-negative 64-bit masks.
- Enums.DisplayString: the model takes the first member declared with the value. For duplicate values `ToString` may choose another member's name; that choice is left unspecified by .NET.
- `GetCustomAttributeDescription` is not modelled: it reads attribute data only.
- Decimals: a `decimal` is an unbounded `real`. The 96-bit mantissa and its overflow are not modelled. Only the 28-fractional-digit limit of `Math.Round` is kept.
- Decimals.RoundToInt: only the two `MidpointRounding` modes of .NET Standard (ToEven, AwayFromZero) are modelled.
- The decimal conversions `ToByte` … `ToUInt64`, `ToOACurrency`, `ToDouble` and `ToSingle` are not modelled. They are library conversions or floating point. `Divide`, `Multiply` and `Subtract` are plain forwards.
- `ToChineseFormat_N` and `ToChineseFormat_C` are not modelled. They depend on culture number formatting and change the thread's culture.
- The `char` queries that read Unicode tables or culture casing rules are not modelled: `IsLetter`, `IsDigit`, `GetUnicodeCategory`, `GetNumericValue`, `ToUpper`/`ToLower` and the rest.
- A null `params` array, which throws in `In`/`NotIn`/`SetFlags`/`ClearFlags`/`HasFlags`, is not modelled: a sequence is never null.
- Enums.In: a null boxed enum, as the receiver or as an entry of `values`, is not modelled. `Array.IndexOf` does not dereference it: `In(null, values)` is true iff `values` holds a null, and a null entry never matches a non-null value. The same holds for `Enums.NotIn`.
- Null `this` receivers on helpers that dereference without a guard are not modelled; they throw `NullReferenceException` in .NET.
- ValueTypes.IsEmpty: `value.Equals(default(T))` is taken to be value equality, and so are `IsNotEmpty` and `ToNullable`, which are built on it. An overridden `Equals` can disagree. For `double`, `(-0.0).Equals(0.0)` is true, so `ToNullable(-0.0)` is null and reads back as +0.0. A struct may also call a non-default value equal to its default. Neither case is modelled, because the model has no per-type `Equals`.
- Reflection.GetNullableType: which value types `MakeGenericType` rejects is given by the universe's `nullableOf` map, not derived from the rules of the runtime.
- Reflection.GetBaseTypes: the chain includes `object` as its last entry. The iterator tests each base for null before yielding it, and `object` is not null; the walk stops at its null base type. This follows the code.
- Reflection.NullableRoundTrip: `GetNonNullableType(GetNullableType(t)) == t` is stated only for types that are not already nullable, and only where wrapping succeeds: a value type that cannot be a type argument makes `GetNullableType` throw. For a nullable `t`, `GetNullableType` returns `t` itself and unwrapping then removes its layer (Reflection.NullableRoundTripOfNullable).
- The reflection helpers that depend on host semantics are not modelled: `GetEnumerableType`, `GetEnumerableElementType`, `GetDirectImplementInterface`, `IsDirectImplementInterface`, `IsImplementInterface`, `GetImplementType`, `GetMemberType`, `GetMemberValue`, `ParseType`, `GetCustomAttributes`, `IsDefined`, `GetDefaultValue`. They involve assignability, interface maps, member access, assembly loading and attribute queries.
- The `Activator`-based `CreateInstance`, `CreateGenericTypeInstance` and `GetObject` overloads of TypeExtensions.cs are not modelled: they need object activation and remoting.
- The memory-cache helpers and `IPagedList` are not modelled. The first is a thin wrapper over `MemoryCache`; the second declares properties only.
- Declarations: how a single type or parameter is rendered (`GetShortDeclaraction` and `ParameterInfo.GetDeclaraction`) is taken as an opaque function argument. Those renderers are not part of this model.
- Declarations.Visibility: the `FamANDAssem` access level, which C# now writes `private protected`, is rendered `protected internal`, and so is `PrivateScope`. This follows the code.
