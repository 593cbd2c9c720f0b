/** `EnumExtensions`: flag set/clear/test over an enum value read as an
    unsigned 64-bit number, the `DisplayString` attribute lookup, and
    `In`/`NotIn`.

    A 64-bit value is modelled by the set of positions of its one bits, so
    bitwise OR is union, AND is intersection and AND NOT is difference. An
    enum type is its list of declared members; its defined values are the
    set of their values. */
module Enums {
  import opened Wrappers
  import opened Exceptions
  import Arrays

  /** A bit position in a 64-bit value. */
  type Bit = b: nat | b < 64

  /** `Convert.ToUInt64` of an enum value: the positions of its one bits. */
  type Mask = set<Bit>

  /** One declared member: its name, its value and the texts of the
      `DisplayString` attributes on it, in the order the runtime returns
      them (which .NET leaves unspecified). */
  datatype Member<V> = Member(name: string, value: V, displayStrings: seq<string>)

  /** An enum type, by its members in declaration order. */
  datatype EnumType<V> = EnumType(members: seq<Member<V>>)

  /** The values `Enum.IsDefined` accepts. */
  function Defined<V>(e: EnumType<V>): set<V> {
    set m | m in e.members :: m.value
  }

  /** A boxed enum value: the enum type it belongs to and its underlying
      value. Two boxed values are equal when both agree. */
  datatype EnumValue = EnumValue(enumType: string, value: int)

  /** The bitwise OR of all the flags. */
  function OrAll(flags: seq<Mask>): Mask {
    if |flags| == 0 then {} else flags[0] + OrAll(flags[1..])
  }

  /** A bit is in the OR of the flags exactly when some flag has it. */
  lemma {:induction false} OrAllBits(flags: seq<Mask>, b: Bit)
    ensures b in OrAll(flags) <==> exists i :: 0 <= i < |flags| && b in flags[i]
  {
    if |flags| > 0 {
      OrAllBits(flags[1..], b);
      if b in OrAll(flags[1..]) {
        var i :| 0 <= i < |flags[1..]| && b in flags[1..][i];
        assert b in flags[i + 1];
      }
      if exists i :: 0 <= i < |flags| && b in flags[i] {
        var i :| 0 <= i < |flags| && b in flags[i];
        if i > 0 {
          assert b in flags[1..][i - 1];
        }
      }
    }
  }

  /** `OrAll` depends only on which flags are listed, not on their order or
      repetition. */
  lemma OrAllSameFlags(fs: seq<Mask>, gs: seq<Mask>)
    requires forall f :: f in fs <==> f in gs
    ensures OrAll(fs) == OrAll(gs)
  {
    forall b: Bit
      ensures b in OrAll(fs) <==> b in OrAll(gs)
    {
      OrAllBits(fs, b);
      OrAllBits(gs, b);
      if b in OrAll(fs) {
        var i :| 0 <= i < |fs| && b in fs[i];
        assert fs[i] in gs;
        var j :| 0 <= j < |gs| && gs[j] == fs[i];
      }
      if b in OrAll(gs) {
        var j :| 0 <= j < |gs| && b in gs[j];
        assert gs[j] in fs;
        var i :| 0 <= i < |fs| && fs[i] == gs[j];
      }
    }
  }

  /** `SetFlags(variable, flags)`: OR each flag into the value in turn. */
  function SetFlags(variable: Mask, flags: seq<Mask>): (r: Mask)
    ensures variable <= r
    ensures forall i :: 0 <= i < |flags| ==> flags[i] <= r
    decreases |flags|
  {
    if |flags| == 0 then variable
    else SetFlags(variable + flags[0], flags[1..])
  }

  /** The flag-by-flag loop of `SetFlags` ORs in all the flags at once. */
  lemma {:induction false} SetFlagsIsOr(variable: Mask, flags: seq<Mask>)
    ensures SetFlags(variable, flags) == variable + OrAll(flags)
    decreases |flags|
  {
    if |flags| > 0 {
      SetFlagsIsOr(variable + flags[0], flags[1..]);
    }
  }

  /** `SetFlag(variable, flag)`: `SetFlags` with one flag. */
  function SetFlag(variable: Mask, flag: Mask): (r: Mask)
    ensures r == variable + flag
  {
    SetFlagsIsOr(variable, [flag]);
    assert [flag][1..] == [];
    assert OrAll([flag]) == flag;
    SetFlags(variable, [flag])
  }

  /** `ClearFlags(variable, flags)`: AND each flag's complement into the
      value in turn. */
  function ClearFlags(variable: Mask, flags: seq<Mask>): (r: Mask)
    ensures r <= variable
    ensures forall i :: 0 <= i < |flags| ==> r !! flags[i]
    decreases |flags|
  {
    if |flags| == 0 then variable
    else ClearFlags(variable - flags[0], flags[1..])
  }

  /** The flag-by-flag loop of `ClearFlags` clears all the flags at once. */
  lemma {:induction false} ClearFlagsIsAndNot(variable: Mask, flags: seq<Mask>)
    ensures ClearFlags(variable, flags) == variable - OrAll(flags)
    decreases |flags|
  {
    if |flags| > 0 {
      ClearFlagsIsAndNot(variable - flags[0], flags[1..]);
    }
  }

  /** `ClearFlag(variable, flag)`: `ClearFlags` with one flag. */
  function ClearFlag(variable: Mask, flag: Mask): (r: Mask)
    ensures r == variable - flag
  {
    ClearFlagsIsAndNot(variable, [flag]);
    assert [flag][1..] == [];
    assert OrAll([flag]) == flag;
    ClearFlags(variable, [flag])
  }

  /** A bit is set in the result of `SetFlags` exactly when the value or one
      of the flags has it; with no flags the value comes back unchanged. */
  lemma SetFlagsBits(variable: Mask, flags: seq<Mask>, b: Bit)
    ensures b in SetFlags(variable, flags) <==>
      b in variable || exists i :: 0 <= i < |flags| && b in flags[i]
    ensures SetFlags(variable, []) == variable
  {
    SetFlagsIsOr(variable, flags);
    OrAllBits(flags, b);
  }

  /** A bit is set in the result of `ClearFlags` exactly when the value has
      it and none of the flags does: every listed bit is cleared and no other
      bit changes. */
  lemma ClearFlagsBits(variable: Mask, flags: seq<Mask>, b: Bit)
    ensures b in ClearFlags(variable, flags) <==>
      b in variable && forall i :: 0 <= i < |flags| ==> b !in flags[i]
  {
    ClearFlagsIsAndNot(variable, flags);
    OrAllBits(flags, b);
  }

  /** Setting or clearing the same flags a second time changes nothing. */
  lemma SetClearIdempotent(variable: Mask, flags: seq<Mask>)
    ensures SetFlags(SetFlags(variable, flags), flags) == SetFlags(variable, flags)
    ensures ClearFlags(ClearFlags(variable, flags), flags) == ClearFlags(variable, flags)
  {
    SetFlagsIsOr(variable, flags);
    SetFlagsIsOr(SetFlags(variable, flags), flags);
    ClearFlagsIsAndNot(variable, flags);
    ClearFlagsIsAndNot(ClearFlags(variable, flags), flags);
  }

  /** The order (and repetition) of the listed flags does not matter. */
  lemma SetClearOrderInsensitive(variable: Mask, fs: seq<Mask>, gs: seq<Mask>)
    requires forall f :: f in fs <==> f in gs
    ensures SetFlags(variable, fs) == SetFlags(variable, gs)
    ensures ClearFlags(variable, fs) == ClearFlags(variable, gs)
  {
    OrAllSameFlags(fs, gs);
    SetFlagsIsOr(variable, fs);
    SetFlagsIsOr(variable, gs);
    ClearFlagsIsAndNot(variable, fs);
    ClearFlagsIsAndNot(variable, gs);
  }

  /** Clearing flags after setting them is clearing them from the original. */
  lemma ClearUndoesSet(variable: Mask, flags: seq<Mask>)
    ensures ClearFlags(SetFlags(variable, flags), flags) == ClearFlags(variable, flags)
  {
    SetFlagsIsOr(variable, flags);
    ClearFlagsIsAndNot(SetFlags(variable, flags), flags);
    ClearFlagsIsAndNot(variable, flags);
  }

  /** The loop of `HasFlags`: stop with false at the first flag that is not a
      defined value or whose bits are not all set in the value. */
  function AllFlagsSet(defined: set<Mask>, variable: Mask, flags: seq<Mask>): (r: bool)
    ensures r <==> forall i :: 0 <= i < |flags| ==> flags[i] in defined && flags[i] <= variable
  {
    if |flags| == 0 then true
    else if flags[0] !in defined then false
    else if variable * flags[0] != flags[0] then false
    else AllFlagsSet(defined, variable, flags[1..])
  }

  /** The type argument `E` of `HasFlags`: an enum type, or some other
      value type, which the call rejects. */
  datatype TypeArgument = EnumArgument(enumType: EnumType<Mask>) | NonEnumStruct

  /** `HasFlags(variable, flags)`. */
  function HasFlags(e: TypeArgument, variable: Mask, flags: seq<Mask>): (r: Result<bool, Exception>)
    ensures e.NonEnumStruct? <==> r == Failure(ArgumentException("variable"))
    ensures e.EnumArgument? ==>
      && r.Success?
      && (r.value <==> forall f :: f in flags ==> f in Defined(e.enumType) && f <= variable)
  {
    match e
    case NonEnumStruct => Failure(ArgumentException("variable"))
    case EnumArgument(t) => Success(AllFlagsSet(Defined(t), variable, flags))
  }

  /** No flags: always true. An undefined flag: false even when all its bits
      are set. A defined zero flag: always passes. */
  lemma HasFlagsCases(t: EnumType<Mask>, variable: Mask, flag: Mask)
    ensures HasFlags(EnumArgument(t), variable, []) == Success(true)
    ensures flag !in Defined(t) ==> HasFlags(EnumArgument(t), variable, [flag]) == Success(false)
    ensures {} in Defined(t) ==> HasFlags(EnumArgument(t), variable, [{}]) == Success(true)
  {
    assert flag in [flag];
  }

  /** Every flag just set is reported present by `HasFlags`, provided it is a
      defined value. */
  lemma HasFlagsAfterSet(t: EnumType<Mask>, variable: Mask, flags: seq<Mask>)
    requires forall f :: f in flags ==> f in Defined(t)
    ensures HasFlags(EnumArgument(t), SetFlags(variable, flags), flags) == Success(true)
  {
    SetFlagsIsOr(variable, flags);
    forall f | f in flags
      ensures f <= SetFlags(variable, flags)
    {
      forall b | b in f
        ensures b in OrAll(flags)
      {
        var i :| 0 <= i < |flags| && flags[i] == f;
        OrAllBits(flags, b);
      }
    }
  }

  /** Member `i` is the first one whose value is `v`: the field
      `GetField(v.ToString())` finds. */
  ghost predicate FirstWithValue<V>(members: seq<Member<V>>, v: V, i: int) {
    && 0 <= i < |members|
    && members[i].value == v
    && forall j :: 0 <= j < i ==> members[j].value != v
  }

  /** The index of the first member whose value is `v`, or `|members|`. */
  function FirstMemberWithValue<V(==)>(members: seq<Member<V>>, v: V): (i: nat)
    ensures i <= |members|
    ensures i < |members| ==> FirstWithValue(members, v, i)
    ensures i == |members| ==> forall m :: m in members ==> m.value != v
  {
    if |members| == 0 || members[0].value == v then 0
    else 1 + FirstMemberWithValue(members[1..], v)
  }

  /** What `DisplayString` shows for a member: its first attribute's text,
      else its name. */
  function DisplayText<V>(m: Member<V>): string {
    if |m.displayStrings| >= 1 then m.displayStrings[0] else m.name
  }

  /** `DisplayString(value)`: the text of the first `DisplayString` attribute
      on the member the value names, or the member's name when it has none.
      A value no member has names no field, and reading attributes from the
      missing field throws. */
  function DisplayString<V(==)>(e: EnumType<V>, v: V): (r: Result<string, Exception>)
    ensures r.Success? <==> v in Defined(e)
    ensures r.Failure? ==> r.error == NullReferenceException
    ensures r.Success? ==>
      exists i :: FirstWithValue(e.members, v, i) && r.value == DisplayText(e.members[i])
  {
    var i := FirstMemberWithValue(e.members, v);
    if i == |e.members| then Failure(NullReferenceException)
    else
      assert e.members[i] in e.members;
      Success(DisplayText(e.members[i]))
  }

  /** No two members share a value. */
  predicate DistinctValues<V(==)>(e: EnumType<V>) {
    forall j, k :: 0 <= j < k < |e.members| ==> e.members[j].value != e.members[k].value
  }

  /** When no two members share a value, `DisplayString` of a member's
      value reads exactly that member. */
  lemma DisplayStringOfMember<V>(e: EnumType<V>, i: nat)
    requires i < |e.members|
    requires DistinctValues(e)
    ensures DisplayString(e, e.members[i].value) == Success(DisplayText(e.members[i]))
  {
    var k := FirstMemberWithValue(e.members, e.members[i].value);
    assert k <= i;
  }

  /** `In`: the boxed value equals one of `values` (same enum type, same value). */
  predicate In(x: EnumValue, values: seq<EnumValue>)
    ensures In(x, values) <==> x in values
  {
    Arrays.IndexOf(values, x) != -1
  }

  /** `NotIn`: the boxed value equals none of `values`. */
  predicate NotIn(x: EnumValue, values: seq<EnumValue>)
    ensures NotIn(x, values) <==> !In(x, values)
  {
    Arrays.IndexOf(values, x) == -1
  }
}
