/** `ReflectionExtension`: walking a type's base chain and hierarchy,
    finding a generic implementation in it, wrapping and unwrapping
    `Nullable<T>`, and classifying types as numeric, anonymous, concrete or
    structural. */
module Reflection {
  import opened Wrappers
  import opened Exceptions
  import opened Types

  /** `GetBaseTypes(type)`: `type.BaseType`, its base type, and so on, up
      to and including the first type without one. */
  function GetBaseTypes(u: Universe, t: TypeId): (r: seq<TypeId>)
    requires BasesBelow(u) && t in u.types
    ensures forall i :: 0 <= i < |r| ==> r[i] in u.types && u.types[r[i]].depth < u.types[t].depth
    decreases u.types[t].depth
  {
    match u.types[t].baseType
    case None => []
    case Some(b) => [b] + GetBaseTypes(u, b)
  }

  /** The base chain is exactly the successive base types: it starts at the
      type's base, each entry's base is the next entry, and the last entry
      has no base. The type itself is not on it, and the root `object`, when
      on it, comes last. */
  lemma {:induction false} BaseTypesAreTheChain(u: Universe, t: TypeId)
    requires Valid(u) && t in u.types
    ensures |GetBaseTypes(u, t)| == 0 <==> u.types[t].baseType.None?
    ensures |GetBaseTypes(u, t)| > 0 ==> u.types[t].baseType == Some(GetBaseTypes(u, t)[0])
    ensures forall i :: 0 <= i < |GetBaseTypes(u, t)| - 1 ==>
      u.types[GetBaseTypes(u, t)[i]].baseType == Some(GetBaseTypes(u, t)[i + 1])
    ensures |GetBaseTypes(u, t)| > 0 ==> u.types[GetBaseTypes(u, t)[|GetBaseTypes(u, t)| - 1]].baseType.None?
    ensures t !in GetBaseTypes(u, t)
    ensures u.objectType in GetBaseTypes(u, t) ==>
      GetBaseTypes(u, t)[|GetBaseTypes(u, t)| - 1] == u.objectType
    decreases u.types[t].depth
  {
    var r := GetBaseTypes(u, t);
    if u.types[t].baseType.Some? {
      var b := u.types[t].baseType.value;
      BaseTypesAreTheChain(u, b);
      var rest := GetBaseTypes(u, b);
      assert r == [b] + rest;
      forall i | 0 <= i < |r| - 1
        ensures u.types[r[i]].baseType == Some(r[i + 1])
      {
        if i > 0 {
          assert r[i] == rest[i - 1] && r[i + 1] == rest[i];
        }
      }
      if u.objectType in r {
        if u.objectType != b {
          assert u.objectType in rest;
        } else {
          assert |rest| == 0;
        }
      }
    }
  }

  /** `GetHierarchyTypes(type)`: the type itself, then its base chain, then
      its interfaces. */
  function GetHierarchyTypes(u: Universe, t: TypeId): (r: seq<TypeId>)
    requires Valid(u) && t in u.types
    ensures forall i :: 0 <= i < |r| ==> r[i] in u.types
    ensures forall x :: x in r <==> x == t || x in GetBaseTypes(u, t) || x in u.types[t].interfaces
  {
    [t] + GetBaseTypes(u, t) + u.types[t].interfaces
  }

  /** The hierarchy lists the type first, the base chain next and the
      interfaces last, each part in its own order. */
  lemma HierarchyOrder(u: Universe, t: TypeId)
    requires Valid(u) && t in u.types
    ensures var h := GetHierarchyTypes(u, t);
      var n := |GetBaseTypes(u, t)|;
      && |h| == 1 + n + |u.types[t].interfaces|
      && h[0] == t
      && h[1..1 + n] == GetBaseTypes(u, t)
      && h[1 + n..] == u.types[t].interfaces
  {
  }

  /** The generic type `h` has definition `g` (never true of a null `g`). */
  predicate HasDefinition(u: Universe, h: TypeId, g: Option<TypeId>)
    requires h in u.types
  {
    IsGenericType(u, h) && u.types[h].genericDefinition == g
  }

  /** The first of `hs` that is a generic type with definition `g`. */
  function FirstWithDefinition(u: Universe, hs: seq<TypeId>, g: Option<TypeId>): (r: Option<TypeId>)
    requires forall i :: 0 <= i < |hs| ==> hs[i] in u.types
    ensures r.None? <==> forall i :: 0 <= i < |hs| ==> !HasDefinition(u, hs[i], g)
    ensures r.Some? ==>
      exists i :: 0 <= i < |hs| && hs[i] == r.value && HasDefinition(u, hs[i], g)
        && forall j :: 0 <= j < i ==> !HasDefinition(u, hs[j], g)
  {
    if |hs| == 0 then None
    else if HasDefinition(u, hs[0], g) then Some(hs[0])
    else
      var r := FirstWithDefinition(u, hs[1..], g);
      assert forall i :: 1 <= i < |hs| ==> hs[i] == hs[1..][i - 1];
      if r.Some? then
        var k :| 0 <= k < |hs[1..]| && hs[1..][k] == r.value && HasDefinition(u, hs[1..][k], g)
          && forall j :: 0 <= j < k ==> !HasDefinition(u, hs[1..][j], g);
        assert hs[k + 1] == r.value;
        r
      else r
  }

  /** `GetGenericImplementType(type, genericDefinitionType)`: the first entry
      of the hierarchy that is a generic type built from the given
      definition, or null. */
  function GetGenericImplementType(u: Universe, t: TypeId, g: Option<TypeId>): (r: Option<TypeId>)
    requires Valid(u) && t in u.types
    ensures r.None? <==> forall x :: x in GetHierarchyTypes(u, t) ==> !HasDefinition(u, x, g)
    ensures r.Some? ==> r.value in GetHierarchyTypes(u, t) && HasDefinition(u, r.value, g)
    ensures r.Some? ==>
      var hs := GetHierarchyTypes(u, t);
      exists i :: 0 <= i < |hs| && hs[i] == r.value && forall j :: 0 <= j < i ==> !HasDefinition(u, hs[j], g)
    ensures g.None? ==> r.None?
  {
    var hs := GetHierarchyTypes(u, t);
    var r := FirstWithDefinition(u, hs, g);
    assert r.None? ==> forall x :: x in hs ==> !HasDefinition(u, x, g) by {
      if r.None? {
        forall x | x in hs
          ensures !HasDefinition(u, x, g)
        {
          var i :| 0 <= i < |hs| && hs[i] == x;
        }
      }
    }
    r
  }

  /** A type that is its own generic definition is found by
      `GetGenericImplementType` with itself as the definition. */
  lemma DefinitionImplementsItself(u: Universe, t: TypeId)
    requires Valid(u) && t in u.types
    requires IsGenericTypeDefinition(u, t)
    ensures GetGenericImplementType(u, t, Some(t)) == Some(t)
  {
    assert GetHierarchyTypes(u, t)[0] == t;
  }

  /** `IsNullableType(type)`: a generic type whose definition is
      `Nullable<>`. A null type is rejected. */
  function IsNullableType(u: Universe, t: Option<TypeId>): (r: Result<bool, Exception>)
    requires Valid(u) && (t.Some? ==> t.value in u.types)
    ensures t.None? <==> r == Failure(ArgumentNullException("type"))
    ensures t.Some? ==> r.Success? && (r.value <==> IsNullable(u, t.value))
  {
    match t
    case None => Failure(ArgumentNullException("type"))
    case Some(x) => Success(IsGenericType(u, x) && u.types[x].genericDefinition == Some(u.nullableDefinition))
  }

  /** `GetNonNullableType(type)`: the type argument of a nullable type, any
      other type itself. A null type fails in `IsNullableType`. */
  function GetNonNullableType(u: Universe, t: Option<TypeId>): (r: Result<TypeId, Exception>)
    requires Valid(u) && (t.Some? ==> t.value in u.types)
    ensures t.None? <==> r == Failure(ArgumentNullException("type"))
    ensures r.Success? ==> r.value in u.types && !IsNullable(u, r.value)
    ensures t.Some? && IsNullable(u, t.value) ==> r == Success(u.types[t.value].genericArgs[0])
    ensures t.Some? && !IsNullable(u, t.value) ==> r == Success(t.value)
  {
    var nullable :- IsNullableType(u, t);
    if nullable then Success(u.types[t.value].genericArgs[0]) else Success(t.value)
  }

  /** Unwrapping twice is unwrapping once: exactly one `Nullable<>` layer is
      ever stripped, and what remains has none. */
  lemma NonNullableIdempotent(u: Universe, t: TypeId)
    requires Valid(u) && t in u.types
    ensures GetNonNullableType(u, Some(GetNonNullableType(u, Some(t)).value)) == GetNonNullableType(u, Some(t))
  {
  }

  /** `GetNullableType(type)`: `Nullable<type>` for a value type that is not
      already nullable, any other type itself. A null type is dereferenced;
      a value type that cannot be a type argument (`void`, a ref struct)
      makes `MakeGenericType` throw an `ArgumentException`, which names no
      parameter. */
  function GetNullableType(u: Universe, t: Option<TypeId>): (r: Result<TypeId, Exception>)
    requires Valid(u) && (t.Some? ==> t.value in u.types)
    ensures t.None? <==> r == Failure(NullReferenceException)
    ensures r.Success? ==> r.value in u.types
    ensures t.Some? && u.types[t.value].isValueType && !IsNullable(u, t.value) && t.value in u.nullableOf ==>
      r.Success? && IsNullable(u, r.value) && u.types[r.value].genericArgs == [t.value]
    ensures t.Some? && u.types[t.value].isValueType && !IsNullable(u, t.value) && t.value !in u.nullableOf ==>
      r == Failure(ArgumentException(""))
    ensures t.Some? && !(u.types[t.value].isValueType && !IsNullable(u, t.value)) ==> r == Success(t.value)
  {
    match t
    case None => Failure(NullReferenceException)
    case Some(x) =>
      if u.types[x].isValueType && !IsNullable(u, x) then
        if x in u.nullableOf then Success(u.nullableOf[x]) else Failure(ArgumentException(""))
      else Success(x)
  }

  /** Wrapping then unwrapping gives back any type that was not nullable to
      begin with, whenever it can be wrapped; only a value type that is no
      valid type argument cannot. */
  lemma NullableRoundTrip(u: Universe, t: TypeId)
    requires Valid(u) && t in u.types
    requires !IsNullable(u, t)
    ensures GetNullableType(u, Some(t)).Failure? <==> u.types[t].isValueType && t !in u.nullableOf
    ensures GetNullableType(u, Some(t)).Success? ==>
      GetNonNullableType(u, Some(GetNullableType(u, Some(t)).value)) == Success(t)
  {
  }

  /** A nullable type is left alone by `GetNullableType` and so does not come
      back from the round trip: it loses its wrapper. */
  lemma NullableRoundTripOfNullable(u: Universe, t: TypeId)
    requires Valid(u) && t in u.types
    requires IsNullable(u, t)
    ensures GetNullableType(u, Some(t)) == Success(t)
    ensures GetNonNullableType(u, Some(GetNullableType(u, Some(t)).value)) != Success(t)
  {
  }

  /** Wrapping twice is wrapping once. */
  lemma NullableIdempotent(u: Universe, t: TypeId)
    requires Valid(u) && t in u.types
    ensures GetNullableType(u, Some(t)).Success? ==>
      GetNullableType(u, Some(GetNullableType(u, Some(t)).value)) == GetNullableType(u, Some(t))
  {
  }

  /** The type codes `IsNumericType` accepts: `Char` through `Decimal`. */
  predicate IsNumericCode(c: TypeCode)
    ensures IsNumericCode(c) <==> 4 <= CodeValue(c) <= 15
  {
    c in {Char, SByte, Byte, Int16, UInt16, Int32, UInt32, Int64, UInt64, Single, Double, Decimal}
  }

  /** `IsNumericType(type)`: after unwrapping `Nullable<>`, a type that is
      not an enum and whose type code is one of the twelve numeric codes. */
  function IsNumericType(u: Universe, t: Option<TypeId>): (r: Result<bool, Exception>)
    requires Valid(u) && (t.Some? ==> t.value in u.types)
    ensures t.None? <==> r == Failure(ArgumentNullException("type"))
    ensures t.Some? ==>
      var n := GetNonNullableType(u, t).value;
      && r.Success?
      && (r.value <==> !u.types[n].isEnum && 4 <= CodeValue(u.types[n].typeCode) <= 15)
  {
    var n :- GetNonNullableType(u, t);
    if !u.types[n].isEnum then Success(IsNumericCode(u.types[n].typeCode)) else Success(false)
  }

  /** A type and its nullable form are numeric alike. */
  lemma NumericIgnoresNullable(u: Universe, t: TypeId)
    requires Valid(u) && t in u.types
    ensures GetNullableType(u, Some(t)).Success? ==>
      IsNumericType(u, Some(GetNullableType(u, Some(t)).value)) == IsNumericType(u, Some(t))
  {
  }

  /** The prefix the C# compiler gives the names of anonymous types. */
  const AnonymousPrefix: string := "<>f__AnonymousType"

  /** `IsAnonymousType(type)`: the full name is longer than the 18-character
      prefix and starts with it. A null type is rejected; a type without a
      full name (a generic parameter) is dereferenced. */
  function IsAnonymousType(u: Universe, t: Option<TypeId>): (r: Result<bool, Exception>)
    requires Valid(u) && (t.Some? ==> t.value in u.types)
    ensures t.None? <==> r == Failure(ArgumentNullException("type"))
    ensures t.Some? && u.types[t.value].fullName.None? ==> r == Failure(NullReferenceException)
    ensures t.Some? && u.types[t.value].fullName.Some? ==>
      var n := u.types[t.value].fullName.value;
      r.Success? && (r.value <==> |n| > |AnonymousPrefix| && AnonymousPrefix <= n)
  {
    match t
    case None => Failure(ArgumentNullException("type"))
    case Some(x) =>
      match u.types[x].fullName
      case None => Failure(NullReferenceException)
      case Some(n) => Success(|n| > 0x12 && n[..0x12] == AnonymousPrefix)
  }

  /** A full name that is only the prefix is not anonymous; the prefix
      followed by anything (such as the compiler's "0`2") is. */
  lemma AnonymousNames(u: Universe, t: TypeId, suffix: string)
    requires Valid(u) && t in u.types
    ensures u.types[t].fullName == Some(AnonymousPrefix) ==> IsAnonymousType(u, Some(t)) == Success(false)
    ensures u.types[t].fullName == Some(AnonymousPrefix + suffix) && |suffix| > 0 ==>
      IsAnonymousType(u, Some(t)) == Success(true)
  {
    assert (AnonymousPrefix + suffix)[..18] == AnonymousPrefix;
  }

  /** `IsConcreteType(type)`: not abstract, not an open generic definition,
      not an array. */
  predicate IsConcreteType(u: Universe, t: TypeId)
    requires t in u.types
    // The converse holds by definition: the body is the whole test.
    ensures IsConcreteType(u, t) ==> !u.types[t].isAbstract && !u.types[t].isArray
    ensures IsConcreteType(u, t) ==> u.types[t].genericDefinition != Some(t)
  {
    !u.types[t].isAbstract && !IsGenericTypeDefinition(u, t) && !u.types[t].isArray
  }

  /** `IsValidStructuralPropertyType(type)`: not an open generic definition,
      not a pointer, not `object`. */
  predicate IsValidStructuralPropertyType(u: Universe, t: TypeId)
    requires t in u.types
    // The converse holds by definition: the body is the whole test.
    ensures IsValidStructuralPropertyType(u, t) ==>
      !IsGenericTypeDefinition(u, t) && !u.types[t].isPointer && t != u.objectType
  {
    !IsGenericTypeDefinition(u, t) && !u.types[t].isPointer && !(t == u.objectType)
  }

  /** `IsValidStructuralType(type)`: a non-generic reference type that is
      neither primitive, interface, array nor `string`, and is a valid
      structural property type. */
  predicate IsValidStructuralType(u: Universe, t: TypeId)
    requires t in u.types
    ensures IsValidStructuralType(u, t) ==> IsValidStructuralPropertyType(u, t)
    ensures IsValidStructuralType(u, t) ==>
      && !IsGenericType(u, t) && !u.types[t].isValueType && !u.types[t].isPrimitive
      && !u.types[t].isInterface && !u.types[t].isArray && t != u.stringType
  {
    && !IsGenericType(u, t) && !u.types[t].isValueType
    && !u.types[t].isPrimitive && !u.types[t].isInterface
    && !u.types[t].isArray && !(t == u.stringType)
    && IsValidStructuralPropertyType(u, t)
  }

  /** A structural type is a reference type, so it is never nullable and
      `GetNullableType` leaves it alone. */
  lemma StructuralIsNotNullable(u: Universe, t: TypeId)
    requires Valid(u) && t in u.types
    requires IsValidStructuralType(u, t)
    ensures !IsNullable(u, t)
    ensures GetNullableType(u, Some(t)) == Success(t)
  {
  }
}
