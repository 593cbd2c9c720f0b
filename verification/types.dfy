/** The runtime type descriptors the reflection helpers read, as a finite
    universe of type records keyed by an id. A `Type` reference is an id of
    that universe; a null `Type` is `None` where a helper accepts one. */
module Types {
  import opened Wrappers

  type TypeId = nat

  /** `System.TypeCode`. */
  datatype TypeCode =
    | Empty | Object | DBNull | Boolean | Char | SByte | Byte | Int16 | UInt16
    | Int32 | UInt32 | Int64 | UInt64 | Single | Double | Decimal | DateTime | String

  /** The numeric value of each `TypeCode` member (17 is unused). */
  function CodeValue(c: TypeCode): (n: nat)
    ensures n <= 18 && n != 17
  {
    match c
    case Empty => 0
    case Object => 1
    case DBNull => 2
    case Boolean => 3
    case Char => 4
    case SByte => 5
    case Byte => 6
    case Int16 => 7
    case UInt16 => 8
    case Int32 => 9
    case UInt32 => 10
    case Int64 => 11
    case UInt64 => 12
    case Single => 13
    case Double => 14
    case Decimal => 15
    case DateTime => 16
    case String => 18
  }

  /** What the helpers read of one `Type`.

      `genericDefinition` is `GetGenericTypeDefinition()` for a generic type
      and `None` otherwise (`IsGenericType` is its presence); a generic type
      definition is its own definition. `genericArgs` is
      `GetGenericArguments()`, `interfaces` is `GetInterfaces()`. `depth` is
      not a property of the runtime type: it ranks the base chain, each base
      type ranking below the types derived from it. */
  datatype TypeInfo = TypeInfo(
    fullName: Option<string>,
    baseType: Option<TypeId>,
    depth: nat,
    isValueType: bool,
    isEnum: bool,
    isInterface: bool,
    isAbstract: bool,
    isArray: bool,
    isPointer: bool,
    isPrimitive: bool,
    genericDefinition: Option<TypeId>,
    genericArgs: seq<TypeId>,
    typeCode: TypeCode,
    interfaces: seq<TypeId>)

  /** The loaded types, the ids of `typeof(object)`, `typeof(string)` and
      `typeof(Nullable<>)`, and for each value type `X` that can be wrapped
      the id of `typeof(Nullable<>).MakeGenericType(X)`. */
  datatype Universe = Universe(
    types: map<TypeId, TypeInfo>,
    objectType: TypeId,
    stringType: TypeId,
    nullableDefinition: TypeId,
    nullableOf: map<TypeId, TypeId>)

  /** `IsGenericType`. */
  predicate IsGenericType(u: Universe, t: TypeId)
    requires t in u.types
  {
    u.types[t].genericDefinition.Some?
  }

  /** `IsGenericTypeDefinition`: a generic type that is its own definition. */
  predicate IsGenericTypeDefinition(u: Universe, t: TypeId)
    requires t in u.types
  {
    u.types[t].genericDefinition == Some(t)
  }

  /** A type whose generic definition is `Nullable<>`. */
  predicate IsNullable(u: Universe, t: TypeId)
    requires t in u.types
  {
    u.types[t].genericDefinition == Some(u.nullableDefinition)
  }

  /** Every base type is loaded and ranks below the type derived from it,
      so no base chain comes back to where it started. */
  predicate BasesBelow(u: Universe) {
    forall t | t in u.types && u.types[t].baseType.Some? ::
      && u.types[t].baseType.value in u.types
      && u.types[u.types[t].baseType.value].depth < u.types[t].depth
  }

  /** Every type a record names is loaded. */
  predicate ReferencesLoaded(u: Universe) {
    forall t | t in u.types ::
      && (u.types[t].genericDefinition.Some? ==> u.types[t].genericDefinition.value in u.types)
      && (forall i | 0 <= i < |u.types[t].genericArgs| :: u.types[t].genericArgs[i] in u.types)
      && (forall i | 0 <= i < |u.types[t].interfaces| :: u.types[t].interfaces[i] in u.types)
  }

  /** `Nullable<T>` is a struct with one type argument, and that argument is
      never itself nullable (the `struct` constraint on `T` excludes it). */
  predicate NullablesWellFormed(u: Universe)
    requires ReferencesLoaded(u)
  {
    forall t | t in u.types && IsNullable(u, t) ::
      && u.types[t].isValueType
      && |u.types[t].genericArgs| == 1
      && !IsNullable(u, u.types[t].genericArgs[0])
  }

  /** Where `MakeGenericType` of `Nullable<>` succeeds, the argument is a
      value type that is not nullable and the result is a nullable type over
      that argument. A value type missing from `nullableOf` (`void`,
      `TypedReference`, a ref struct) is one it rejects. */
  predicate NullableConstructions(u: Universe) {
    forall x | x in u.nullableOf ::
      && x in u.types
      && u.types[x].isValueType
      && !IsNullable(u, x)
      && u.nullableOf[x] in u.types
      && IsNullable(u, u.nullableOf[x])
      && u.types[u.nullableOf[x]].genericArgs == [x]
  }

  /** A consistent universe. */
  predicate Valid(u: Universe) {
    && u.objectType in u.types
    && u.stringType in u.types
    && u.nullableDefinition in u.types
    && u.types[u.objectType].baseType.None?
    && BasesBelow(u)
    && ReferencesLoaded(u)
    && NullablesWellFormed(u)
    && NullableConstructions(u)
  }
}
