/** `TypeExtensions.IsBaseType` and `TypeExtensions.IsSubclassOfRawGeneric`:
    walks up the base chain until `object`.

    Both loops test for `object` first and for null second, and on null they
    `continue` without advancing, so a chain that ends in null before
    reaching `object` (an interface's, say) never returns. The model makes
    that outcome explicit. */
module TypeExtensions {
  import opened Wrappers
  import opened Types
  import Arrays
  import Reflection

  /** What a call does: return a value, or loop forever. */
  datatype Outcome<T> = Returns(value: T) | Diverges

  /** The order in which the loops visit types: the type, then its base
      chain. */
  function Chain(u: Universe, t: TypeId): (r: seq<TypeId>)
    requires BasesBelow(u) && t in u.types
    ensures |r| >= 1 && r[0] == t
    ensures forall i :: 0 <= i < |r| ==> r[i] in u.types
  {
    [t] + Reflection.GetBaseTypes(u, t)
  }

  /** Walking up from `t` meets `object`. */
  predicate ReachesObject(u: Universe, t: TypeId)
    requires BasesBelow(u) && t in u.types
  {
    u.objectType in Chain(u, t)
  }

  /** The types a loop inspects: the chain up to, not including, `object`. */
  function Visited(u: Universe, t: TypeId): (r: seq<TypeId>)
    requires BasesBelow(u) && t in u.types
    ensures u.objectType !in r
    ensures forall i :: 0 <= i < |r| ==> r[i] in u.types
  {
    Arrays.Before(Chain(u, t), u.objectType)
  }

  /** With a base `b`, the chain is the type followed by the chain of `b`. */
  lemma ChainOfBase(u: Universe, t: TypeId)
    requires BasesBelow(u) && t in u.types && u.types[t].baseType.Some?
    ensures u.types[t].baseType.value in u.types
    ensures Chain(u, t) == [t] + Chain(u, u.types[t].baseType.value)
  {
  }

  /** One step of the loop from a type other than `object` with base `b`:
      the visited types are the type followed by those of `b`, and `object`
      is reached from the type exactly when it is reached from `b`. */
  lemma VisitedStep(u: Universe, t: TypeId)
    requires BasesBelow(u) && t in u.types && t != u.objectType && u.types[t].baseType.Some?
    ensures u.types[t].baseType.value in u.types
    ensures Visited(u, t) == [t] + Visited(u, u.types[t].baseType.value)
    ensures ReachesObject(u, t) <==> ReachesObject(u, u.types[t].baseType.value)
  {
    ChainOfBase(u, t);
    Arrays.BeforeCons(t, Chain(u, u.types[t].baseType.value), u.objectType);
  }

  /** From a type other than `object` without a base, the loop visits that
      type alone and never reaches `object`. */
  lemma VisitedNoBase(u: Universe, t: TypeId)
    requires BasesBelow(u) && t in u.types && t != u.objectType && u.types[t].baseType.None?
    ensures Visited(u, t) == [t]
    ensures !ReachesObject(u, t)
  {
    assert Chain(u, t) == [t];
  }

  /** The chain of `object` is visited not at all. */
  lemma ObjectVisitsNothing(u: Universe)
    requires BasesBelow(u) && u.objectType in u.types
    ensures Visited(u, u.objectType) == []
    ensures ReachesObject(u, u.objectType)
  {
  }

  /** `IsBaseType(type, checkingType)`: true when `checkingType` is the type
      or one of its bases below `object`, false when `object` is reached
      first, and no answer when the chain ends before `object`. */
  function IsBaseType(u: Universe, t: Option<TypeId>, checking: Option<TypeId>): (r: Outcome<bool>)
    requires BasesBelow(u) && (t.Some? ==> t.value in u.types)
    ensures t.None? ==> r == Diverges
    ensures t == Some(u.objectType) ==> r == Returns(false)
    decreases if t.Some? then u.types[t.value].depth + 1 else 0
  {
    if t == Some(u.objectType) then Returns(false)
    else
      match t
      case None => Diverges
      case Some(x) =>
        if t == checking then Returns(true)
        else IsBaseType(u, u.types[x].baseType, checking)
  }

  /** `IsBaseType` searches the visited part of the chain: it returns true
      exactly when `checkingType` is there, false exactly when it is not and
      the chain reaches `object`, and diverges otherwise. */
  lemma {:induction false} IsBaseTypeSearchesChain(u: Universe, t: TypeId, checking: Option<TypeId>)
    requires BasesBelow(u) && t in u.types
    ensures IsBaseType(u, Some(t), checking) == Returns(true) <==>
      checking.Some? && checking.value in Visited(u, t)
    ensures IsBaseType(u, Some(t), checking) == Returns(false) <==>
      ReachesObject(u, t) && !(checking.Some? && checking.value in Visited(u, t))
    ensures IsBaseType(u, Some(t), checking).Diverges? <==>
      !ReachesObject(u, t) && !(checking.Some? && checking.value in Visited(u, t))
    decreases u.types[t].depth
  {
    if t == u.objectType {
      ObjectVisitsNothing(u);
    } else {
      if u.types[t].baseType.None? {
        VisitedNoBase(u, t);
      } else {
        VisitedStep(u, t);
        if Some(t) != checking {
          IsBaseTypeSearchesChain(u, u.types[t].baseType.value, checking);
        }
      }
    }
  }

  /** Every type other than `object` is its own base type, whether or not
      its chain reaches `object`. */
  lemma IsBaseTypeReflexive(u: Universe, t: TypeId)
    requires BasesBelow(u) && t in u.types && t != u.objectType
    ensures IsBaseType(u, Some(t), Some(t)) == Returns(true)
  {
  }

  /** `object` is never reported as a base type, of anything. */
  lemma ObjectIsNeverABase(u: Universe, t: Option<TypeId>)
    requires BasesBelow(u) && (t.Some? ==> t.value in u.types)
    ensures IsBaseType(u, t, Some(u.objectType)) != Returns(true)
  {
    if t.Some? {
      IsBaseTypeSearchesChain(u, t.value, Some(u.objectType));
    }
  }

  /** A type whose chain ends without `object` (an interface) never returns
      unless the checked type is on its chain. */
  lemma IsBaseTypeOfRootlessType(u: Universe, t: TypeId, checking: Option<TypeId>)
    requires BasesBelow(u) && t in u.types && t != u.objectType
    requires u.types[t].baseType.None?
    ensures checking == Some(t) ==> IsBaseType(u, Some(t), checking) == Returns(true)
    ensures checking != Some(t) ==> IsBaseType(u, Some(t), checking) == Diverges
  {
  }

  /** The type the loop of `IsSubclassOfRawGeneric` compares: a generic
      type's definition, any other type itself. */
  function Raw(u: Universe, x: TypeId): (r: TypeId)
    requires ReferencesLoaded(u) && x in u.types
    ensures r in u.types
    ensures IsGenericType(u, x) ==> Some(r) == u.types[x].genericDefinition
    ensures !IsGenericType(u, x) ==> r == x
  {
    if IsGenericType(u, x) then u.types[x].genericDefinition.value else x
  }

  /** `IsSubclassOfRawGeneric(generic, toCheck)`: like `IsBaseType`, but a
      generic type on the chain stands for its generic definition. */
  function IsSubclassOfRawGeneric(u: Universe, generic: Option<TypeId>, toCheck: Option<TypeId>): (r: Outcome<bool>)
    requires BasesBelow(u) && ReferencesLoaded(u) && (toCheck.Some? ==> toCheck.value in u.types)
    ensures toCheck.None? ==> r == Diverges
    ensures toCheck == Some(u.objectType) ==> r == Returns(false)
    decreases if toCheck.Some? then u.types[toCheck.value].depth + 1 else 0
  {
    if toCheck == Some(u.objectType) then Returns(false)
    else
      match toCheck
      case None => Diverges
      case Some(x) =>
        if generic == Some(Raw(u, x)) then Returns(true)
        else IsSubclassOfRawGeneric(u, generic, u.types[x].baseType)
  }

  /** Each type of `s` read raw. */
  function Raws(u: Universe, s: seq<TypeId>): (r: seq<TypeId>)
    requires ReferencesLoaded(u) && forall i :: 0 <= i < |s| ==> s[i] in u.types
    ensures |r| == |s|
    ensures forall i :: 0 <= i < |s| ==> r[i] == Raw(u, s[i])
  {
    if s == [] then [] else [Raw(u, s[0])] + Raws(u, s[1..])
  }

  /** Some visited type, read raw, is `generic`. */
  predicate RawVisited(u: Universe, generic: Option<TypeId>, t: TypeId)
    requires BasesBelow(u) && ReferencesLoaded(u) && t in u.types
  {
    generic.Some? && generic.value in Raws(u, Visited(u, t))
  }

  /** `IsSubclassOfRawGeneric` searches the visited chain with generic types
      replaced by their definitions, with the same false and divergent
      outcomes as `IsBaseType`. */
  lemma {:induction false} RawGenericSearchesChain(u: Universe, generic: Option<TypeId>, t: TypeId)
    requires BasesBelow(u) && ReferencesLoaded(u) && t in u.types
    ensures IsSubclassOfRawGeneric(u, generic, Some(t)) == Returns(true) <==> RawVisited(u, generic, t)
    ensures IsSubclassOfRawGeneric(u, generic, Some(t)) == Returns(false) <==>
      ReachesObject(u, t) && !RawVisited(u, generic, t)
    ensures IsSubclassOfRawGeneric(u, generic, Some(t)).Diverges? <==>
      !ReachesObject(u, t) && !RawVisited(u, generic, t)
    decreases u.types[t].depth
  {
    if t == u.objectType {
      ObjectVisitsNothing(u);
    } else {
      if u.types[t].baseType.None? {
        VisitedNoBase(u, t);
        assert Raws(u, Visited(u, t)) == [Raw(u, t)];
      } else {
        VisitedStep(u, t);
        var b := u.types[t].baseType.value;
        assert Raws(u, Visited(u, t)) == [Raw(u, t)] + Raws(u, Visited(u, b));
        if generic != Some(Raw(u, t)) {
          RawGenericSearchesChain(u, generic, b);
        }
      }
    }
  }

  /** A generic type other than `object` is a subclass of its own raw
      definition; a null `generic` is never matched, so it only ever yields
      false or no answer. */
  lemma RawGenericOfItself(u: Universe, t: TypeId, toCheck: Option<TypeId>)
    requires BasesBelow(u) && ReferencesLoaded(u) && t in u.types && t != u.objectType
    requires toCheck.Some? ==> toCheck.value in u.types
    ensures IsSubclassOfRawGeneric(u, Some(Raw(u, t)), Some(t)) == Returns(true)
    ensures IsSubclassOfRawGeneric(u, None, toCheck) != Returns(true)
  {
    if toCheck.Some? {
      RawGenericSearchesChain(u, None, toCheck.value);
    }
  }
}
