/** `ValueTypeExtensions`: comparing a value-type value against the type's
    default value, and turning the default into null.

    `default(T)` is not something Dafny can name for an arbitrary type, so
    each operation takes it as a parameter. */
module ValueTypes {
  import opened Wrappers

  /** `IsEmpty(value)`: the value equals the type's default. */
  predicate IsEmpty<T(==)>(value: T, dflt: T)
    ensures IsEmpty(value, dflt) <==> value == dflt
  {
    value == dflt
  }

  /** `IsNotEmpty(value)`: the negation of `IsEmpty`. */
  predicate IsNotEmpty<T(==)>(value: T, dflt: T)
    ensures IsNotEmpty(value, dflt) <==> value != dflt
  {
    IsEmpty(value, dflt) == false
  }

  /** `ToNullable(value)`: null for the default value, the value itself
      otherwise. */
  function ToNullable<T(==)>(value: T, dflt: T): (r: Option<T>)
    ensures r.None? <==> IsEmpty(value, dflt)
    ensures r.Some? ==> r.value == value && IsNotEmpty(r.value, dflt)
  {
    if IsEmpty(value, dflt) then None else Some(value)
  }

  /** Reading a `ToNullable` result back with the default as fallback
      (`GetValueOrDefault`) gives the original value: nothing is lost. */
  lemma ToNullableRoundTrip<T>(value: T, dflt: T)
    ensures ToNullable(value, dflt).GetOr(dflt) == value
  {
  }

  /** `ToNullable` never yields a non-null default, and applying it again to
      what comes back changes nothing. */
  lemma ToNullableNormalizes<T>(value: T, dflt: T)
    ensures ToNullable(value, dflt) != Some(dflt)
    ensures ToNullable(ToNullable(value, dflt).GetOr(dflt), dflt) == ToNullable(value, dflt)
  {
  }
}
