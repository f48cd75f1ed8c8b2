/**
 * Recovering a native value from a raw binding through its type's contract:
 * the trusting `value`, which traps on any mismatch, and the reporting
 * `throwingValue`, which throws a distinct error for each failure.
 */
module Unpacking {
  import opened Wrappers
  import opened Storage
  import opened Values

  /** The errors `throwingValue` raises itself. */
  datatype ThrowingValueUnpackingError =
    | CastingToExpectedDatatypeFailed(value: Binding, expectedDatatypeName: string)
    | CastingDatatypeValueFailed(datatypeName: string, expectedTypeName: string)
    | OptionalValueMissing(typeName: string)

  /** What `throwingValue` can throw: its own error, or the contract's error passed on unchanged. */
  datatype Thrown<E> = Unpacking(unpackingError: ThrowingValueUnpackingError) | Rethrown(error: E)

  /**
   * The Swift type `A` the caller asks for: its name and the dynamic cast
   * `as? A` from the contract's value type `V`.
   */
  datatype Target<!V, A> = Target(typeName: string, cast: V -> Option<A>)

  /** The usual target: the contract's own value type, to which the cast always succeeds. */
  function Itself<V, E>(c: Contract<V, E>): Target<V, V> {
    Target(c.typeName, v => Some(v))
  }

  /** `throwingValue(_: Binding)`. */
  function ThrowingValue<V, A, E>(c: Contract<V, E>, target: Target<V, A>, v: Binding): (r: Result<A, Thrown<E>>)
    ensures KindOf(v) != c.datatypeKind <==>
      r == Failure(Unpacking(CastingToExpectedDatatypeFailed(v, DatatypeName(c.datatypeKind))))
    ensures KindOf(v) == c.datatypeKind && FromDatatypeValue(c, v).Failure? ==>
      r == Failure(Rethrown(FromDatatypeValue(c, v).error))
    ensures KindOf(v) == c.datatypeKind && FromDatatypeValue(c, v).Success? &&
            target.cast(FromDatatypeValue(c, v).value).None? ==>
      r == Failure(Unpacking(CastingDatatypeValueFailed(c.typeName, target.typeName)))
    ensures r.Success? <==>
      KindOf(v) == c.datatypeKind && FromDatatypeValue(c, v).Success? &&
      target.cast(FromDatatypeValue(c, v).value).Some?
    ensures r.Success? ==> target.cast(FromDatatypeValue(c, v).value) == Some(r.value)
  {
    if KindOf(v) != c.datatypeKind then
      Failure(Unpacking(CastingToExpectedDatatypeFailed(v, DatatypeName(c.datatypeKind))))
    else
      match FromDatatypeValue(c, v)
      case Failure(e) => Failure(Rethrown(e))
      case Success(value) =>
        match target.cast(value)
        case None => Failure(Unpacking(CastingDatatypeValueFailed(c.typeName, target.typeName)))
        case Some(unpacked) => Success(unpacked)
  }

  /** `throwingValue(_: Binding?)`: an absent binding is reported before anything else. */
  function ThrowingValueOptional<V, A, E>(c: Contract<V, E>, target: Target<V, A>, v: Option<Binding>)
    : (r: Result<A, Thrown<E>>)
    ensures v.None? <==> r == Failure(Unpacking(OptionalValueMissing(target.typeName)))
    ensures v.Some? ==> r == ThrowingValue(c, target, v.value)
  {
    match v
    case None => Failure(Unpacking(OptionalValueMissing(target.typeName)))
    case Some(value) => ThrowingValue(c, target, value)
  }

  /**
   * `value(_: Binding)`: defined only where the forced casts and `try!` cannot
   * trap, and then it agrees with the reporting form.
   */
  function Value<V, A, E>(c: Contract<V, E>, target: Target<V, A>, binding: Binding): (a: A)
    requires KindOf(binding) == c.datatypeKind
    requires FromDatatypeValue(c, binding).Success?
    requires target.cast(FromDatatypeValue(c, binding).value).Some?
    ensures ThrowingValue(c, target, binding) == Success(a)
  {
    target.cast(FromDatatypeValue(c, binding).value).value
  }

  /** `value(_: Binding?)` for a `SafeValue`: the binding must be present (`binding!`). */
  function ValueOptional<V, A, E>(c: Contract<V, E>, target: Target<V, A>, binding: Option<Binding>): (a: A)
    requires c.SafeValue?
    requires binding.Some? && KindOf(binding.value) == c.datatypeKind
    requires target.cast(c.fromDatatypeValue(binding.value)).Some?
    ensures ThrowingValueOptional(c, target, binding) == Success(a)
  {
    Value(c, target, binding.value)
  }

  /** A contract that conforms and round-trips unpacks every stored value back to itself. */
  lemma UnpackStored<V(!new), E>(c: Contract<V, E>, x: V)
    requires Conforms(c) && RoundTrips(c)
    ensures ThrowingValueOptional(c, Itself(c), Some(c.datatypeValue(x))) == Success(x)
  {
  }
}
