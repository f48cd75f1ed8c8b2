/**
 * The conversion contracts a native Swift type registers to be storable:
 * `SafeValue`, whose storage-to-native direction cannot fail, and
 * `RiskyValue`, whose storage-to-native direction may throw.
 */
module Values {
  import opened Wrappers
  import opened Storage

  /**
   * The contract of a native type `V` whose conversion may throw an `E`.
   * `typeName` is `String(describing: V.self)`; `datatypeKind` is the binding type
   * `V.Datatype`; `declaredDatatype` is the SQL column type. The decoders are
   * only ever applied to a binding of kind `datatypeKind` (the `as? V.Datatype`
   * guard of the unpacking functions); what they return for any other kind is
   * never observed.
   */
  datatype Contract<!V, E> =
    | SafeValue(typeName: string, datatypeKind: Kind, declaredDatatype: string,
                datatypeValue: V -> Binding, fromDatatypeValue: Binding -> V)
    | RiskyValue(typeName: string, datatypeKind: Kind, declaredDatatype: string,
                 datatypeValue: V -> Binding, tryFromDatatypeValue: Binding -> Result<V, E>)

  /** `V.fromDatatypeValue(b)` seen as a call that may throw. */
  function FromDatatypeValue<V, E>(c: Contract<V, E>, b: Binding): (r: Result<V, E>)
    ensures c.SafeValue? ==> r.Success?
  {
    match c
    case SafeValue(_, _, _, _, decode) => Success(decode(b))
    case RiskyValue(_, _, _, _, tryDecode) => tryDecode(b)
  }

  /** Encoding always yields a binding of the contract's own datatype. */
  ghost predicate Conforms<V(!new), E>(c: Contract<V, E>) {
    forall v :: KindOf(c.datatypeValue(v)) == c.datatypeKind
  }

  /** Decoding what was encoded gives back the same native value. */
  ghost predicate RoundTrips<V(!new), E>(c: Contract<V, E>) {
    forall v :: FromDatatypeValue(c, c.datatypeValue(v)) == Success(v)
  }
}
