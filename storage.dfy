/**
 * The storage primitives of SQLite: the values a column can physically hold.
 * SQL NULL is not a case here; it is the absent binding (`None`).
 */
module Storage {

  /** Swift's `Int64`, SQLite's INTEGER storage class. */
  newtype Int64 = x: int | -0x8000_0000_0000_0000 <= x < 0x8000_0000_0000_0000

  /** Swift's `Double`, kept as its IEEE 754 bit pattern: the model does no floating-point arithmetic. */
  datatype Double = Double(bits: bv64)

  /** A value bound to a statement parameter or read back from a column. */
  datatype Binding =
    | Integer(int64: Int64)
    | Real(double: Double)
    | Text(text: string)
    | Blob(bytes: seq<bv8>)

  /** The Swift type of a binding (a contract's `Datatype`). */
  datatype Kind = IntegerKind | RealKind | TextKind | BlobKind

  function KindOf(b: Binding): Kind {
    match b
    case Integer(_) => IntegerKind
    case Real(_) => RealKind
    case Text(_) => TextKind
    case Blob(_) => BlobKind
  }

  /** `declaredDatatype` of `Int64`, `Double`, `String` and `Blob`: the SQL column type. */
  function DeclaredDatatype(k: Kind): string {
    match k
    case IntegerKind => "INTEGER"
    case RealKind => "REAL"
    case TextKind => "TEXT"
    case BlobKind => "BLOB"
  }

  /** `String(describing: Datatype.self)`: the Swift name of the binding type. */
  function DatatypeName(k: Kind): string {
    match k
    case IntegerKind => "Int64"
    case RealKind => "Double"
    case TextKind => "String"
    case BlobKind => "Blob"
  }
}
