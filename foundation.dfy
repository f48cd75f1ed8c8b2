/**
 * The conversion contracts of three Foundation types: `Data` is stored as a
 * BLOB, `Date` as REAL seconds since the Unix epoch (both `SafeValue`), and
 * `URL` as TEXT (a `RiskyValue`: not every stored string parses as a URL).
 */
module Foundation {
  import opened Wrappers
  import opened Storage
  import opened Values
  import opened Unpacking

  /** A Foundation byte buffer. */
  datatype Data = Data(bytes: seq<bv8>)

  /** A Foundation point in time, held as its interval since 1970-01-01 00:00 UTC. */
  datatype Date = Date(timeIntervalSince1970: Double)

  /** `URL.URLRiskyValueError`: the rejected string is carried along. */
  datatype URLRiskyValueError = UrlFromStringFailed(rejected: string)

  // ---------------------------------------------------------------------------
  // Data

  /** `Data.fromDatatypeValue(blob)`: a buffer holding the blob's bytes. */
  function DataFromDatatypeValue(b: Binding): (d: Data)
    ensures b.Blob? ==> d.bytes == b.bytes
  {
    if b.Blob? then Data(b.bytes) else Data([])
  }

  /** `Data : SafeValue`, stored as a `Blob` of its bytes. */
  function DataValue<E>(): (c: Contract<Data, E>)
    ensures c.SafeValue? && c.typeName == "Data" && c.datatypeKind == BlobKind && c.declaredDatatype == "BLOB"
    ensures forall d :: c.datatypeValue(d) == Blob(d.bytes)
    ensures forall bytes :: c.fromDatatypeValue(Blob(bytes)) == Data(bytes)
  {
    SafeValue("Data", BlobKind, DeclaredDatatype(BlobKind), (d: Data) => Blob(d.bytes), DataFromDatatypeValue)
  }

  /**
   * `Data` is a total contract declared as a BLOB column; its blob holds
   * exactly the buffer's bytes, and every buffer comes back unchanged.
   */
  lemma DataContract<E>()
    ensures var c := DataValue<E>();
      && c.SafeValue? && c.datatypeKind == BlobKind && c.declaredDatatype == "BLOB"
      && (forall d :: c.datatypeValue(d) == Blob(d.bytes))
      && (forall bytes :: FromDatatypeValue(c, Blob(bytes)) == Success(Data(bytes)))
      && Conforms(c) && RoundTrips(c)
  {
  }

  /** The bytes `[1, 2, 3]` go into the blob and come back as the same buffer. */
  lemma DataBytesExample<E>()
    ensures DataValue<E>().datatypeValue(Data([1, 2, 3])) == Blob([1, 2, 3])
    ensures FromDatatypeValue(DataValue<E>(), Blob([1, 2, 3])) == Success(Data([1, 2, 3]))
  {
  }

  // ---------------------------------------------------------------------------
  // Date

  /** `Date.fromDatatypeValue(double)`: the date that many seconds after the Unix epoch. */
  function DateFromDatatypeValue(b: Binding): (d: Date)
    ensures b.Real? ==> d.timeIntervalSince1970 == b.double
  {
    if b.Real? then Date(b.double) else Date(Double(0))
  }

  /** `Date : SafeValue`, stored as its `timeIntervalSince1970`. */
  function DateValue<E>(): (c: Contract<Date, E>)
    ensures c.SafeValue? && c.typeName == "Date" && c.datatypeKind == RealKind && c.declaredDatatype == "REAL"
    ensures forall d :: c.datatypeValue(d) == Real(d.timeIntervalSince1970)
    ensures forall x :: c.fromDatatypeValue(Real(x)) == Date(x)
  {
    SafeValue("Date", RealKind, DeclaredDatatype(RealKind), (d: Date) => Real(d.timeIntervalSince1970), DateFromDatatypeValue)
  }

  /**
   * `Date` is a total contract declared as a REAL column; a stored epoch value
   * decodes to a date whose epoch value is the stored one, and back.
   */
  lemma DateContract<E>()
    ensures var c := DateValue<E>();
      && c.SafeValue? && c.datatypeKind == RealKind && c.declaredDatatype == "REAL"
      && (forall x :: FromDatatypeValue(c, Real(x)).Success? &&
                      c.datatypeValue(FromDatatypeValue(c, Real(x)).value) == Real(x))
      && Conforms(c) && RoundTrips(c)
  {
  }

  // ---------------------------------------------------------------------------
  // URL
  //
  // Foundation's `URL` is not part of this model. The URL type is a type
  // parameter `U`; `parse` stands for the failable `URL(string:)` and
  // `absoluteString` for the property of that name. Neither is interpreted.

  /** `URL.fromDatatypeValue(s)`: the parsed URL, or an error carrying `s`. */
  function UrlFromDatatypeValue<U>(parse: string -> Option<U>, datatypeValue: string): (r: Result<U, URLRiskyValueError>)
    ensures r.Failure? <==> parse(datatypeValue).None?
    ensures r.Failure? ==> r.error == UrlFromStringFailed(datatypeValue)
    ensures r.Success? ==> parse(datatypeValue) == Some(r.value)
  {
    match parse(datatypeValue)
    case None => Failure(UrlFromStringFailed(datatypeValue))
    case Some(url) => Success(url)
  }

  /** `URL : RiskyValue`, stored as its `absoluteString`. */
  function UrlValue<U(!new)>(parse: string -> Option<U>, absoluteString: U -> string): (c: Contract<U, URLRiskyValueError>)
    ensures c.RiskyValue? && c.typeName == "URL" && c.datatypeKind == TextKind && c.declaredDatatype == "TEXT"
    ensures forall u :: c.datatypeValue(u) == Text(absoluteString(u))
    ensures forall s :: c.tryFromDatatypeValue(Text(s)) == UrlFromDatatypeValue(parse, s)
  {
    RiskyValue("URL", TextKind, DeclaredDatatype(TextKind), (u: U) => Text(absoluteString(u)),
               (b: Binding) => if b.Text? then UrlFromDatatypeValue(parse, b.text) else Failure(UrlFromStringFailed("")))
  }

  /**
   * Parsing a URL's absolute string gives that URL back. Foundation does not
   * promise this: a URL made relative to a base URL differs from the URL
   * parsed from its absolute string.
   */
  ghost predicate ReparsesAbsoluteString<U(!new)>(parse: string -> Option<U>, absoluteString: U -> string) {
    forall u :: parse(absoluteString(u)) == Some(u)
  }

  /**
   * A parsed URL's absolute string is the text it was parsed from. Foundation
   * does not promise this either: it may percent-encode the text.
   */
  ghost predicate KeepsParsedText<U(!new)>(parse: string -> Option<U>, absoluteString: U -> string) {
    forall s :: parse(s).Some? ==> absoluteString(parse(s).value) == s
  }

  /**
   * `URL` is a fallible contract declared as a TEXT column, and decoding a
   * stored string is exactly parsing it. Every URL round-trips through the
   * column exactly when re-parsing absolute strings gives the URL back, and a
   * decoded URL stores the very string it came from exactly when parsing keeps
   * the text.
   */
  lemma UrlContract<U(!new)>(parse: string -> Option<U>, absoluteString: U -> string)
    ensures var c := UrlValue(parse, absoluteString);
      && c.RiskyValue? && c.datatypeKind == TextKind && c.declaredDatatype == "TEXT"
      && Conforms(c)
      && (forall s :: FromDatatypeValue(c, Text(s)) == UrlFromDatatypeValue(parse, s))
    ensures RoundTrips(UrlValue(parse, absoluteString)) <==> ReparsesAbsoluteString(parse, absoluteString)
    ensures var c := UrlValue(parse, absoluteString);
      (forall s :: FromDatatypeValue(c, Text(s)).Success? ==>
                   c.datatypeValue(FromDatatypeValue(c, Text(s)).value) == Text(s))
      <==> KeepsParsedText(parse, absoluteString)
  {
    var c := UrlValue(parse, absoluteString);
    if forall s :: FromDatatypeValue(c, Text(s)).Success? ==>
                   c.datatypeValue(FromDatatypeValue(c, Text(s)).value) == Text(s)
    {
      forall s | parse(s).Some? ensures absoluteString(parse(s).value) == s {
        assert FromDatatypeValue(c, Text(s)) == Success(parse(s).value);
      }
    }
  }

  /**
   * Reading a URL column through the reporting unpacking: a string the parser
   * rejects surfaces as the URL error carrying that string, never as a trap;
   * an accepted string yields the parsed URL.
   */
  lemma UrlColumnUnpacking<U(!new)>(parse: string -> Option<U>, absoluteString: U -> string, s: string)
    ensures var c := UrlValue(parse, absoluteString);
      var r := ThrowingValueOptional(c, Itself(c), Some(Text(s)));
      && (parse(s).None? ==> r == Failure(Rethrown(UrlFromStringFailed(s))))
      && (parse(s).Some? ==> r == Success(parse(s).value))
  {
  }
}
