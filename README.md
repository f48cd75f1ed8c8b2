# SQLite.swift expression and value-conversion layer, in Dafny

This project models the layer of SQLite.swift that builds parameterised SQL
text and converts between Swift values and SQLite storage values:

- **Expression algebra** (`helpers.dfy`, module `Helpers`). An `Expression` is a
  template string with `?` placeholders plus the ordered list of optional
  bindings (`None` binds SQL NULL). The module holds `quote`, `join`, `infix`,
  `prefix` and `wrap`, the free `infix`/`wrap` that take their name from the
  call site, and `transcode`, which renders a binding as inline SQL literal text.
  `quote` and `join` build their results in a loop in Swift. They are methods
  (`Quote`, `Join`) proved equal to the functions `Quoted` and `JoinOf`, which the
  rest of the model uses.
- **Storage primitives** (`storage.dfy`). A binding is an `Integer` (Int64), a
  `Real` (an opaque 64-bit pattern), a `Text` or a `Blob` (bytes). NULL is the
  absent binding.
- **Conversion contracts** (`values.dfy`). A `Contract` is either a `SafeValue`,
  whose storage-to-native conversion cannot fail, or a `RiskyValue`, whose
  conversion may throw.
- **Value unpacking** (`unpacking.dfy`). It has two forms:
  - the trusting `value`, whose trap conditions become preconditions;
  - the reporting `throwingValue`, which returns a distinct error for each failure.
- **Foundation conformances** (`foundation.dfy`). `Data` is stored as a BLOB and
  `Date` as REAL seconds since the Unix epoch; both are `SafeValue`. `URL` is
  stored as TEXT and is a `RiskyValue`.
- **Date and time SQL functions** (`date_functions.dfy`). These cover SQLite's
  `date`, `time`, `datetime`, `julianday` and `strftime`, as listed in "Date And
  Time Functions" of the SQLite SQL language reference. Arguments are bound as
  parameters and never inlined. The functions of a date-valued expression append
  the `'unixepoch'` modifier.

The central invariant is `Helpers.WellFormed`: a template holds exactly one `?`
per binding. Every combinator keeps it whenever its operator, name or
separator contains no `?`. Because each combinator's lemma takes only
well-formed operands, the invariant holds through any nesting. Bindings are
never altered or reordered: each operand's bindings appear in the result as
one contiguous run, in operand order.

`prefix` parenthesises its operand: it emits `OP (x)`, because it is
`"OP ".wrap(x)`. SQL NULL is the absent binding, `nil` of `Binding?`.

## Model

| member | source | states |
|---|---|---|
| `Helpers.Quote` | Sources/SQLite/Helpers.swift:58-69 | the character-by-character loop builds exactly `Quoted(s, mark)`: the mark, every character with each mark doubled, the mark |
| `Helpers.QuotedShape` | Sources/SQLite/Helpers.swift:58-69 | the quoted text starts and ends with the mark and its length is `|s| + 2 + (number of marks in s)` |
| `Helpers.QuoteRoundTrip` | Sources/SQLite/Helpers.swift:61-66 | for quoting done scalar by scalar: stripping the outer marks and collapsing each doubled mark gives back `s` exactly, for every `s`, including strings that contain the mark. For a mark no other character is canonically equivalent to, such as `"` and `'`, the Swift loop, which steps by grapheme cluster, gives the same text exactly when no cluster holds the mark with other scalars (`ClusterQuotedAgrees`, and Findings) |
| `Helpers.ClusterQuoteBreaksRoundTrip` | Sources/SQLite/Helpers.swift:61-66 | quoting `'` + U+0301 cluster by cluster, as Swift does, leaves the quote single: the text differs from per-scalar quoting and `Unquote` rejects it |
| `Helpers.ClusterQuotedAgrees` | Sources/SQLite/Helpers.swift:58-69 | quoting cluster by cluster gives the same text as quoting scalar by scalar if and only if every cluster is either the mark alone or free of it |
| `Helpers.UnquoteQuoted` | Sources/SQLite/Helpers.swift:61-66 | the converse: every text in which each inner mark is one of an adjacent pair is the quoting of what it decodes to, so quoting is injective |
| `Helpers.Join` | Sources/SQLite/Helpers.swift:71-79 | the loop that appends each operand's template and bindings yields `JoinOf(separator, expressions)` |
| `Helpers.JoinOf` | Sources/SQLite/Helpers.swift:71-79 | joining no operands gives an empty template and no bindings; one operand gives that operand unchanged; two give `t1 + sep + t2` with bindings `b1 + b2` |
| `Helpers.JoinKeepsOperandBindings` | Sources/SQLite/Helpers.swift:73-77 | operand `i`'s bindings occur in the join unchanged and contiguous, starting right after the bindings of operands `0..i-1` |
| `Helpers.JoinBindingsConcat` | Sources/SQLite/Helpers.swift:71-79 | the bindings of a join over `a + b` are those of `a` followed by those of `b` (order is kept under regrouping) |
| `Helpers.JoinPreservesPlaceholders` | Sources/SQLite/Helpers.swift:71-79 | if the separator has no `?` and every operand has one `?` per binding, so does the join |
| `Helpers.InfixAll` | Sources/SQLite/Helpers.swift:85-91 | the template is the terms' templates joined by ` op `, in parentheses exactly when `wrap`; one term is just that term (parenthesised when `wrap`), two are `t1 op t2`; the bindings are the terms' bindings in order |
| `Helpers.Infix` | Sources/SQLite/Helpers.swift:81-83 | the template is `(l op r)` with `wrap`, `l op r` without it; the bindings are `l.bindings + r.bindings` in both cases |
| `Helpers.InfixPreservesPlaceholders` | Sources/SQLite/Helpers.swift:85-91 | an operator without `?` keeps the placeholder invariant, wrapped or not |
| `Helpers.Prefix` | Sources/SQLite/Helpers.swift:93-95 | the template is `op (t)` and the bindings are unchanged |
| `Helpers.PrefixAll` | Sources/SQLite/Helpers.swift:97-99 | the template is `op (` + the operands' templates joined by `", "` + `)`, so two operands give `op (t1, t2)`; the bindings are the operands' bindings in order; a one-element list gives the same result as the single-operand form |
| `Helpers.PrefixPreservesPlaceholders` | Sources/SQLite/Helpers.swift:93-99 | an operator without `?` keeps the placeholder invariant in both forms |
| `Helpers.Wrap` | Sources/SQLite/Helpers.swift:101-103 | the template is `name(t)` and the bindings are the operand's, unchanged |
| `Helpers.WrapPreservesPlaceholders` | Sources/SQLite/Helpers.swift:101-103 | `name.wrap(e)` is `name(t)` with the bindings unchanged, and keeps the placeholder invariant when the name has no `?` |
| `Helpers.WrapAll` | Sources/SQLite/Helpers.swift:105-107 | the template is `name(` + the arguments' templates joined by `", "` + `)`: `name()` for none, `name(t1, t2)` for two; the bindings are the arguments' in order; a single argument is not wrapped twice (same result as the single form) |
| `Helpers.WrapAllPreservesPlaceholders` | Sources/SQLite/Helpers.swift:105-107 | joining the arguments with `", "` and wrapping keeps the placeholder invariant |
| `Helpers.CallSiteName` | Sources/SQLite/Helpers.swift:112 | the name is the longest prefix of the call-site name that holds no `(`: it is a prefix, has no `(`, and is followed by `(` when shorter |
| `Helpers.CallSiteNameOf` | Sources/SQLite/Helpers.swift:111-121 | a call-site name `name(labels…)` with `(`-free `name` yields exactly `name` |
| `Helpers.CallSiteNameWhole` | Sources/SQLite/Helpers.swift:111-121 | a call-site name without `(` is used whole |
| `Helpers.CallSiteInfix` | Sources/SQLite/Helpers.swift:111-113 | the free `infix` called from `name(…)` is `name.infix(lhs, rhs, wrap)`; called from a call site without `(`, such as a property getter, the whole call-site string is the operator; the bindings are `lhs` then `rhs` |
| `Helpers.CallSiteWrap` | Sources/SQLite/Helpers.swift:115-117 | the free `wrap` called from `name(…)` is `name.wrap(e)`, and from a call site without `(` it wraps with the whole string; the bindings are unchanged |
| `Helpers.CallSiteWrapAll` | Sources/SQLite/Helpers.swift:119-121 | the free list `wrap` called from `name(…)` is `name.wrap(es)`, and from a call site without `(` it wraps with the whole string; the bindings are the arguments' in order |
| `Helpers.Transcode` | Sources/SQLite/Helpers.swift:123-134 | an absent binding renders `NULL`; a string renders as single-quoted text that decodes back to the string and is never the NULL token (quoting scalar by scalar; see Findings for the cluster-level loop); a blob renders its description; any other value renders its default description |
| `Values.FromDatatypeValue` | Sources/SQLite/Core/RiskyValue.swift:9-16 | the storage-to-native conversion, which may throw for a `RiskyValue` and never fails for a `SafeValue` |
| `Unpacking.ThrowingValue` | Sources/SQLite/Helpers.swift:154-168 | a wrong storage kind gives `castingToExpectedDatatypeFailed` with the value and the expected type name (and only then); the contract's own error is rethrown unchanged; a failed value-type cast gives `castingDatatypeValueFailed`; it succeeds exactly when none of these happen, with the cast converted value |
| `Unpacking.ThrowingValueOptional` | Sources/SQLite/Helpers.swift:170-175 | an absent binding gives `optionalValueMissing` naming the target type (and only then); a present one is unpacked as above |
| `Unpacking.Value` | Sources/SQLite/Helpers.swift:137-139 | defined exactly where neither forced cast nor `try!` traps, and then it returns what the reporting form returns |
| `Unpacking.ValueOptional` | Sources/SQLite/Helpers.swift:141-143 | for a `SafeValue` with a present binding of the right kind, it returns what the reporting form returns |
| `Unpacking.UnpackStored` | Sources/SQLite/Helpers.swift:170-175 | for a contract that conforms and round-trips, unpacking a stored value with the reporting form gives back that value, never an error |
| `Foundation.DataFromDatatypeValue` | Sources/SQLite/Foundation.swift:33-35 | a blob decodes to a buffer holding exactly the blob's bytes |
| `Foundation.DataValue` | Sources/SQLite/Foundation.swift:27-41 | `Data` is a `SafeValue` named `Data`, of binding kind `Blob`, declared `BLOB`; it stores its bytes as a blob and a blob decodes to a buffer of its bytes |
| `Foundation.DataContract` | Sources/SQLite/Foundation.swift:27-43 | `Data` is a `SafeValue` declared `BLOB`; its blob holds exactly its bytes, a blob decodes to a buffer of its bytes, and every buffer round-trips |
| `Foundation.DataBytesExample` | Tests/SQLiteTests/FoundationTests.swift:5-15 | `Data([1, 2, 3])` stores as the blob `[1, 2, 3]`, and that blob decodes to `Data([1, 2, 3])` |
| `Foundation.DateFromDatatypeValue` | Sources/SQLite/Foundation.swift:52-54 | a stored real decodes to the date whose interval since 1970 is that real |
| `Foundation.DateValue` | Sources/SQLite/Foundation.swift:45-59 | `Date` is a `SafeValue` named `Date`, of binding kind `Double`, declared `REAL`; it stores its interval since 1970 and a real decodes to the date of that interval |
| `Foundation.DateContract` | Sources/SQLite/Foundation.swift:45-61 | `Date` is a `SafeValue` declared `REAL`; any stored epoch value decodes to a date whose epoch value is the stored one, and every date round-trips |
| `Foundation.UrlFromDatatypeValue` | Sources/SQLite/Foundation.swift:79-82 | it throws `urlFromStringFailed(s)`, carrying the same `s`, exactly when `URL(string: s)` fails; otherwise it returns the URL that `URL(string: s)` returned |
| `Foundation.UrlValue` | Sources/SQLite/Foundation.swift:63-84 | `URL` is a `RiskyValue` named `URL`, of binding kind `String`, declared `TEXT`; it stores its `absoluteString`, and a stored text decodes through `fromDatatypeValue` |
| `Foundation.UrlContract` | Sources/SQLite/Foundation.swift:63-84 | decoding a stored text is exactly `URL.fromDatatypeValue`, and every URL stores a TEXT binding. Two round trips are proved under named hypotheses about Foundation, each in both directions: every URL round-trips through the column if and only if parsing its absolute string gives it back (`ReparsesAbsoluteString`); a decoded URL stores the string it came from if and only if parsing keeps the text (`KeepsParsedText`) |
| `Foundation.UrlColumnUnpacking` | Sources/SQLite/Foundation.swift:79-82 | reading a URL column with the reporting form: a string `URL(string:)` rejects surfaces as the URL error carrying it, never a trap, and an accepted string yields the URL parsed from it |
| `DateAndTimeFunctions.PlaceholdersShape` | Sources/SQLite/Typed/DateAndTimeFunctions.swift:64-66 | `n` `?`s joined by `", "` contain exactly `n` question marks and, for `n ≥ 1`, `3n - 2` characters (none for `n = 0`) |
| `DateAndTimeFunctions.TimeFunction` | Sources/SQLite/Typed/DateAndTimeFunctions.swift:63-69 | both branches give `name(` + one `?` per argument, joined by `", "`, + `)`; the bindings are the time string then the modifiers, in order |
| `DateAndTimeFunctions.TimeFunctionShape` | Sources/SQLite/Typed/DateAndTimeFunctions.swift:63-69 | the template has one `?` per binding; its length is `|name| + 3k + 3`; it is the same for any time string and modifiers of the same count, so arguments are never inlined |
| `DateAndTimeFunctions.Strftime` | Sources/SQLite/Typed/DateAndTimeFunctions.swift:55-61 | the template is `strftime(?, ?)` plus one `?` per modifier; the bindings are the format, the time string, then the modifiers |
| `DateAndTimeFunctions.StrftimeShape` | Sources/SQLite/Typed/DateAndTimeFunctions.swift:55-61 | the template has one `?` per binding, has length `3k + 14`, and never depends on the argument text |
| `DateAndTimeFunctions.Date` | Sources/SQLite/Typed/DateAndTimeFunctions.swift:34-36 | `date(?, …)` with the time string and modifiers bound in order |
| `DateAndTimeFunctions.Time` | Sources/SQLite/Typed/DateAndTimeFunctions.swift:39-41 | `time(?, …)` with the time string and modifiers bound in order |
| `DateAndTimeFunctions.Datetime` | Sources/SQLite/Typed/DateAndTimeFunctions.swift:44-46 | `datetime(?, …)` with the time string and modifiers bound in order |
| `DateAndTimeFunctions.Julianday` | Sources/SQLite/Typed/DateAndTimeFunctions.swift:50-52 | `julianday(?, …)` with the time string and modifiers bound in order |
| `DateAndTimeFunctions.DateNowExample` | Sources/SQLite/Typed/DateAndTimeFunctions.swift:34-36 | `date("now")` is `date(?)` with `now` bound as its only parameter |
| `DateAndTimeFunctions.UnixEpoch` | Sources/SQLite/Typed/DateAndTimeFunctions.swift:90-106 | `name(t, 'unixepoch')` is `name` wrapped around the expression and the inline literal `'unixepoch'`; the bindings pass through unchanged |
| `DateAndTimeFunctions.UnixEpochPreservesPlaceholders` | Sources/SQLite/Typed/DateAndTimeFunctions.swift:90-106 | appending the `'unixepoch'` modifier keeps the placeholder invariant |
| `DateAndTimeFunctions.ExpressionDate` | Sources/SQLite/Typed/DateAndTimeFunctions.swift:91-93 | `date(t, 'unixepoch')` with the bindings unchanged and the placeholder invariant kept |
| `DateAndTimeFunctions.ExpressionTime` | Sources/SQLite/Typed/DateAndTimeFunctions.swift:95-97 | `time(t, 'unixepoch')` with the bindings unchanged and the placeholder invariant kept |
| `DateAndTimeFunctions.ExpressionDatetime` | Sources/SQLite/Typed/DateAndTimeFunctions.swift:99-101 | `datetime(t, 'unixepoch')` with the bindings unchanged and the placeholder invariant kept |
| `DateAndTimeFunctions.ExpressionJulianday` | Sources/SQLite/Typed/DateAndTimeFunctions.swift:103-105 | `julianday(t, 'unixepoch')` with the bindings unchanged and the placeholder invariant kept |

## Left out

- The `*` operator, the `_OptionalType` protocol, `SQLITE_TRANSIENT` and the C library imports. They are type-system plumbing or foreign-function glue with no logic.
- The phantom result type of `Expression<T>` and the `Expressible` protocol. Operands are `Expression` values directly.
- The `Date` properties `date`, `time`, `datetime` and `julianday` (DateAndTimeFunctions.swift:72-88). They format a date with the process-wide date formatter and pass the text to the date functions. Foundation date formatting is not part of this model.
- `Helpers.Quote` works on Unicode scalars (`char`) and compares them by identity, while Swift iterates grapheme clusters and compares `Character`s by canonical equivalence. A mark followed by a combining character is one Swift `Character` different from the mark, so Swift does not double it and the result fails the round trip; `Helpers.Quote` and `Helpers.QuoteRoundTrip` describe the per-scalar quoting instead. The cluster-level loop is `Helpers.ClusterQuoted` (see Findings). Canonical equivalence is not modelled: for a mark that another character decomposes to (U+1FEF decomposes to the backtick), Swift doubles that character and neither `Helpers.Quote` nor `Helpers.ClusterQuoted` does. No character is canonically equivalent to the marks the library itself uses, `"` and `'`, so there the comparisons agree. Unicode segmentation is not modelled either: a text is given as its sequence of clusters.
- `Helpers.Transcode` quotes strings with the per-scalar `Helpers.Quoted`, so for a string holding `'` inside a multi-scalar cluster its output differs from Swift's loop (see Findings).
- `Helpers.Transcode` takes `Blob.description` and the default description of numbers as parameters. Neither is defined in the files modelled.
- Value.swift is not part of this model. It defines the `Binding` conformances and the declared datatypes of `Int64`, `Double`, `String` and `Blob`. The model uses SQLite's storage-class names `INTEGER`, `REAL`, `TEXT` and `BLOB` for them.
- `URL(string:)` and `absoluteString` belong to Foundation, which is not part of this model. They appear as the uninterpreted parameters `parse` and `absoluteString`, over a URL type parameter.
- `Foundation.UrlContract`: the two round trips, URL to column to URL and text to URL to column, are not proved outright. Each is proved equivalent to a named hypothesis about Foundation (`ReparsesAbsoluteString`, `KeepsParsedText`). Foundation does not promise either one: a URL relative to a base URL differs from the URL re-parsed from its absolute string, and `URL(string:)` may percent-encode its input.
- `Foundation.DateContract`: `Double` is kept as an opaque bit pattern. `Date(timeIntervalSince1970:)` and `timeIntervalSince1970` are modelled as exact inverses; the floating-point rounding Foundation may introduce through its 2001 reference date is not captured.
- Contract decoders are total functions in the model. Their result on a binding of the wrong kind is arbitrary and never observed, because unpacking checks the kind first (the `as? A.Datatype` guard).
- `String(describing: type(of: value))` in `castingDatatypeValueFailed` is modelled by the contract's static type name.
- `Data.datatypeValue`'s raw-pointer copy (`withUnsafeBytes`) is modelled as taking the byte sequence.

## Findings

| source | as written | input that shows it | evidently intended | confidence | as-written member | corrected member |
|---|---|---|---|---|---|---|
| Sources/SQLite/Helpers.swift:61-66 | `quote` doubles a `Character` only when it equals the mark, and a `Character` is a whole grapheme cluster | the string `'` + U+0301 (a quote with a combining acute accent, one cluster): `"'\u{301}".quote("'")` gives `'`, `'`, U+0301, `'`, whose inner quote is single, so the literal ends early and `transcode` emits SQL that does not read back as the string | every mark scalar doubled, so that the quoted text always reads back as the input | medium, not executed | `Helpers.ClusterQuoted`, `Helpers.ClusterQuoteBreaksRoundTrip` | `Helpers.Quoted`, `Helpers.QuoteRoundTrip` |
