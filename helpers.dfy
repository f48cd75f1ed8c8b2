/**
 * The expression algebra of SQLite.swift: SQL text with `?` placeholders plus
 * the values bound to them, the composition operators that build larger
 * expressions, identifier and literal quoting, and inline literal rendering.
 */
module Helpers {
  import opened Wrappers
  import opened Storage
  import opened Strings

  /**
   * An SQL fragment: template text and the values bound to its placeholders,
   * in order. A `None` binding binds SQL NULL. The phantom result type of
   * Swift's `Expression<T>` has no runtime content and is dropped.
   */
  datatype Expression = Expression(template: string, bindings: seq<Option<Binding>>)

  /** The placeholder invariant: one `?` in the template per binding. */
  predicate WellFormed(e: Expression) {
    Count(e.template, '?') == |e.bindings|
  }

  predicate AllWellFormed(es: seq<Expression>) {
    forall i :: 0 <= i < |es| ==> WellFormed(es[i])
  }

  // ---------------------------------------------------------------------------
  // Quoting

  /** The body of a quoted string: each `mark` doubled, every other character kept. */
  function Escape(s: string, mark: char): string {
    if s == [] then []
    else (if s[0] == mark then [s[0], s[0]] else [s[0]]) + Escape(s[1..], mark)
  }

  /** `s.quote(mark)`: `s` between two marks, with every inner mark doubled. */
  function Quoted(s: string, mark: char): string {
    [mark] + Escape(s, mark) + [mark]
  }

  lemma {:induction false} EscapeConcat(a: string, b: string, mark: char)
    ensures Escape(a + b, mark) == Escape(a, mark) + Escape(b, mark)
  {
    if a == [] {
      assert a + b == b;
    } else {
      assert (a + b)[1..] == a[1..] + b;
      EscapeConcat(a[1..], b, mark);
    }
  }

  /** `String.quote`, appending character by character as the source does. */
  method Quote(s: string, mark: char) returns (quoted: string)
    ensures quoted == Quoted(s, mark)
  {
    quoted := [mark];
    for i := 0 to |s|
      invariant quoted == [mark] + Escape(s[..i], mark)
    {
      var character := s[i];
      assert s[..i + 1] == s[..i] + [character];
      EscapeConcat(s[..i], [character], mark);
      quoted := quoted + [character];
      if character == mark {
        quoted := quoted + [character];
      }
    }
    assert s[..|s|] == s;
    quoted := quoted + [mark];
  }

  lemma {:induction false} EscapeLength(s: string, mark: char)
    ensures |Escape(s, mark)| == |s| + Count(s, mark)
  {
    if s != [] {
      EscapeLength(s[1..], mark);
    }
  }

  /** The quoted text starts and ends with the mark and is one character longer per inner mark. */
  lemma {:induction false} QuotedShape(s: string, mark: char)
    ensures var q := Quoted(s, mark);
      |q| == |s| + 2 + Count(s, mark) && q[0] == mark && q[|q| - 1] == mark
  {
    EscapeLength(s, mark);
  }

  /**
   * Reads a quoted body back: every mark must be the first of an adjacent pair,
   * which stands for one mark. `None` when a lone mark remains.
   */
  function Unescape(t: string, mark: char): Option<string>
    decreases |t|
  {
    if t == [] then Some([])
    else if t[0] != mark then
      match Unescape(t[1..], mark)
      case Some(rest) => Some([t[0]] + rest)
      case None => None
    else if |t| >= 2 && t[1] == mark then
      match Unescape(t[2..], mark)
      case Some(rest) => Some([mark] + rest)
      case None => None
    else None
  }

  /** Strips the outer marks and collapses each doubled mark to one. */
  function Unquote(q: string, mark: char): Option<string> {
    if |q| >= 2 && q[0] == mark && q[|q| - 1] == mark then Unescape(q[1..|q| - 1], mark) else None
  }

  lemma {:induction false} UnescapeEscape(s: string, mark: char)
    ensures Unescape(Escape(s, mark), mark) == Some(s)
  {
    if s != [] {
      UnescapeEscape(s[1..], mark);
      var t := Escape(s, mark);
      if s[0] == mark {
        assert t[2..] == Escape(s[1..], mark);
      } else {
        assert t[1..] == Escape(s[1..], mark);
      }
      assert s == [s[0]] + s[1..];
    }
  }

  lemma {:induction false} EscapeUnescape(t: string, mark: char, s: string)
    requires Unescape(t, mark) == Some(s)
    ensures Escape(s, mark) == t
    decreases |t|
  {
    if t != [] {
      if t[0] != mark {
        var rest := Unescape(t[1..], mark).value;
        EscapeUnescape(t[1..], mark, rest);
        assert s == [t[0]] + rest;
        assert s[1..] == rest;
        assert t == [t[0]] + t[1..];
      } else {
        var rest := Unescape(t[2..], mark).value;
        EscapeUnescape(t[2..], mark, rest);
        assert s == [mark] + rest;
        assert s[1..] == rest;
        assert t == [mark, mark] + t[2..];
      }
    }
  }

  /** Quoting is undone exactly by `Unquote`, for every string, delimiters included. */
  lemma QuoteRoundTrip(s: string, mark: char)
    ensures Unquote(Quoted(s, mark), mark) == Some(s)
  {
    var q := Quoted(s, mark);
    assert q[1..|q| - 1] == Escape(s, mark);
    UnescapeEscape(s, mark);
  }

  /** Every text `Unquote` accepts is the quoting of what it returns. */
  lemma UnquoteQuoted(q: string, mark: char, s: string)
    requires Unquote(q, mark) == Some(s)
    ensures q == Quoted(s, mark)
  {
    EscapeUnescape(q[1..|q| - 1], mark, s);
    assert q == [mark] + q[1..|q| - 1] + [mark];
  }

  /**
   * Swift's `String` iterates extended grapheme clusters, not scalars. A text
   * here is the sequence of its clusters, each a non-empty run of scalars.
   */
  function Scalars(clusters: seq<string>): string {
    if clusters == [] then [] else clusters[0] + Scalars(clusters[1..])
  }

  /**
   * The loop of `quote` as Swift runs it, for a mark that no other cluster is
   * canonically equivalent to, such as `"` and `'`: a cluster is doubled only
   * when it is the mark alone. Swift compares `Character`s by canonical
   * equivalence, so for a mark such as the backtick, which U+1FEF decomposes
   * to, Swift doubles more clusters than this does.
   */
  function ClusterEscape(clusters: seq<string>, mark: char): string {
    if clusters == [] then []
    else
      var c := clusters[0];
      (if c == [mark] then c + c else c) + ClusterEscape(clusters[1..], mark)
  }

  function ClusterQuoted(clusters: seq<string>, mark: char): string {
    [mark] + ClusterEscape(clusters, mark) + [mark]
  }

  /**
   * A quote followed by a combining acute accent is one cluster, so the
   * cluster-level loop leaves its quote single: the result is not what
   * per-scalar quoting gives, and `Unquote` rejects it.
   */
  lemma ClusterQuoteBreaksRoundTrip()
    ensures var clusters := ["'\U{0301}"];
      ClusterQuoted(clusters, '\'') != Quoted(Scalars(clusters), '\'') &&
      Unquote(ClusterQuoted(clusters, '\''), '\'') == None
  {
    var clusters := ["'\U{0301}"];
    assert Scalars(clusters) == clusters[0] + Scalars([]);
    assert ClusterEscape(clusters, '\'') == clusters[0] + ClusterEscape([], '\'');
    var q := ClusterQuoted(clusters, '\'');
    assert q == ['\'', '\'', '\U{0301}', '\''];
    assert q[1..|q| - 1] == ['\'', '\U{0301}'];
  }

  lemma {:induction false} EscapeAbsent(s: string, mark: char)
    requires mark !in s
    ensures Escape(s, mark) == s
  {
    if s != [] {
      EscapeAbsent(s[1..], mark);
    }
  }

  /** Every cluster holding the mark is the mark alone. */
  predicate MarksStandAlone(clusters: seq<string>, mark: char) {
    forall i :: 0 <= i < |clusters| ==> clusters[i] == [mark] || mark !in clusters[i]
  }

  /**
   * The cluster-level loop and per-scalar quoting agree exactly when no
   * cluster carries the mark together with other scalars (for marks with no
   * canonical equivalent, the only ones `ClusterEscape` follows Swift for).
   */
  lemma ClusterQuotedAgrees(clusters: seq<string>, mark: char)
    ensures ClusterQuoted(clusters, mark) == Quoted(Scalars(clusters), mark) <==> MarksStandAlone(clusters, mark)
  {
    if MarksStandAlone(clusters, mark) {
      ClusterEscapeAgrees(clusters, mark);
    }
    var q := ClusterQuoted(clusters, mark);
    if q == Quoted(Scalars(clusters), mark) {
      assert q[1..|q| - 1] == ClusterEscape(clusters, mark);
      assert Quoted(Scalars(clusters), mark)[1..|q| - 1] == Escape(Scalars(clusters), mark);
      EscapeCount(Scalars(clusters), mark);
      ClusterEscapeCount(clusters, mark);
    }
  }

  /** Per-scalar escaping holds two marks for every mark of its input. */
  lemma {:induction false} EscapeCount(s: string, mark: char)
    ensures Count(Escape(s, mark), mark) == 2 * Count(s, mark)
  {
    if s != [] {
      EscapeCount(s[1..], mark);
      var head := if s[0] == mark then [s[0], s[0]] else [s[0]];
      CountConcat(head, Escape(s[1..], mark), mark);
    }
  }

  /**
   * Cluster-level escaping holds at most two marks per mark of its input, and
   * exactly two only when every mark stands alone in its cluster.
   */
  lemma {:induction false} ClusterEscapeCount(clusters: seq<string>, mark: char)
    ensures Count(ClusterEscape(clusters, mark), mark) <= 2 * Count(Scalars(clusters), mark)
    ensures Count(ClusterEscape(clusters, mark), mark) == 2 * Count(Scalars(clusters), mark) ==>
      MarksStandAlone(clusters, mark)
  {
    if clusters != [] {
      var c := clusters[0];
      var rest := clusters[1..];
      ClusterEscapeCount(rest, mark);
      var escaped := if c == [mark] then c + c else c;
      CountConcat(escaped, ClusterEscape(rest, mark), mark);
      CountConcat(c, Scalars(rest), mark);
      if c == [mark] {
        CountConcat(c, c, mark);
      }
      if Count(ClusterEscape(clusters, mark), mark) == 2 * Count(Scalars(clusters), mark) {
        if c != [mark] && mark in c {
          CountPresent(c, mark);
        }
        forall i | 0 <= i < |clusters|
          ensures clusters[i] == [mark] || mark !in clusters[i]
        {
          if i > 0 {
            assert clusters[i] == rest[i - 1];
          }
        }
      }
    }
  }

  lemma {:induction false} ClusterEscapeAgrees(clusters: seq<string>, mark: char)
    requires MarksStandAlone(clusters, mark)
    ensures ClusterEscape(clusters, mark) == Escape(Scalars(clusters), mark)
  {
    if clusters != [] {
      var c := clusters[0];
      var rest := clusters[1..];
      assert MarksStandAlone(rest, mark) by {
        forall i | 0 <= i < |rest| ensures rest[i] == [mark] || mark !in rest[i] {
          assert rest[i] == clusters[i + 1];
        }
      }
      ClusterEscapeAgrees(rest, mark);
      EscapeConcat(c, Scalars(rest), mark);
      if c == [mark] {
        assert Escape(c, mark) == [mark, mark] + Escape([], mark);
      } else {
        EscapeAbsent(c, mark);
      }
    }
  }

  // ---------------------------------------------------------------------------
  // Joining

  /** All operands' bindings, concatenated in operand order. */
  function Flatten(es: seq<Expression>): seq<Option<Binding>> {
    if es == [] then [] else es[0].bindings + Flatten(es[1..])
  }

  function Templates(es: seq<Expression>): seq<string> {
    seq(|es|, i requires 0 <= i < |es| => es[i].template)
  }

  /** `separator.join(expressions)`. */
  function JoinOf(separator: string, es: seq<Expression>): (r: Expression)
    ensures |es| == 0 ==> r == Expression("", [])
    ensures |es| == 1 ==> r == es[0]
    ensures |es| == 2 ==>
      (r.template == es[0].template + separator + es[1].template &&
       r.bindings == es[0].bindings + es[1].bindings)
  {
    var r := Expression(Joined(Templates(es), separator), Flatten(es));
    assert |es| == 1 ==> r.template == es[0].template && Flatten(es[1..]) == [];
    assert |es| == 2 ==>
      Templates(es)[1..] == [es[1].template] && Joined(Templates(es)[1..], separator) == es[1].template &&
      Flatten(es[1..][1..]) == [];
    r
  }

  lemma {:induction false} FlattenConcat(a: seq<Expression>, b: seq<Expression>)
    ensures Flatten(a + b) == Flatten(a) + Flatten(b)
  {
    if a == [] {
      assert a + b == b;
    } else {
      assert (a + b)[1..] == a[1..] + b;
      FlattenConcat(a[1..], b);
    }
  }

  /** `String.join`, accumulating templates and bindings operand by operand as the source does. */
  method Join(separator: string, expressions: seq<Expression>) returns (e: Expression)
    ensures e == JoinOf(separator, expressions)
  {
    var template: seq<string> := [];
    var bindings: seq<Option<Binding>> := [];
    for i := 0 to |expressions|
      invariant template == Templates(expressions[..i])
      invariant bindings == Flatten(expressions[..i])
    {
      var expression := expressions[i];
      assert expressions[..i + 1] == expressions[..i] + [expression];
      FlattenConcat(expressions[..i], [expression]);
      template := template + [expression.template];
      bindings := bindings + expression.bindings;
    }
    assert expressions[..|expressions|] == expressions;
    e := Expression(Joined(template, separator), bindings);
  }

  /**
   * Each operand's bindings appear in the join unchanged, as one contiguous run
   * that starts after the bindings of all earlier operands.
   */
  lemma JoinKeepsOperandBindings(separator: string, es: seq<Expression>, i: nat)
    requires i < |es|
    ensures var start := |Flatten(es[..i])|;
      var r := JoinOf(separator, es).bindings;
      start + |es[i].bindings| <= |r| && r[start..start + |es[i].bindings|] == es[i].bindings
  {
    assert es == es[..i] + [es[i]] + es[i + 1..];
    FlattenConcat(es[..i] + [es[i]], es[i + 1..]);
    FlattenConcat(es[..i], [es[i]]);
    assert Flatten([es[i]]) == es[i].bindings;
  }

  /** Joining a concatenation of operand lists concatenates their bindings. */
  lemma JoinBindingsConcat(separator: string, a: seq<Expression>, b: seq<Expression>)
    ensures JoinOf(separator, a + b).bindings == JoinOf(separator, a).bindings + JoinOf(separator, b).bindings
  {
    FlattenConcat(a, b);
  }

  /** A separator without `?` keeps the placeholder invariant through `join`. */
  lemma {:induction false} JoinPreservesPlaceholders(separator: string, es: seq<Expression>)
    requires '?' !in separator
    requires AllWellFormed(es)
    ensures WellFormed(JoinOf(separator, es))
  {
    if |es| == 1 {
      assert WellFormed(es[0]);
    } else if |es| >= 2 {
      var rest := es[1..];
      assert AllWellFormed(rest) by {
        forall i | 0 <= i < |rest| ensures WellFormed(rest[i]) {
          assert rest[i] == es[i + 1];
        }
      }
      JoinPreservesPlaceholders(separator, rest);
      assert Templates(es)[1..] == Templates(rest);
      var head := es[0].template;
      var tail := JoinOf(separator, rest).template;
      assert JoinOf(separator, es).template == head + separator + tail;
      assert JoinOf(separator, es).bindings == es[0].bindings + JoinOf(separator, rest).bindings;
      assert WellFormed(es[0]);
      CountConcat(head + separator, tail, '?');
      CountConcat(head, separator, '?');
      CountAbsent(separator, '?');
    }
  }

  // ---------------------------------------------------------------------------
  // Operators and function calls

  /** `name.wrap(expression)`: the function-call form `name(template)`. */
  function Wrap(name: string, e: Expression): (r: Expression)
    ensures r.template == name + "(" + e.template + ")"
    ensures r.bindings == e.bindings
  {
    Expression(name + "(" + e.template + ")", e.bindings)
  }

  /** `name.wrap(expressions)`: the arguments joined by `", "`, then wrapped. */
  function WrapAll(name: string, es: seq<Expression>): (r: Expression)
    ensures r.template == name + "(" + JoinOf(", ", es).template + ")"
    ensures r.bindings == Flatten(es)
    ensures |es| == 0 ==> r.template == name + "()"
    ensures |es| == 1 ==> r == Wrap(name, es[0])
    ensures |es| == 2 ==> r.template == name + "(" + es[0].template + ", " + es[1].template + ")"
  {
    Wrap(name, JoinOf(", ", es))
  }

  /** A name without `?` keeps the placeholder invariant through `wrap`. */
  lemma WrapPreservesPlaceholders(name: string, e: Expression)
    requires '?' !in name
    requires WellFormed(e)
    ensures var r := Wrap(name, e);
      WellFormed(r) && r.bindings == e.bindings && r.template == name + "(" + e.template + ")"
  {
    CountConcat(name + "(" + e.template, ")", '?');
    CountConcat(name + "(", e.template, '?');
    CountConcat(name, "(", '?');
    CountAbsent(name, '?');
  }

  lemma WrapAllPreservesPlaceholders(name: string, es: seq<Expression>)
    requires '?' !in name
    requires AllWellFormed(es)
    ensures WellFormed(WrapAll(name, es))
  {
    JoinPreservesPlaceholders(", ", es);
    WrapPreservesPlaceholders(name, JoinOf(", ", es));
  }

  /** `op.prefix(expression)`: `op (template)`. */
  function Prefix(op: string, e: Expression): (r: Expression)
    ensures r.template == op + " (" + e.template + ")"
    ensures r.bindings == e.bindings
  {
    Wrap(op + " ", e)
  }

  /** `op.prefix(expressions)`: the operands joined by `", "`, then prefixed. */
  function PrefixAll(op: string, es: seq<Expression>): (r: Expression)
    ensures r.template == op + " (" + JoinOf(", ", es).template + ")"
    ensures r.bindings == Flatten(es)
    ensures |es| == 1 ==> r == Prefix(op, es[0])
    ensures |es| == 2 ==> r.template == op + " (" + es[0].template + ", " + es[1].template + ")"
  {
    WrapAll(op + " ", es)
  }

  lemma PrefixPreservesPlaceholders(op: string, es: seq<Expression>)
    requires '?' !in op
    requires AllWellFormed(es)
    ensures WellFormed(PrefixAll(op, es))
    ensures |es| == 1 ==> WellFormed(Prefix(op, es[0]))
  {
    assert '?' !in op + " ";
    WrapAllPreservesPlaceholders(op + " ", es);
  }

  /** `op.infix(terms, wrap:)`: the terms joined by ` op `, parenthesised when `wrap`. */
  function InfixAll(op: string, terms: seq<Expression>, wrap: bool): (r: Expression)
    ensures var j := JoinOf(" " + op + " ", terms).template;
      r.template == if wrap then "(" + j + ")" else j
    ensures r.bindings == Flatten(terms)
    ensures |terms| == 1 ==> r.template == if wrap then "(" + terms[0].template + ")" else terms[0].template
    ensures |terms| == 2 ==>
      var j := terms[0].template + " " + op + " " + terms[1].template;
      r.template == if wrap then "(" + j + ")" else j
  {
    var expression := JoinOf(" " + op + " ", terms);
    if wrap then
      var wrapped := Wrap("", expression);
      assert wrapped.template == "(" + expression.template + ")";
      wrapped
    else expression
  }

  /** `op.infix(lhs, rhs, wrap:)`: `lhs op rhs`, parenthesised when `wrap`. */
  function Infix(op: string, lhs: Expression, rhs: Expression, wrap: bool): (r: Expression)
    ensures r.template == if wrap then "(" + lhs.template + " " + op + " " + rhs.template + ")"
                          else lhs.template + " " + op + " " + rhs.template
    ensures r.bindings == lhs.bindings + rhs.bindings
  {
    InfixAll(op, [lhs, rhs], wrap)
  }

  lemma InfixPreservesPlaceholders(op: string, terms: seq<Expression>, wrap: bool)
    requires '?' !in op
    requires AllWellFormed(terms)
    ensures WellFormed(InfixAll(op, terms, wrap))
  {
    assert '?' !in " " + op + " ";
    JoinPreservesPlaceholders(" " + op + " ", terms);
    if wrap {
      WrapPreservesPlaceholders("", JoinOf(" " + op + " ", terms));
    }
  }

  // ---------------------------------------------------------------------------
  // Names taken from the call site

  /** `callSite.components(separatedBy: "(")[0]`: the text before the first `(`. */
  function CallSiteName(callSite: string): (name: string)
    ensures name <= callSite
    ensures '(' !in name
    ensures |name| < |callSite| ==> callSite[|name|] == '('
  {
    if callSite == [] || callSite[0] == '(' then []
    else [callSite[0]] + CallSiteName(callSite[1..])
  }

  /** A call-site name such as `and(_:_:)` yields the bare name before its argument labels. */
  lemma {:induction false} CallSiteNameOf(name: string, labels: string)
    requires '(' !in name
    ensures CallSiteName(name + "(" + labels) == name
  {
    var callSite := name + "(" + labels;
    if name != [] {
      assert callSite[0] == name[0] && callSite[1..] == name[1..] + "(" + labels;
      assert '(' !in name[1..];
      CallSiteNameOf(name[1..], labels);
      assert name == [name[0]] + name[1..];
    }
  }

  /** A call-site name without any `(`, such as a property's, is used whole. */
  lemma CallSiteNameWhole(callSite: string)
    requires '(' !in callSite
    ensures CallSiteName(callSite) == callSite
  {
  }

  /** The free `infix`: the operator is the calling function's name. */
  function CallSiteInfix(lhs: Expression, rhs: Expression, wrap: bool, callSite: string): (r: Expression)
    ensures r.bindings == lhs.bindings + rhs.bindings
    ensures forall name, labels :: '(' !in name && callSite == name + "(" + labels ==>
      r == Infix(name, lhs, rhs, wrap)
    ensures '(' !in callSite ==> r == Infix(callSite, lhs, rhs, wrap)
  {
    CallSiteNameAll(callSite);
    Infix(CallSiteName(callSite), lhs, rhs, wrap)
  }

  /** The free `wrap` of one argument: the function name is the calling function's name. */
  function CallSiteWrap(e: Expression, callSite: string): (r: Expression)
    ensures r.bindings == e.bindings
    ensures forall name, labels :: '(' !in name && callSite == name + "(" + labels ==>
      r == Wrap(name, e)
    ensures '(' !in callSite ==> r == Wrap(callSite, e)
  {
    CallSiteNameAll(callSite);
    Wrap(CallSiteName(callSite), e)
  }

  /** The free `wrap` of several arguments, joined by `", "`. */
  function CallSiteWrapAll(es: seq<Expression>, callSite: string): (r: Expression)
    ensures r.bindings == Flatten(es)
    ensures forall name, labels :: '(' !in name && callSite == name + "(" + labels ==>
      r == WrapAll(name, es)
    ensures '(' !in callSite ==> r == WrapAll(callSite, es)
  {
    CallSiteNameAll(callSite);
    Wrap(CallSiteName(callSite), JoinOf(", ", es))
  }

  lemma CallSiteNameAll(callSite: string)
    ensures forall name, labels :: '(' !in name && callSite == name + "(" + labels ==>
      CallSiteName(callSite) == name
    ensures '(' !in callSite ==> CallSiteName(callSite) == callSite
  {
    if '(' !in callSite {
      CallSiteNameWhole(callSite);
    }
    forall name, labels | '(' !in name && callSite == name + "(" + labels
      ensures CallSiteName(callSite) == name
    {
      CallSiteNameOf(name, labels);
    }
  }

  // ---------------------------------------------------------------------------
  // Inline literals

  /**
   * `transcode`: a binding as inline SQL literal text. `blobDescription` and
   * `description` stand for Swift's `Blob.description` and the default
   * description of other values, which the model does not define.
   */
  function Transcode(literal: Option<Binding>, blobDescription: seq<bv8> -> string,
                     description: Binding -> string): (r: string)
    ensures literal.None? ==> r == "NULL"
    ensures literal.Some? && literal.value.Text? ==>
      r != "NULL" && Unquote(r, '\'') == Some(literal.value.text)
    ensures literal.Some? && literal.value.Blob? ==> r == blobDescription(literal.value.bytes)
    ensures literal.Some? && (literal.value.Integer? || literal.value.Real?) ==> r == description(literal.value)
  {
    match literal
    case None => "NULL"
    case Some(Blob(bytes)) => blobDescription(bytes)
    case Some(Text(s)) =>
      QuoteRoundTrip(s, '\'');
      assert Quoted(s, '\'')[0] == '\'';
      Quoted(s, '\'')
    case Some(binding) => description(binding)
  }
}
