/**
 * Wrappers for SQLite's five date and time SQL functions ("Date And Time
 * Functions" of the SQLite SQL language reference). The time string, the
 * strftime format and every modifier are bound as parameters, never written
 * into the template.
 */
module DateAndTimeFunctions {
  import opened Wrappers
  import opened Storage
  import opened Strings
  import opened Helpers

  /** `[String](repeating: "?", count: n).joined(separator: ", ")`. */
  function Placeholders(n: nat): string {
    Joined(Repeat("?", n), ", ")
  }

  /** Strings bound as TEXT parameters, in order. */
  function Texts(values: seq<string>): seq<Option<Binding>> {
    seq(|values|, i requires 0 <= i < |values| => Some(Text(values[i])))
  }

  lemma PlaceholdersStep(n: nat)
    requires n >= 1
    ensures Placeholders(n + 1) == "?, " + Placeholders(n)
  {
    assert Repeat("?", n + 1)[1..] == Repeat("?", n);
  }

  /** `n` placeholders hold `n` question marks and, for `n >= 1`, `3n - 2` characters. */
  lemma {:induction false} PlaceholdersShape(n: nat)
    ensures Count(Placeholders(n), '?') == n
    ensures n >= 1 ==> |Placeholders(n)| == 3 * n - 2
  {
    if n == 1 {
      assert Placeholders(1) == "?";
    } else if n > 1 {
      PlaceholdersStep(n - 1);
      PlaceholdersShape(n - 1);
      CountConcat("?, ", Placeholders(n - 1), '?');
    }
  }

  /**
   * The private `timefunction`: `name(?)` without modifiers, `name(?, ?, …)`
   * with one more placeholder per modifier; either way one placeholder per
   * argument, the time string bound first and the modifiers after it in order.
   */
  function TimeFunction(name: string, timestring: string, modifiers: seq<string>): (e: Expression)
    ensures e.template == name + "(" + Placeholders(1 + |modifiers|) + ")"
    ensures e.bindings == Texts([timestring] + modifiers)
  {
    if |modifiers| != 0 then
      var templates := Placeholders(|modifiers|);
      PlaceholdersStep(|modifiers|);
      Expression(name + "(?, " + templates + ")", Texts([timestring] + modifiers))
    else
      assert Placeholders(1) == "?";
      Expression(name + "(?)", Texts([timestring]))
  }

  /**
   * A time function's template keeps the placeholder invariant, and its text
   * depends only on the function name and the number of modifiers: the
   * argument strings never reach it.
   */
  lemma TimeFunctionShape(name: string, timestring: string, modifiers: seq<string>,
                          otherTimestring: string, otherModifiers: seq<string>)
    requires '?' !in name
    requires |otherModifiers| == |modifiers|
    ensures var e := TimeFunction(name, timestring, modifiers);
      && WellFormed(e)
      && |e.template| == |name| + 3 * |modifiers| + 3
      && e.template == TimeFunction(name, otherTimestring, otherModifiers).template
  {
    var p := Placeholders(1 + |modifiers|);
    PlaceholdersShape(1 + |modifiers|);
    CountConcat(name + "(" + p, ")", '?');
    CountConcat(name + "(", p, '?');
    CountConcat(name, "(", '?');
    CountAbsent(name, '?');
  }

  /**
   * `DateFunctions.strftime`: `strftime(?, ?)` without modifiers, one more
   * placeholder per modifier otherwise; the format is bound first, then the
   * time string, then the modifiers in order.
   */
  function Strftime(format: string, timestring: string, modifiers: seq<string>): (e: Expression)
    ensures e.template == "strftime(" + Placeholders(2 + |modifiers|) + ")"
    ensures e.bindings == Texts([format, timestring] + modifiers)
  {
    if |modifiers| != 0 then
      var templates := Placeholders(|modifiers|);
      PlaceholdersStep(|modifiers|);
      PlaceholdersStep(|modifiers| + 1);
      Expression("strftime(?, ?, " + templates + ")", Texts([format, timestring] + modifiers))
    else
      assert Placeholders(1) == "?";
      PlaceholdersStep(1);
      Expression("strftime(?, ?)", Texts([format, timestring]))
  }

  /** `strftime` keeps the placeholder invariant and never inlines its arguments. */
  lemma StrftimeShape(format: string, timestring: string, modifiers: seq<string>,
                      otherFormat: string, otherTimestring: string, otherModifiers: seq<string>)
    requires |otherModifiers| == |modifiers|
    ensures var e := Strftime(format, timestring, modifiers);
      && WellFormed(e)
      && |e.template| == 3 * |modifiers| + 14
      && e.template == Strftime(otherFormat, otherTimestring, otherModifiers).template
  {
    var p := Placeholders(2 + |modifiers|);
    PlaceholdersShape(2 + |modifiers|);
    CountConcat("strftime(" + p, ")", '?');
    CountConcat("strftime(", p, '?');
  }

  /** `DateFunctions.date`. */
  function Date(timestring: string, modifiers: seq<string>): (e: Expression)
    ensures e.template == "date(" + Placeholders(1 + |modifiers|) + ")"
    ensures e.bindings == Texts([timestring] + modifiers)
  {
    TimeFunction("date", timestring, modifiers)
  }

  /** `DateFunctions.time`. */
  function Time(timestring: string, modifiers: seq<string>): (e: Expression)
    ensures e.template == "time(" + Placeholders(1 + |modifiers|) + ")"
    ensures e.bindings == Texts([timestring] + modifiers)
  {
    TimeFunction("time", timestring, modifiers)
  }

  /** `DateFunctions.datetime`. */
  function Datetime(timestring: string, modifiers: seq<string>): (e: Expression)
    ensures e.template == "datetime(" + Placeholders(1 + |modifiers|) + ")"
    ensures e.bindings == Texts([timestring] + modifiers)
  {
    TimeFunction("datetime", timestring, modifiers)
  }

  /** `DateFunctions.julianday`. */
  function Julianday(timestring: string, modifiers: seq<string>): (e: Expression)
    ensures e.template == "julianday(" + Placeholders(1 + |modifiers|) + ")"
    ensures e.bindings == Texts([timestring] + modifiers)
  {
    TimeFunction("julianday", timestring, modifiers)
  }

  /** `date("now")`: one placeholder, bound to the text `now`. */
  lemma DateNowExample()
    ensures Date("now", []) == Expression("date(?)", [Some(Text("now"))])
  {
  }

  // ---------------------------------------------------------------------------
  // Functions of an expression that holds a date (seconds since the Unix epoch)

  /**
   * `name(template, 'unixepoch')`: the same as calling `name` on the expression
   * and the inline literal modifier `'unixepoch'`, so the bindings pass through
   * unchanged and the placeholder invariant is kept.
   */
  function UnixEpoch(name: string, e: Expression): (r: Expression)
    ensures r == WrapAll(name, [e, Expression("'unixepoch'", [])])
    ensures r.bindings == e.bindings
  {
    Expression(name + "(" + e.template + ", 'unixepoch')", e.bindings)
  }

  lemma UnixEpochPreservesPlaceholders(name: string, e: Expression)
    ensures '?' !in name && WellFormed(e) ==> WellFormed(UnixEpoch(name, e))
  {
    if '?' !in name && WellFormed(e) {
      var head, tail := name + "(", ", 'unixepoch')";
      assert UnixEpoch(name, e).template == head + e.template + tail;
      assert '?' !in head && '?' !in tail;
      CountAbsent(head, '?');
      CountAbsent(tail, '?');
      CountConcat(head, e.template, '?');
      CountConcat(head + e.template, tail, '?');
    }
  }

  /** `Expression<Date>.date`. */
  function ExpressionDate(e: Expression): (r: Expression)
    ensures r.template == "date(" + e.template + ", 'unixepoch')" && r.bindings == e.bindings
    ensures WellFormed(e) ==> WellFormed(r)
  {
    UnixEpochPreservesPlaceholders("date", e);
    UnixEpoch("date", e)
  }

  /** `Expression<Date>.time`. */
  function ExpressionTime(e: Expression): (r: Expression)
    ensures r.template == "time(" + e.template + ", 'unixepoch')" && r.bindings == e.bindings
    ensures WellFormed(e) ==> WellFormed(r)
  {
    UnixEpochPreservesPlaceholders("time", e);
    UnixEpoch("time", e)
  }

  /** `Expression<Date>.datetime`. */
  function ExpressionDatetime(e: Expression): (r: Expression)
    ensures r.template == "datetime(" + e.template + ", 'unixepoch')" && r.bindings == e.bindings
    ensures WellFormed(e) ==> WellFormed(r)
  {
    UnixEpochPreservesPlaceholders("datetime", e);
    UnixEpoch("datetime", e)
  }

  /** `Expression<Date>.julianday`. */
  function ExpressionJulianday(e: Expression): (r: Expression)
    ensures r.template == "julianday(" + e.template + ", 'unixepoch')" && r.bindings == e.bindings
    ensures WellFormed(e) ==> WellFormed(r)
  {
    UnixEpochPreservesPlaceholders("julianday", e);
    UnixEpoch("julianday", e)
  }
}
