/** The shape of the lines of printed JSON: none starts with a backtick, and none ends with
    a backtick, a blank or a 'd'. This is what makes a fence around it safe. */
module JsonLines {
  import opened Sequences
  import opened Json

  /** Where `^` and `$` match with the `m` flag. */
  predicate LineEnd(c: char) {
    c == '\n' || c == '\r' || c == '\U{2028}' || c == '\U{2029}'
  }

  /** What ends a line of JSON text; its strings hold no such character as it is. */
  predicate LineBreak(c: char) {
    c == '\n' || c == '\r'
  }

  /** Blank within a line: `[ \t]`. */
  predicate Gap(c: char) {
    c == ' ' || c == '\t'
  }

  /** Where reading a text has got to: only blanks on this line yet, further in (and
      whether the line may end here), or the shape is broken. */
  datatype Place = AtStart | Within(mayEnd: bool) | Broken

  /** A line may end after this character: neither a fence nor its tag can. */
  predicate Ends(c: char) {
    !Gap(c) && c != '`' && c != 'd'
  }

  function Next(p: Place, c: char): Place {
    match p
    case Broken => Broken
    case AtStart =>
      if Gap(c) then AtStart else if c == '`' || LineBreak(c) then Broken else Within(Ends(c))
    case Within(mayEnd) =>
      if c == '\n' then (if mayEnd then AtStart else Broken)
      else if LineBreak(c) then Broken
      else Within(Ends(c))
  }

  function Trace(p: Place, s: string): Place
    decreases |s|
  {
    if s == "" then p else Trace(Next(p, s[0]), s[1..])
  }

  /** No line of the text can be taken for a fence. */
  predicate SafeLines(s: string) {
    Trace(AtStart, s) == Within(true)
  }

  lemma {:induction false} TraceAppend(p: Place, a: string, b: string)
    ensures Trace(p, a + b) == Trace(Trace(p, a), b)
    decreases |a|
  {
    if a == "" {
      assert a + b == b;
    } else {
      TraceAppend(Next(p, a[0]), a[1..], b);
      FirstAndRest(a, b);
      DropFirst(a[0], a[1..] + b);
    }
  }

  lemma {:induction false} TraceOne(p: Place, c: char)
    ensures Trace(p, [c]) == Next(p, c)
  {
    assert [c][1..] == "";
  }

  lemma {:induction false} TraceTwo(p: Place, c: char, d: char)
    ensures Trace(p, [c, d]) == Next(Next(p, c), d)
  {
    assert [c, d][1..] == [d];
    TraceOne(Next(p, c), d);
  }

  lemma {:induction false} TraceBroken(s: string)
    ensures Trace(Broken, s) == Broken
  {
    if s != "" {
      TraceBroken(s[1..]);
    }
  }

  lemma {:induction false} TraceSpaces(s: string)
    requires Spaces(s)
    ensures Trace(AtStart, s) == AtStart
  {
    if s != "" {
      TraceSpaces(s[1..]);
    }
  }

  // ---------------------------------------------------------- printed JSON

  /** Text with no line break in it leaves a line open. */
  lemma {:induction false} TraceInLine(mayEnd: bool, s: string)
    requires forall i :: 0 <= i < |s| ==> !LineBreak(s[i])
    ensures Trace(Within(mayEnd), s).Within?
    ensures s != "" && Ends(s[|s| - 1]) ==> Trace(Within(mayEnd), s) == Within(true)
    decreases |s|
  {
    if s != "" {
      TraceInLine(Ends(s[0]), s[1..]);
    }
  }

  lemma {:induction false} EscapeHasNoLineBreak(s: string)
    ensures forall i :: 0 <= i < |Escape(s)| ==> !LineBreak(Escape(s)[i])
  {
    if s != "" {
      EscapeHasNoLineBreak(s[1..]);
      EscapeCharHasNoLineBreak(s[0]);
    }
  }

  lemma {:induction false} EscapeCharHasNoLineBreak(c: char)
    ensures forall i :: 0 <= i < |EscapeChar(c)| ==> !LineBreak(EscapeChar(c)[i])
  {
  }

  lemma {:induction false} TraceQuote(p: Place, s: string)
    requires !p.Broken?
    ensures Trace(p, Quote(s)) == Within(true)
  {
    TraceAppend(p, "\"", Escape(s) + "\"");
    TraceOne(p, '"');
    EscapeHasNoLineBreak(s);
    TraceInLine(true, Escape(s));
    TraceAppend(Within(true), Escape(s), "\"");
    TraceOne(Trace(Within(true), Escape(s)), '"');
  }

  /** A word on a line: a first character that is no backtick, and an end that is fine. */
  lemma {:induction false} TraceWord(p: Place, s: string)
    requires !p.Broken? && s != "" && forall i :: 0 <= i < |s| ==> !LineBreak(s[i]) && Ends(s[i])
    ensures Trace(p, s) == Within(true)
  {
    if |s| > 1 {
      TraceInLine(true, s[1..]);
    }
  }

  lemma {:induction false} TraceNumber(p: Place, text: string)
    requires !p.Broken? && IsNumber(text)
    ensures Trace(p, text) == Within(true)
  {
    forall i | 0 <= i < |text| ensures !LineBreak(text[i]) && Ends(text[i]) {
      assert NumberChar(text[i]);
    }
    TraceWord(p, text);
  }

  lemma {:induction false} TracePrint(p: Place, v: Json, indent: string)
    requires !p.Broken? && WellFormed(v) && Spaces(indent)
    ensures Trace(p, Print(v, indent)) == Within(true)
    decreases v, 1
  {
    match v
    case Null => TraceWord(p, "null");
    case Bool(b) => TraceWord(p, if b then "true" else "false");
    case Number(text) => TraceNumber(p, text);
    case Str(s) => TraceQuote(p, s);
    case Arr(items) =>
      if items.NoItems? {
        TraceWord(p, "[]");
      } else {
        SpacesAreBlanks(indent);
        TraceItems(items, indent + "  ");
        TraceBrackets(p, '[', PrintItems(items, indent + "  "), indent, ']');
      }
    case Obj(fields) =>
      if fields.NoFields? {
        TraceWord(p, "{}");
      } else {
        SpacesAreBlanks(indent);
        TraceFields(fields, indent + "  ");
        TraceBrackets(p, '{', PrintFields(fields, indent + "  "), indent, '}');
      }
  }

  lemma {:induction false} TraceBrackets(p: Place, open: char, body: string, indent: string, close: char)
    requires !p.Broken? && (open == '[' || open == '{') && (close == ']' || close == '}') && Spaces(indent)
    requires Trace(AtStart, body) == Within(true)
    ensures Trace(p, [open, '\n'] + (body + ("\n" + (indent + [close])))) == Within(true)
  {
    TraceAppend(p, [open, '\n'], body + ("\n" + (indent + [close])));
    TraceTwo(p, open, '\n');
    TraceAppend(AtStart, body, "\n" + (indent + [close]));
    TraceAppend(Within(true), "\n", indent + [close]);
    TraceOne(Within(true), '\n');
    TraceAppend(AtStart, indent, [close]);
    TraceSpaces(indent);
    TraceOne(AtStart, close);
  }

  lemma {:induction false} TraceItems(items: Items, indent: string)
    requires items.Item? && WellFormedItems(items) && Spaces(indent)
    ensures Trace(AtStart, PrintItems(items, indent)) == Within(true)
    decreases items, 2
  {
    var more := if items.rest.NoItems? then "" else ",\n" + PrintItems(items.rest, indent);
    TraceAppend(AtStart, indent, Print(items.first, indent) + more);
    TraceSpaces(indent);
    TraceAppend(AtStart, Print(items.first, indent), more);
    TracePrint(AtStart, items.first, indent);
    if items.rest.Item? {
      TraceAppend(Within(true), ",\n", PrintItems(items.rest, indent));
      TraceTwo(Within(true), ',', '\n');
      TraceItems(items.rest, indent);
    }
  }

  lemma {:induction false} TraceKey(key: string, indent: string, rest: string)
    requires Spaces(indent)
    ensures Trace(AtStart, indent + (Quote(key) + (": " + rest))) == Trace(Within(false), rest)
  {
    TraceAppend(AtStart, indent, Quote(key) + (": " + rest));
    TraceSpaces(indent);
    TraceAppend(AtStart, Quote(key), ": " + rest);
    TraceQuote(AtStart, key);
    TraceAppend(Within(true), ": ", rest);
    TraceTwo(Within(true), ':', ' ');
  }

  lemma {:induction false} TraceFields(fields: Fields, indent: string)
    requires fields.Field? && WellFormedFields(fields) && Spaces(indent)
    ensures Trace(AtStart, PrintFields(fields, indent)) == Within(true)
    decreases fields, 2
  {
    var more := if fields.others.NoFields? then "" else ",\n" + PrintFields(fields.others, indent);
    var value := Print(fields.value, indent);
    TraceKey(fields.key, indent, value + more);
    TraceAppend(Within(false), value, more);
    TracePrint(Within(false), fields.value, indent);
    if fields.others.Field? {
      TraceAppend(Within(true), ",\n", PrintFields(fields.others, indent));
      TraceTwo(Within(true), ',', '\n');
      TraceFields(fields.others, indent);
    }
  }

  /** Printed JSON has safe lines, whatever its strings hold. */
  lemma {:induction false} PrintedJsonIsSafe(v: Json)
    requires WellFormed(v)
    ensures SafeLines(Print(v, ""))
  {
    TracePrint(AtStart, v, "");
  }
}
