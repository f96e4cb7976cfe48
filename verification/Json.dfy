/** JSON: a printer laid out as `JSON.stringify(value, null, 2)` does (ECMA-262, section
    25.5.2), and a reader for RFC 8259 text that undoes it.

    A number is kept as the text it is written with. */
module Json {
  import opened Options
  import opened Sequences

  datatype Json =
    | Null
    | Bool(b: bool)
    | Number(text: string)
    | Str(s: string)
    | Arr(items: Items)
    | Obj(fields: Fields)

  datatype Items = NoItems | Item(first: Json, rest: Items)

  datatype Fields = NoFields | Field(key: string, value: Json, others: Fields)

  // ---------------------------------------------------------- printing

  function HexDigit(d: nat): char
    requires d < 16
  {
    if d < 10 then '0' + d as char else 'a' + (d - 10) as char
  }

  /** QuoteJSONString for one character. */
  function EscapeChar(c: char): string {
    if c == '"' then "\\\""
    else if c == '\\' then "\\\\"
    else if c == '\U{0008}' then "\\b"
    else if c == '\t' then "\\t"
    else if c == '\n' then "\\n"
    else if c == '\U{000C}' then "\\f"
    else if c == '\r' then "\\r"
    else if c < ' ' then ['\\', 'u', '0', '0', HexDigit(c as nat / 16), HexDigit(c as nat % 16)]
    else [c]
  }

  function Escape(s: string): string {
    if s == "" then "" else EscapeChar(s[0]) + Escape(s[1..])
  }

  function Quote(s: string): string {
    "\"" + (Escape(s) + "\"")
  }

  /** SerializeJSONProperty with a gap of two spaces, at an indentation. */
  function Print(v: Json, indent: string): string {
    match v
    case Null => "null"
    case Bool(b) => if b then "true" else "false"
    case Number(text) => text
    case Str(s) => Quote(s)
    case Arr(items) =>
      if items.NoItems? then "[]"
      else "[\n" + (PrintItems(items, indent + "  ") + ("\n" + (indent + "]")))
    case Obj(fields) =>
      if fields.NoFields? then "{}"
      else "{\n" + (PrintFields(fields, indent + "  ") + ("\n" + (indent + "}")))
  }

  function PrintItems(items: Items, indent: string): string {
    match items
    case NoItems => ""
    case Item(first, rest) =>
      indent + (Print(first, indent) + (if rest.NoItems? then "" else ",\n" + PrintItems(rest, indent)))
  }

  function PrintFields(fields: Fields, indent: string): string {
    match fields
    case NoFields => ""
    case Field(key, value, others) =>
      indent + (Quote(key) + (": " + (Print(value, indent)
      + (if others.NoFields? then "" else ",\n" + PrintFields(others, indent)))))
  }

  // ---------------------------------------------------------- reading

  predicate IsBlank(c: char) {
    c == ' ' || c == '\t' || c == '\n' || c == '\r'
  }

  function SkipBlanks(s: string): (r: string)
    ensures |r| <= |s|
  {
    if s != "" && IsBlank(s[0]) then SkipBlanks(s[1..]) else s
  }

  function HexValue(c: char): Option<nat> {
    if '0' <= c <= '9' then Some((c - '0') as nat)
    else if 'a' <= c <= 'f' then Some((c - 'a') as nat + 10)
    else if 'A' <= c <= 'F' then Some((c - 'A') as nat + 10)
    else None
  }

  /** The character a `\uXXXX` escape names, outside the surrogates. */
  function ReadHex(s: string): Option<char>
    requires |s| >= 4
  {
    match (HexValue(s[0]), HexValue(s[1]), HexValue(s[2]), HexValue(s[3]))
    case (Some(a), Some(b), Some(c), Some(d)) =>
      var code := ((a * 16 + b) * 16 + c) * 16 + d;
      if code < 0xD800 || 0xE000 <= code < 0x1_0000 then Some(code as char) else None
    case _ => None
  }

  /** One character of a string, after the opening quote: what it is and what follows. */
  function ReadChar(s: string): (r: Option<(char, string)>)
    requires s != ""
    ensures r.Some? ==> |r.value.1| < |s|
  {
    if s[0] < ' ' || s[0] == '"' then None
    else if s[0] != '\\' then Some((s[0], s[1..]))
    else if |s| < 2 then None
    else
      var c := s[1];
      if c == '"' || c == '\\' || c == '/' then Some((c, s[2..]))
      else if c == 'b' then Some(('\U{0008}', s[2..]))
      else if c == 'f' then Some(('\U{000C}', s[2..]))
      else if c == 'n' then Some(('\n', s[2..]))
      else if c == 'r' then Some(('\r', s[2..]))
      else if c == 't' then Some(('\t', s[2..]))
      else if c == 'u' && |s| >= 6 then
        match ReadHex(s[2..6]) {
          case None => None
          case Some(h) => Some((h, s[6..]))
        }
      else None
  }

  /** The rest of a string after its opening quote. */
  function ReadString(s: string): (r: Option<(string, string)>)
    ensures r.Some? ==> |r.value.1| < |s|
    decreases |s|
  {
    if s == "" then None
    else if s[0] == '"' then Some(("", s[1..]))
    else
      match ReadChar(s)
      case None => None
      case Some(one) =>
        match ReadString(one.1)
        case None => None
        case Some(more) => Some(([one.0] + more.0, more.1))
  }

  predicate NumberChar(c: char) {
    '0' <= c <= '9' || c in "+-.eE"
  }

  predicate AllDigits(s: string) {
    s != "" && forall i :: 0 <= i < |s| ==> '0' <= s[i] <= '9'
  }

  /** Splits at the first character that satisfies one of two tests. */
  function IndexOf(s: string, a: char, b: char): (n: nat)
    ensures n <= |s|
  {
    if s == "" || s[0] == a || s[0] == b then 0 else 1 + IndexOf(s[1..], a, b)
  }

  predicate Exponent(s: string) {
    s == "" || (|s| > 1 && (s[0] == 'e' || s[0] == 'E')
                && AllDigits(if s[1] == '+' || s[1] == '-' then s[2..] else s[1..]))
  }

  predicate Fraction(s: string) {
    s == "" || (s[0] == '.' && AllDigits(s[1..]))
  }

  /** The number grammar of RFC 8259, section 6. */
  predicate IsNumber(text: string) {
    var body := if text != "" && text[0] == '-' then text[1..] else text;
    var e := IndexOf(body, 'e', 'E');
    var mantissa := body[..e];
    var dot := IndexOf(mantissa, '.', '.');
    var integer := mantissa[..dot];
    && AllDigits(integer) && (integer[0] == '0' ==> |integer| == 1)
    && Fraction(mantissa[dot..]) && Exponent(body[e..])
    && text != "" && forall i :: 0 <= i < |text| ==> NumberChar(text[i])
  }

  /** The longest run of number characters, and what follows. */
  function TakeNumber(s: string): (r: (string, string))
    ensures |r.0| + |r.1| == |s|
  {
    if s == "" || !NumberChar(s[0]) then ("", s)
    else
      var more := TakeNumber(s[1..]);
      ([s[0]] + more.0, more.1)
  }

  function Literal(word: string, s: string, v: Json): Option<(Json, string)> {
    if word <= s then Some((v, s[|word|..])) else None
  }

  function ReadValue(s: string): (r: Option<(Json, string)>)
    ensures r.Some? ==> |r.value.1| < |s|
    decreases |s|, 0
  {
    var t := SkipBlanks(s);
    if t == "" then None
    else if t[0] == '"' then
      match ReadString(t[1..]) {
        case None => None
        case Some(r) => Some((Str(r.0), r.1))
      }
    else if t[0] == '[' then
      var u := SkipBlanks(t[1..]);
      if u != "" && u[0] == ']' then Some((Arr(NoItems), u[1..]))
      else
        match ReadItems(t[1..]) {
          case None => None
          case Some(r) => Some((Arr(r.0), r.1))
        }
    else if t[0] == '{' then
      var u := SkipBlanks(t[1..]);
      if u != "" && u[0] == '}' then Some((Obj(NoFields), u[1..]))
      else
        match ReadFields(t[1..]) {
          case None => None
          case Some(r) => Some((Obj(r.0), r.1))
        }
    else if t[0] == 'n' then Literal("null", t, Null)
    else if t[0] == 't' then Literal("true", t, Bool(true))
    else if t[0] == 'f' then Literal("false", t, Bool(false))
    else if IsNumber(TakeNumber(t).0) then Some((Number(TakeNumber(t).0), TakeNumber(t).1))
    else None
  }

  /** One or more values up to the closing bracket. */
  function ReadItems(s: string): (r: Option<(Items, string)>)
    ensures r.Some? ==> |r.value.1| < |s|
    decreases |s|, 1
  {
    match ReadValue(s)
    case None => None
    case Some(v) =>
      var t := SkipBlanks(v.1);
      if t != "" && t[0] == ']' then Some((Item(v.0, NoItems), t[1..]))
      else if t != "" && t[0] == ',' then
        match ReadItems(t[1..]) {
          case None => None
          case Some(more) => Some((Item(v.0, more.0), more.1))
        }
      else None
  }

  /** A key and the colon after it. */
  function ReadKey(s: string): (r: Option<(string, string)>)
    ensures r.Some? ==> |r.value.1| < |s|
  {
    var t := SkipBlanks(s);
    if t == "" || t[0] != '"' then None
    else
      match ReadString(t[1..])
      case None => None
      case Some(key) =>
        var u := SkipBlanks(key.1);
        if u != "" && u[0] == ':' then Some((key.0, u[1..])) else None
  }

  /** One or more fields up to the closing brace. */
  function ReadFields(s: string): (r: Option<(Fields, string)>)
    ensures r.Some? ==> |r.value.1| < |s|
    decreases |s|, 1
  {
    match ReadKey(s)
    case None => None
    case Some(key) =>
      match ReadValue(key.1)
      case None => None
      case Some(v) =>
        var t := SkipBlanks(v.1);
        if t != "" && t[0] == '}' then Some((Field(key.0, v.0, NoFields), t[1..]))
        else if t != "" && t[0] == ',' then
          match ReadFields(t[1..]) {
            case None => None
            case Some(more) => Some((Field(key.0, v.0, more.0), more.1))
          }
        else None
  }

  /** `JSON.parse`; `None` is its SyntaxError. */
  function Parse(text: string): Option<Json> {
    match ReadValue(text)
    case None => None
    case Some(r) => if SkipBlanks(r.1) == "" then Some(r.0) else None
  }

  // ---------------------------------------------------------- the round trip

  /** Every number in the value is written as RFC 8259 has it. */
  predicate WellFormed(v: Json) {
    match v
    case Number(text) => IsNumber(text)
    case Arr(items) => WellFormedItems(items)
    case Obj(fields) => WellFormedFields(fields)
    case _ => true
  }

  predicate WellFormedItems(items: Items) {
    items.Item? ==> WellFormed(items.first) && WellFormedItems(items.rest)
  }

  predicate WellFormedFields(fields: Fields) {
    fields.Field? ==> WellFormed(fields.value) && WellFormedFields(fields.others)
  }

  predicate Spaces(s: string) {
    forall i :: 0 <= i < |s| ==> s[i] == ' '
  }

  predicate Blanks(s: string) {
    forall i :: 0 <= i < |s| ==> IsBlank(s[i])
  }

  lemma {:induction false} SkipThem(blanks: string, rest: string)
    requires Blanks(blanks) && (rest != "" ==> !IsBlank(rest[0]))
    ensures SkipBlanks(blanks + rest) == rest
  {
    if blanks == "" {
      assert blanks + rest == rest;
    } else {
      SkipThem(blanks[1..], rest);
      assert (blanks + rest)[1..] == blanks[1..] + rest;
    }
  }

  lemma {:induction false} HexRoundTrip(n: nat)
    requires n < 32
    ensures ReadHex(['0', '0', HexDigit(n / 16), HexDigit(n % 16)]) == Some(n as char)
  {
    assert HexValue(HexDigit(n / 16)) == Some(n / 16);
    assert HexValue(HexDigit(n % 16)) == Some(n % 16);
  }

  lemma {:induction false} ReadEscapedChar(c: char, rest: string)
    ensures EscapeChar(c) != "" && EscapeChar(c)[0] != '"'
    ensures ReadChar(EscapeChar(c) + rest) == Some((c, rest))
  {
    var s := EscapeChar(c) + rest;
    if |EscapeChar(c)| == 1 {
      assert s[1..] == rest;
    } else if |EscapeChar(c)| == 2 {
      assert s[2..] == rest;
    } else {
      HexRoundTrip(c as nat);
      assert s[2..6] == ['0', '0', HexDigit(c as nat / 16), HexDigit(c as nat % 16)];
      assert s[6..] == rest;
    }
  }

  lemma {:induction false} ReadStringStep(c: char, tail: string)
    requires ReadString(tail).Some?
    ensures ReadString(EscapeChar(c) + tail) == Some(([c] + ReadString(tail).value.0, ReadString(tail).value.1))
  {
    ReadEscapedChar(c, tail);
    assert (EscapeChar(c) + tail)[0] == EscapeChar(c)[0];
  }

  lemma {:induction false} ReadEmptyString(rest: string)
    ensures ReadString("\"" + rest) == Some(("", rest))
  {
    DropFirst('"', rest);
  }

  lemma {:induction false} ReadQuoted(s: string, rest: string)
    ensures ReadString(Escape(s) + ("\"" + rest)) == Some((s, rest))
  {
    if s == "" {
      ReadEmptyString(rest);
      assert Escape(s) + ("\"" + rest) == "\"" + rest;
    } else {
      ReadQuoted(s[1..], rest);
      ReadStringStep(s[0], Escape(s[1..]) + ("\"" + rest));
      Associative(EscapeChar(s[0]), Escape(s[1..]), "\"" + rest);
      assert [s[0]] + s[1..] == s;
    }
  }

  /** What may follow a printed value: nothing, or a character no number goes on with. */
  predicate Follows(rest: string) {
    rest == "" || rest[0] == ',' || rest[0] == '\n'
  }

  lemma {:induction false} TakeWholeNumber(text: string, rest: string)
    requires (forall i :: 0 <= i < |text| ==> NumberChar(text[i])) && Follows(rest)
    ensures TakeNumber(text + rest) == (text, rest)
  {
    if text == "" {
      assert text + rest == rest;
    } else {
      TakeWholeNumber(text[1..], rest);
      assert (text + rest)[1..] == text[1..] + rest;
      assert [text[0]] + text[1..] == text;
    }
  }

  /** The first character of a printed value. */
  lemma {:induction false} PrintStarts(v: Json, indent: string)
    requires WellFormed(v)
    ensures Print(v, indent) != ""
    ensures !IsBlank(Print(v, indent)[0]) && Print(v, indent)[0] != ']' && Print(v, indent)[0] != '}'
  {
    if v.Number? {
      assert NumberChar(v.text[0]);
    }
  }

  /** Reading starts after any blanks. */
  lemma {:induction false} ReadAfterBlanks(blanks: string, s: string)
    requires Blanks(blanks) && s != "" && !IsBlank(s[0])
    ensures ReadValue(blanks + s).Some? <==> ReadValue(s).Some?
    ensures ReadValue(s).Some? ==> ReadValue(blanks + s) == ReadValue(s)
  {
    SkipThem(blanks, s);
    SkipThem("", s);
    assert "" + s == s;
  }

  lemma {:induction false} SpacesAreBlanks(indent: string)
    requires Spaces(indent)
    ensures Blanks(indent) && Spaces(indent + "  ") && Blanks("\n" + indent)
  {
  }

  lemma {:induction false} NothingToSkip(s: string)
    requires s != "" && !IsBlank(s[0])
    ensures SkipBlanks(s) == s
  {
  }

  lemma {:induction false} ReadWord(word: string, v: Json, rest: string)
    requires (word == "null" && v == Null) || (word == "true" && v == Bool(true)) || (word == "false" && v == Bool(false))
    ensures ReadValue(word + rest) == Some((v, rest))
  {
    NothingToSkip(word + rest);
    DropPrefix(word, rest);
  }

  lemma {:induction false} ReadPrintedNumber(text: string, rest: string)
    requires IsNumber(text) && Follows(rest)
    ensures ReadValue(text + rest) == Some((Number(text), rest))
  {
    assert NumberChar(text[0]) && (text + rest)[0] == text[0];
    NothingToSkip(text + rest);
    TakeWholeNumber(text, rest);
  }

  lemma {:induction false} ReadPrintedString(s: string, rest: string)
    ensures ReadValue(Quote(s) + rest) == Some((Str(s), rest))
  {
    var body := Escape(s) + ("\"" + rest);
    assert Quote(s) + rest == "\"" + body;
    NothingToSkip("\"" + body);
    DropFirst('"', body);
    ReadQuoted(s, rest);
  }

  lemma {:induction false} ReadEmpty(open: char, close: char, v: Json, rest: string)
    requires (open == '[' && close == ']' && v == Arr(NoItems)) || (open == '{' && close == '}' && v == Obj(NoFields))
    ensures ReadValue([open, close] + rest) == Some((v, rest))
  {
    var tail := [close] + rest;
    assert [open, close] + rest == [open] + tail;
    NothingToSkip([open] + tail);
    DropFirst(open, tail);
    NothingToSkip(tail);
    DropFirst(close, rest);
  }

  lemma {:induction false} ReadPrinted(v: Json, indent: string, rest: string)
    requires WellFormed(v) && Spaces(indent) && Follows(rest)
    ensures ReadValue(Print(v, indent) + rest) == Some((v, rest))
    decreases v, 1
  {
    match v
    case Null => ReadWord("null", v, rest);
    case Bool(b) => ReadWord(if b then "true" else "false", v, rest);
    case Number(text) => ReadPrintedNumber(text, rest);
    case Str(s) => ReadPrintedString(s, rest);
    case Arr(items) => if items.NoItems? { ReadEmpty('[', ']', v, rest); } else { ReadPrintedArray(items, indent, rest); }
    case Obj(fields) => if fields.NoFields? { ReadEmpty('{', '}', v, rest); } else { ReadPrintedObject(fields, indent, rest); }
  }

  /** A closing bracket on its own line, and what follows. */
  function Close(indent: string, bracket: char, rest: string): string {
    "\n" + (indent + ([bracket] + rest))
  }

  lemma {:induction false} SkipClose(indent: string, bracket: char, rest: string)
    requires Spaces(indent) && !IsBlank(bracket)
    ensures SkipBlanks(Close(indent, bracket, rest)) == [bracket] + rest
    ensures Follows(Close(indent, bracket, rest))
  {
    SpacesAreBlanks(indent);
    SkipThem("\n" + indent, [bracket] + rest);
    assert Close(indent, bracket, rest) == ("\n" + indent) + ([bracket] + rest);
  }

  /** What follows the first printed item. */
  function ItemsTail(items: Items, indent: string, close: string): string
    requires items.Item?
  {
    if items.rest.NoItems? then close else "," + ("\n" + (PrintItems(items.rest, indent) + close))
  }

  lemma {:induction false} ItemsShape(items: Items, indent: string, close: string)
    requires items.Item?
    ensures "\n" + (PrintItems(items, indent) + close)
         == ("\n" + indent) + (Print(items.first, indent) + ItemsTail(items, indent, close))
  {
    if items.rest.NoItems? {
      assert PrintItems(items, indent) == indent + (Print(items.first, indent) + "");
    } else {
      assert ",\n" + PrintItems(items.rest, indent) + close == "," + ("\n" + (PrintItems(items.rest, indent) + close));
    }
  }

  lemma {:induction false} ReadPrintedItems(items: Items, indent: string, outer: string, rest: string)
    requires items.Item? && WellFormedItems(items) && Spaces(indent) && Spaces(outer)
    ensures ReadItems("\n" + (PrintItems(items, indent) + Close(outer, ']', rest))) == Some((items, rest))
    decreases items, 1
  {
    var close := Close(outer, ']', rest);
    var tail := ItemsTail(items, indent, close);
    SkipClose(outer, ']', rest);
    ItemsShape(items, indent, close);
    ReadPrinted(items.first, indent, tail);
    PrintStarts(items.first, indent);
    SpacesAreBlanks(indent);
    ReadAfterBlanks("\n" + indent, Print(items.first, indent) + tail);
    if items.rest.NoItems? {
      assert ([']'] + rest)[1..] == rest;
    } else {
      ReadPrintedItems(items.rest, indent, outer, rest);
      assert SkipBlanks(tail) == tail;
      assert tail[1..] == "\n" + (PrintItems(items.rest, indent) + close);
    }
  }

  lemma {:induction false} ArrayShape(items: Items, indent: string, rest: string)
    requires items.Item?
    ensures Print(Arr(items), indent) + rest == "[" + ("\n" + (PrintItems(items, indent + "  ") + Close(indent, ']', rest)))
  {
    var p := PrintItems(items, indent + "  ");
    assert indent + "]" + rest == indent + ([']'] + rest);
    assert p + ("\n" + (indent + "]")) + rest == p + Close(indent, ']', rest);
  }

  lemma {:induction false} SkipToFirstItem(items: Items, indent: string, close: string)
    requires items.Item? && WellFormedItems(items) && Spaces(indent)
    ensures SkipBlanks("\n" + (PrintItems(items, indent) + close)) != ""
    ensures SkipBlanks("\n" + (PrintItems(items, indent) + close))[0] != ']'
  {
    ItemsShape(items, indent, close);
    PrintStarts(items.first, indent);
    SpacesAreBlanks(indent);
    SkipThem("\n" + indent, Print(items.first, indent) + ItemsTail(items, indent, close));
  }

  lemma {:induction false} ReadPrintedArray(items: Items, indent: string, rest: string)
    requires items.Item? && WellFormedItems(items) && Spaces(indent)
    ensures ReadValue(Print(Arr(items), indent) + rest) == Some((Arr(items), rest))
    decreases items, 2
  {
    var body := "\n" + (PrintItems(items, indent + "  ") + Close(indent, ']', rest));
    ArrayShape(items, indent, rest);
    SpacesAreBlanks(indent);
    SkipToFirstItem(items, indent + "  ", Close(indent, ']', rest));
    ReadPrintedItems(items, indent + "  ", indent, rest);
    assert ("[" + body)[1..] == body;
    assert SkipBlanks("[" + body) == "[" + body;
  }

  /** What follows the first printed field. */
  function FieldsTail(fields: Fields, indent: string, close: string): string
    requires fields.Field?
  {
    if fields.others.NoFields? then close else "," + ("\n" + (PrintFields(fields.others, indent) + close))
  }

  function FirstField(fields: Fields, indent: string, tail: string): string
    requires fields.Field?
  {
    Quote(fields.key) + (":" + (" " + (Print(fields.value, indent) + tail)))
  }

  lemma {:induction false} FieldsShape(fields: Fields, indent: string, close: string)
    requires fields.Field?
    ensures "\n" + (PrintFields(fields, indent) + close)
         == ("\n" + indent) + FirstField(fields, indent, FieldsTail(fields, indent, close))
  {
    var p := Print(fields.value, indent);
    var more := if fields.others.NoFields? then "" else ",\n" + PrintFields(fields.others, indent);
    assert more + close == FieldsTail(fields, indent, close) by {
      if fields.others.Field? {
        Associative(",\n", PrintFields(fields.others, indent), close);
        Associative(",", "\n", PrintFields(fields.others, indent) + close);
        assert "," + "\n" == ",\n";
      } else {
        assert "" + close == close;
      }
    }
    FieldRegroup(indent, Quote(fields.key), p, more, close);
  }

  lemma {:induction false} FieldRegroup(indent: string, key: string, p: string, more: string, close: string)
    ensures "\n" + ((indent + (key + (": " + (p + more)))) + close)
         == ("\n" + indent) + (key + (":" + (" " + (p + (more + close)))))
  {
    Associative(indent, key + (": " + (p + more)), close);
    Associative("\n", indent, (key + (": " + (p + more))) + close);
    Associative(key, ": " + (p + more), close);
    Associative(": ", p + more, close);
    Associative(p, more, close);
    Associative(":", " ", p + (more + close));
    assert ":" + " " == ": ";
  }

  lemma {:induction false} ReadPrintedKey(key: string, indent: string, rest: string)
    requires Spaces(indent)
    ensures ReadKey(("\n" + indent) + (Quote(key) + (":" + rest))) == Some((key, rest))
  {
    var s := Quote(key) + (":" + rest);
    SpacesAreBlanks(indent);
    SkipThem("\n" + indent, s);
    assert s[1..] == Escape(key) + ("\"" + (":" + rest));
    ReadQuoted(key, ":" + rest);
    assert SkipBlanks(":" + rest) == ":" + rest && (":" + rest)[1..] == rest;
  }

  /** The first field, read up to its comma or the closing brace. */
  lemma {:induction false} ReadFirstField(fields: Fields, indent: string, tail: string)
    requires fields.Field? && WellFormed(fields.value) && Spaces(indent) && Follows(tail)
    ensures ReadKey(("\n" + indent) + FirstField(fields, indent, tail))
         == Some((fields.key, " " + (Print(fields.value, indent) + tail)))
    ensures ReadValue(" " + (Print(fields.value, indent) + tail)) == Some((fields.value, tail))
    decreases fields, 0
  {
    ReadPrintedKey(fields.key, indent, " " + (Print(fields.value, indent) + tail));
    ReadPrinted(fields.value, indent, tail);
    PrintStarts(fields.value, indent);
    ReadAfterBlanks(" ", Print(fields.value, indent) + tail);
  }

  /** The last field is followed by the closing brace. */
  lemma {:induction false} ReadLastField(s: string, key: string, v: Json, valueText: string, close: string, rest: string)
    requires ReadKey(s) == Some((key, valueText)) && ReadValue(valueText) == Some((v, close))
    requires SkipBlanks(close) == ['}'] + rest
    ensures ReadFields(s) == Some((Field(key, v, NoFields), rest))
  {
    DropFirst('}', rest);
  }

  /** Any other field is followed by a comma and more fields. */
  lemma {:induction false} ReadNextField(s: string, key: string, v: Json, valueText: string, more: string, others: Fields,
                                         rest: string)
    requires ReadKey(s) == Some((key, valueText)) && ReadValue(valueText) == Some((v, "," + more))
    requires ReadFields(more) == Some((others, rest))
    ensures ReadFields(s) == Some((Field(key, v, others), rest))
  {
    NothingToSkip("," + more);
    DropFirst(',', more);
  }

  lemma {:induction false} ReadPrintedFields(fields: Fields, indent: string, outer: string, rest: string)
    requires fields.Field? && WellFormedFields(fields) && Spaces(indent) && Spaces(outer)
    ensures ReadFields("\n" + (PrintFields(fields, indent) + Close(outer, '}', rest))) == Some((fields, rest))
    decreases fields, 1
  {
    var close := Close(outer, '}', rest);
    var tail := FieldsTail(fields, indent, close);
    var s := "\n" + (PrintFields(fields, indent) + close);
    SkipClose(outer, '}', rest);
    FieldsShape(fields, indent, close);
    ReadFirstField(fields, indent, tail);
    var valueText := " " + (Print(fields.value, indent) + tail);
    if fields.others.NoFields? {
      ReadLastField(s, fields.key, fields.value, valueText, close, rest);
    } else {
      ReadPrintedFields(fields.others, indent, outer, rest);
      ReadNextField(s, fields.key, fields.value, valueText, "\n" + (PrintFields(fields.others, indent) + close),
                    fields.others, rest);
    }
  }

  lemma {:induction false} ObjectShape(fields: Fields, indent: string, rest: string)
    requires fields.Field?
    ensures Print(Obj(fields), indent) + rest == "{" + ("\n" + (PrintFields(fields, indent + "  ") + Close(indent, '}', rest)))
  {
    var p := PrintFields(fields, indent + "  ");
    assert indent + "}" + rest == indent + (['}'] + rest);
    assert p + ("\n" + (indent + "}")) + rest == p + Close(indent, '}', rest);
  }

  lemma {:induction false} SkipToFirstField(fields: Fields, indent: string, close: string)
    requires fields.Field? && Spaces(indent)
    ensures SkipBlanks("\n" + (PrintFields(fields, indent) + close)) != ""
    ensures SkipBlanks("\n" + (PrintFields(fields, indent) + close))[0] != '}'
  {
    FieldsShape(fields, indent, close);
    SpacesAreBlanks(indent);
    SkipThem("\n" + indent, FirstField(fields, indent, FieldsTail(fields, indent, close)));
  }

  lemma {:induction false} ReadPrintedObject(fields: Fields, indent: string, rest: string)
    requires fields.Field? && WellFormedFields(fields) && Spaces(indent)
    ensures ReadValue(Print(Obj(fields), indent) + rest) == Some((Obj(fields), rest))
    decreases fields, 2
  {
    var body := "\n" + (PrintFields(fields, indent + "  ") + Close(indent, '}', rest));
    ObjectShape(fields, indent, rest);
    SpacesAreBlanks(indent);
    SkipToFirstField(fields, indent + "  ", Close(indent, '}', rest));
    ReadPrintedFields(fields, indent + "  ", indent, rest);
    assert ("{" + body)[1..] == body;
    assert SkipBlanks("{" + body) == "{" + body;
  }

  /** `JSON.parse` is a left inverse of `JSON.stringify`. */
  lemma {:induction false} ParsePrint(v: Json)
    requires WellFormed(v)
    ensures Parse(Print(v, "")) == Some(v)
  {
    ReadPrinted(v, "", "");
    assert Print(v, "") + "" == Print(v, "");
  }
}
