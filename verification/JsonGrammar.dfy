/** The grammar of RFC 8259, sections 2 to 7, and the proof that the reader reads exactly it. */
module JsonGrammar {
  import opened Options
  import opened Sequences
  import opened Json

  // ---------------------------------------------------------- the grammar

  /** The characters that a backslash and a letter stand for. */
  predicate ShortEscape(letter: char, c: char) {
    ((letter == '"' || letter == '\\' || letter == '/') && c == letter)
    || (letter == 'b' && c == '\U{0008}') || (letter == 'f' && c == '\U{000C}') || (letter == 'n' && c == '\n')
    || (letter == 'r' && c == '\r') || (letter == 't' && c == '\t')
  }

  predicate HexSpelled(digits: string, code: nat) {
    |digits| == 4
    && HexValue(digits[0]).Some? && HexValue(digits[1]).Some? && HexValue(digits[2]).Some? && HexValue(digits[3]).Some?
    && code == ((HexValue(digits[0]).value * 16 + HexValue(digits[1]).value) * 16 + HexValue(digits[2]).value) * 16
               + HexValue(digits[3]).value
  }

  /** One character of a string, outside the surrogates. */
  predicate CharSpelled(t: string, c: char) {
    (t == [c] && c >= ' ' && c != '"' && c != '\\')
    || (|t| == 2 && t[0] == '\\' && ShortEscape(t[1], c))
    || (|t| == 6 && t[0] == '\\' && t[1] == 'u' && HexSpelled(t[2..], c as nat))
  }

  ghost predicate TextSpelled(t: string, s: string)
    decreases |s|
  {
    if s == "" then t == ""
    else exists one, more :: t == one + more && CharSpelled(one, s[0]) && TextSpelled(more, s[1..])
  }

  ghost predicate StringSpelled(t: string, s: string) {
    exists u :: t == "\"" + (u + "\"") && TextSpelled(u, s)
  }

  ghost predicate Spelled(t: string, v: Json)
    decreases v, 0
  {
    match v
    case Null => t == "null"
    case Bool(b) => t == if b then "true" else "false"
    case Number(text) => t == text && IsNumber(text)
    case Str(s) => StringSpelled(t, s)
    case Arr(items) =>
      if items.NoItems? then exists b :: Blanks(b) && t == "[" + (b + "]")
      else exists body :: ItemsSpelled(body, items) && t == "[" + (body + "]")
    case Obj(fields) =>
      if fields.NoFields? then exists b :: Blanks(b) && t == "{" + (b + "}")
      else exists body :: FieldsSpelled(body, fields) && t == "{" + (body + "}")
  }

  /** A value with blanks around it. */
  ghost predicate Padded(t: string, v: Json)
    decreases v, 1
  {
    exists a, w, b :: Blanks(a) && Blanks(b) && Spelled(w, v) && t == a + (w + b)
  }

  ghost predicate ItemsSpelled(t: string, items: Items)
    requires items.Item?
    decreases items, 0
  {
    if items.rest.NoItems? then Padded(t, items.first)
    else exists one, more :: Padded(one, items.first) && ItemsSpelled(more, items.rest) && t == one + ("," + more)
  }

  /** A key with blanks around it, and a colon. */
  ghost predicate KeySpelled(t: string, key: string) {
    exists a, w, b :: Blanks(a) && Blanks(b) && StringSpelled(w, key) && t == a + (w + (b + ":"))
  }

  ghost predicate FieldSpelled(t: string, key: string, v: Json)
    decreases v, 2
  {
    exists k, one :: KeySpelled(k, key) && Padded(one, v) && t == k + one
  }

  ghost predicate FieldsSpelled(t: string, fields: Fields)
    requires fields.Field?
    decreases fields, 0
  {
    if fields.others.NoFields? then FieldSpelled(t, fields.key, fields.value)
    else
      exists one, more ::
        FieldSpelled(one, fields.key, fields.value) && FieldsSpelled(more, fields.others) && t == one + ("," + more)
  }

  // ---------------------------------------------------------- what is read is spelled

  lemma {:induction false} BlanksSplit(s: string) returns (a: string)
    ensures Blanks(a) && s == a + SkipBlanks(s) && (SkipBlanks(s) != "" ==> !IsBlank(SkipBlanks(s)[0]))
  {
    if s != "" && IsBlank(s[0]) {
      a := BlanksSplit(s[1..]);
      assert s == [s[0]] + s[1..];
      Associative([s[0]], a, SkipBlanks(s));
      a := [s[0]] + a;
    } else {
      a := "";
      assert s == "" + s;
    }
  }

  lemma {:induction false} CharIsSpelled(s: string) returns (one: string)
    requires s != "" && ReadChar(s).Some?
    ensures CharSpelled(one, ReadChar(s).value.0) && s == one + ReadChar(s).value.1
  {
    if s[0] != '\\' {
      one := [s[0]];
    } else if |s| >= 6 && s[1] == 'u' {
      one := s[..6];
      assert one[2..] == s[2..6] && s == s[..6] + s[6..];
      var d := s[2..6];
      assert HexSpelled(d, ReadChar(s).value.0 as nat);
    } else {
      one := s[..2];
      assert s == s[..2] + s[2..];
    }
  }

  lemma {:induction false} StringIsSpelled(s: string) returns (u: string)
    requires ReadString(s).Some?
    ensures TextSpelled(u, ReadString(s).value.0) && s == u + ("\"" + ReadString(s).value.1)
    decreases |s|
  {
    if s[0] == '"' {
      u := "";
      assert s == "" + ("\"" + s[1..]);
    } else {
      var one := CharIsSpelled(s);
      var c, rest := ReadChar(s).value.0, ReadChar(s).value.1;
      var more := StringIsSpelled(rest);
      u := one + more;
      DropFirst(c, ReadString(rest).value.0);
      Associative(one, more, "\"" + ReadString(s).value.1);
    }
  }

  lemma {:induction false} QuotedIsSpelled(t: string) returns (w: string)
    requires t != "" && t[0] == '"' && ReadString(t[1..]).Some?
    ensures StringSpelled(w, ReadString(t[1..]).value.0) && t == w + ReadString(t[1..]).value.1
  {
    var u := StringIsSpelled(t[1..]);
    var rest := ReadString(t[1..]).value.1;
    w := "\"" + (u + "\"");
    assert t == "\"" + t[1..];
    Associative("\"", u + "\"", rest);
    Associative(u, "\"", rest);
  }

  lemma {:induction false} NumberSplits(s: string)
    ensures s == TakeNumber(s).0 + TakeNumber(s).1
    ensures TakeNumber(s).1 != "" ==> !NumberChar(TakeNumber(s).1[0])
  {
    if s != "" && NumberChar(s[0]) {
      NumberSplits(s[1..]);
      assert s == [s[0]] + s[1..];
      Associative([s[0]], TakeNumber(s[1..]).0, TakeNumber(s[1..]).1);
    } else {
      assert s == "" + s;
    }
  }

  lemma {:induction false} LiteralIsSpelled(word: string, t: string, v: Json)
    requires Literal(word, t, v).Some? && Spelled(word, v)
    ensures t == word + Literal(word, t, v).value.1
  {
  }

  /** Blanks and a value, and the rest of the text. */
  lemma {:induction false} ValueIsSpelled(s: string) returns (a: string, w: string)
    requires ReadValue(s).Some?
    ensures Blanks(a) && Spelled(w, ReadValue(s).value.0) && s == a + (w + ReadValue(s).value.1)
    decreases |s|, 0
  {
    var t := SkipBlanks(s);
    a := BlanksSplit(s);
    assert t == [t[0]] + t[1..];
    if t[0] == '"' {
      w := QuotedIsSpelled(t);
    } else if t[0] == '[' {
      w := ArrayIsSpelled(t, t[1..]);
    } else if t[0] == '{' {
      w := ObjectIsSpelled(t, t[1..]);
    } else if t[0] == 'n' {
      w := "null";
      LiteralIsSpelled(w, t, Null);
    } else if t[0] == 't' {
      w := "true";
      LiteralIsSpelled(w, t, Bool(true));
    } else if t[0] == 'f' {
      w := "false";
      LiteralIsSpelled(w, t, Bool(false));
    } else {
      NumberSplits(t);
      w := TakeNumber(t).0;
    }
  }

  /** What is read after an opening bracket. */
  function AfterBracket(s: string): Option<(Json, string)> {
    var u := SkipBlanks(s);
    if u != "" && u[0] == ']' then Some((Arr(NoItems), u[1..]))
    else if ReadItems(s).Some? then Some((Arr(ReadItems(s).value.0), ReadItems(s).value.1)) else None
  }

  function AfterBrace(s: string): Option<(Json, string)> {
    var u := SkipBlanks(s);
    if u != "" && u[0] == '}' then Some((Obj(NoFields), u[1..]))
    else if ReadFields(s).Some? then Some((Obj(ReadFields(s).value.0), ReadFields(s).value.1)) else None
  }

  lemma {:induction false} Enclose(open: string, body: string, close: string, rest: string)
    ensures open + (body + (close + rest)) == (open + (body + close)) + rest
  {
    Associative(body, close, rest);
    Associative(open, body + close, rest);
  }

  lemma {:induction false} ArrayIsSpelled(t: string, s: string) returns (w: string)
    requires t == "[" + s && AfterBracket(s).Some?
    ensures Spelled(w, AfterBracket(s).value.0) && t == w + AfterBracket(s).value.1
    decreases |s|, 4
  {
    var u, rest := SkipBlanks(s), AfterBracket(s).value.1;
    if u != "" && u[0] == ']' {
      var b := BlanksSplit(s);
      w := "[" + (b + "]");
      assert u == "]" + rest;
      Enclose("[", b, "]", rest);
    } else {
      var body := ItemsAreSpelled(s);
      w := "[" + (body + "]");
      Enclose("[", body, "]", rest);
    }
  }

  lemma {:induction false} ObjectIsSpelled(t: string, s: string) returns (w: string)
    requires t == "{" + s && AfterBrace(s).Some?
    ensures Spelled(w, AfterBrace(s).value.0) && t == w + AfterBrace(s).value.1
    decreases |s|, 4
  {
    var u, rest := SkipBlanks(s), AfterBrace(s).value.1;
    if u != "" && u[0] == '}' {
      var b := BlanksSplit(s);
      w := "{" + (b + "}");
      assert u == "}" + rest;
      Enclose("{", b, "}", rest);
    } else {
      var body := FieldsAreSpelled(s, ReadFields(s).value.0, rest);
      w := "{" + (body + "}");
      Enclose("{", body, "}", rest);
    }
  }

  /** A value, the blanks around it, and what follows. */
  lemma {:induction false} PaddedIsSpelled(s: string) returns (one: string)
    requires ReadValue(s).Some?
    ensures Padded(one, ReadValue(s).value.0) && s == one + SkipBlanks(ReadValue(s).value.1)
    decreases |s|, 1
  {
    var rest := ReadValue(s).value.1;
    var a, w := ValueIsSpelled(s);
    var b := BlanksSplit(rest);
    one := a + (w + b);
    Associative(w, b, SkipBlanks(rest));
    Associative(a, w + b, SkipBlanks(rest));
  }

  lemma {:induction false} ItemsAreSpelled(s: string) returns (body: string)
    requires ReadItems(s).Some?
    ensures ReadItems(s).value.0.Item? && ItemsSpelled(body, ReadItems(s).value.0) && s == body + ("]" + ReadItems(s).value.1)
    decreases |s|, 3
  {
    var t, rest := SkipBlanks(ReadValue(s).value.1), ReadItems(s).value.1;
    var one := PaddedIsSpelled(s);
    assert t == [t[0]] + t[1..];
    if t[0] == ']' {
      body := one;
    } else {
      var more := ItemsAreSpelled(t[1..]);
      body := one + ("," + more);
      Associative(",", more, "]" + rest);
      Associative(one, "," + more, "]" + rest);
    }
  }

  lemma {:induction false} KeyIsSpelled(s: string) returns (k: string)
    requires ReadKey(s).Some?
    ensures KeySpelled(k, ReadKey(s).value.0) && s == k + ReadKey(s).value.1
  {
    var t, rest := SkipBlanks(s), ReadKey(s).value.1;
    var a := BlanksSplit(s);
    var w := QuotedIsSpelled(t);
    var after := ReadString(t[1..]).value.1;
    var b := BlanksSplit(after);
    assert SkipBlanks(after) == ":" + rest;
    k := a + (w + (b + ":"));
    Associative(b, ":", rest);
    Associative(w, b + ":", rest);
    Associative(a, w + (b + ":"), rest);
  }

  /** A field and what follows it, after blanks. */
  function OneField(s: string): Option<(string, Json, string)> {
    if ReadKey(s).None? then None
    else
      var inside := ReadKey(s).value.1;
      if ReadValue(inside).None? then None
      else Some((ReadKey(s).value.0, ReadValue(inside).value.0, SkipBlanks(ReadValue(inside).value.1)))
  }

  lemma {:induction false} FieldIsSpelled(s: string, key: string, v: Json, t: string) returns (field: string)
    requires OneField(s) == Some((key, v, t))
    ensures FieldSpelled(field, key, v) && s == field + t
    decreases |s|, 2
  {
    var k := KeyIsSpelled(s);
    var one := PaddedIsSpelled(ReadKey(s).value.1);
    field := k + one;
    Associative(k, one, t);
  }

  lemma {:induction false} OneMoreField(field: string, more: string, key: string, v: Json, others: Fields)
    requires FieldSpelled(field, key, v) && others.Field? && FieldsSpelled(more, others)
    ensures FieldsSpelled(field + ("," + more), Field(key, v, others))
  {
  }

  lemma {:induction false} LastField(field: string, key: string, v: Json)
    requires FieldSpelled(field, key, v)
    ensures FieldsSpelled(field, Field(key, v, NoFields))
  {
  }

  /** What reading fields comes down to: a field, and its end or a comma and more. */
  lemma {:induction false} FieldsParts(s: string, fields: Fields, rest: string) returns (t: string, later: string)
    requires ReadFields(s) == Some((fields, rest))
    ensures fields.Field? && OneField(s) == Some((fields.key, fields.value, t)) && |later| < |s|
    ensures if fields.others.NoFields? then t == "}" + rest
            else t == "," + later && ReadFields(later) == Some((fields.others, rest))
  {
    t := OneField(s).value.2;
    later := t[1..];
    assert t == [t[0]] + later;
    FieldsAreSome(later);
  }

  lemma {:induction false} FieldsAreSome(s: string)
    ensures ReadFields(s).Some? ==> ReadFields(s).value.0.Field?
  {
  }

  lemma {:induction false} CommaBetween(field: string, more: string, rest: string)
    ensures (field + ("," + more)) + rest == field + ("," + (more + rest))
  {
    Associative(",", more, rest);
    Associative(field, "," + more, rest);
  }

  lemma {:induction false} FieldsAreSpelled(s: string, fields: Fields, rest: string) returns (body: string)
    requires ReadFields(s) == Some((fields, rest))
    ensures fields.Field? && FieldsSpelled(body, fields) && s == body + ("}" + rest)
    decreases |s|, 3
  {
    var t, later := FieldsParts(s, fields, rest);
    var field := FieldIsSpelled(s, fields.key, fields.value, t);
    if fields.others.NoFields? {
      body := field;
      LastField(field, fields.key, fields.value);
    } else {
      var more := FieldsAreSpelled(later, fields.others, rest);
      OneMoreField(field, more, fields.key, fields.value, fields.others);
      CommaBetween(field, more, "}" + rest);
      body := field + ("," + more);
    }
  }

  // ---------------------------------------------------------- what is spelled is read

  lemma {:induction false} CharIsRead(one: string, c: char, rest: string)
    requires CharSpelled(one, c)
    ensures one != "" && one[0] != '"' && ReadChar(one + rest) == Some((c, rest))
  {
    var s := one + rest;
    if |one| == 1 {
      assert s[1..] == rest;
    } else if |one| == 2 {
      assert s[2..] == rest;
    } else {
      assert s[2..6] == one[2..] && s[6..] == rest;
      HexIsRead(one[2..], c);
    }
  }

  lemma {:induction false} HexIsRead(digits: string, c: char)
    requires HexSpelled(digits, c as nat)
    ensures ReadHex(digits) == Some(c)
  {
    HexFour(digits, HexValue(digits[0]).value, HexValue(digits[1]).value, HexValue(digits[2]).value, HexValue(digits[3]).value, c);
  }

  lemma {:induction false} HexFour(s: string, a: nat, b: nat, c: nat, d: nat, one: char)
    requires |s| == 4 && HexValue(s[0]) == Some(a) && HexValue(s[1]) == Some(b) && HexValue(s[2]) == Some(c) && HexValue(s[3]) == Some(d)
    requires one as nat == ((a * 16 + b) * 16 + c) * 16 + d
    ensures ReadHex(s) == Some(one)
  {
  }

  lemma {:induction false} TextIsRead(u: string, s: string, rest: string)
    requires TextSpelled(u, s)
    ensures ReadString(u + ("\"" + rest)) == Some((s, rest))
    decreases |s|
  {
    if s == "" {
      assert u + ("\"" + rest) == "\"" + rest && ("\"" + rest)[1..] == rest;
    } else {
      var one, more :| u == one + more && CharSpelled(one, s[0]) && TextSpelled(more, s[1..]);
      var tail := more + ("\"" + rest);
      Associative(one, more, "\"" + rest);
      TextIsRead(more, s[1..], rest);
      OneMoreChar(one, s[0], tail, s[1..], rest);
      assert [s[0]] + s[1..] == s;
    }
  }

  lemma {:induction false} OneMoreChar(one: string, c: char, tail: string, s: string, rest: string)
    requires CharSpelled(one, c) && ReadString(tail) == Some((s, rest))
    ensures ReadString(one + tail) == Some(([c] + s, rest))
  {
    CharIsRead(one, c, tail);
    assert (one + tail)[0] == one[0];
  }

  lemma {:induction false} QuotedIsRead(w: string, s: string, rest: string)
    requires StringSpelled(w, s)
    ensures w != "" && w[0] == '"' && ReadString((w + rest)[1..]) == Some((s, rest))
  {
    var u :| w == "\"" + (u + "\"") && TextSpelled(u, s);
    Associative("\"", u + "\"", rest);
    Associative(u, "\"", rest);
    assert (w + rest)[1..] == u + ("\"" + rest);
    TextIsRead(u, s, rest);
  }

  /** A number would go on. */
  predicate GoesOn(rest: string) {
    rest != "" && NumberChar(rest[0])
  }

  lemma {:induction false} NumberIsTaken(text: string, rest: string)
    requires (forall i :: 0 <= i < |text| ==> NumberChar(text[i])) && !GoesOn(rest)
    ensures TakeNumber(text + rest) == (text, rest)
  {
    if text == "" {
      assert text + rest == rest;
    } else {
      NumberIsTaken(text[1..], rest);
      assert (text + rest)[1..] == text[1..] + rest && [text[0]] + text[1..] == text;
    }
  }

  lemma {:induction false} SpelledStarts(w: string, v: Json)
    requires Spelled(w, v)
    ensures w != "" && !IsBlank(w[0]) && w[0] != ']' && w[0] != '}'
  {
    if v.Number? {
      assert NumberChar(w[0]);
    } else if v.Str? {
      var u :| w == "\"" + (u + "\"") && TextSpelled(u, v.s);
    }
  }

  lemma {:induction false} SpelledIsRead(w: string, v: Json, rest: string)
    requires Spelled(w, v) && !GoesOn(rest)
    ensures ReadValue(w + rest) == Some((v, rest))
    decreases v, 2
  {
    SpelledStarts(w, v);
    assert (w + rest)[0] == w[0];
    NothingToSkip(w + rest);
    match v
    case Null => ReadWord("null", v, rest);
    case Bool(b) => ReadWord(if b then "true" else "false", v, rest);
    case Number(text) =>
      assert NumberChar(text[0]);
      NumberIsTaken(text, rest);
    case Str(s) => QuotedIsRead(w, s, rest);
    case Arr(items) => ArrayIsRead(w, items, rest);
    case Obj(fields) => ObjectIsRead(w, fields, rest);
  }

  lemma {:induction false} ArrayIsRead(w: string, items: Items, rest: string)
    requires Spelled(w, Arr(items))
    ensures w[0] == '[' && AfterBracket((w + rest)[1..]) == Some((Arr(items), rest))
    decreases items, 3
  {
    if items.NoItems? {
      var b :| Blanks(b) && w == "[" + (b + "]");
      Enclose("[", b, "]", rest);
      assert (w + rest)[1..] == b + ("]" + rest);
      SkipThem(b, "]" + rest);
      assert ("]" + rest)[1..] == rest;
    } else {
      var body :| ItemsSpelled(body, items) && w == "[" + (body + "]");
      Enclose("[", body, "]", rest);
      assert (w + rest)[1..] == body + ("]" + rest);
      ItemsAreRead(body, items, rest);
    }
  }

  lemma {:induction false} ObjectIsRead(w: string, fields: Fields, rest: string)
    requires Spelled(w, Obj(fields))
    ensures w[0] == '{' && AfterBrace((w + rest)[1..]) == Some((Obj(fields), rest))
    decreases fields, 3
  {
    if fields.NoFields? {
      var b :| Blanks(b) && w == "{" + (b + "}");
      Enclose("{", b, "}", rest);
      assert (w + rest)[1..] == b + ("}" + rest);
      SkipThem(b, "}" + rest);
      assert ("}" + rest)[1..] == rest;
    } else {
      var body :| FieldsSpelled(body, fields) && w == "{" + (body + "}");
      Enclose("{", body, "}", rest);
      assert (w + rest)[1..] == body + ("}" + rest);
      FieldsAreRead(body, fields, rest);
    }
  }

  /** What may follow a value inside brackets. */
  predicate Ends(rest: string) {
    rest != "" && (rest[0] == ',' || rest[0] == ']' || rest[0] == '}')
  }

  lemma {:induction false} PaddedIsRead(t: string, v: Json, rest: string)
    requires Padded(t, v) && Ends(rest)
    ensures ReadValue(t + rest).Some? && ReadValue(t + rest).value.0 == v && SkipBlanks(ReadValue(t + rest).value.1) == rest
    ensures SkipBlanks(t + rest) != "" && SkipBlanks(t + rest)[0] != ']' && SkipBlanks(t + rest)[0] != '}'
    decreases v, 3
  {
    var a, w, b :| Blanks(a) && Blanks(b) && Spelled(w, v) && t == a + (w + b);
    Associative(a, w + b, rest);
    Associative(w, b, rest);
    SpelledStarts(w, v);
    EndsOrBlank(b, rest);
    SpelledIsRead(w, v, b + rest);
    ReadBetween(a, w, b, v, rest);
  }

  lemma {:induction false} EndsOrBlank(b: string, rest: string)
    requires Blanks(b) && Ends(rest)
    ensures !GoesOn(b + rest) && SkipBlanks(b + rest) == rest
  {
    assert b != "" ==> (b + rest)[0] == b[0];
    assert b == "" ==> b + rest == rest;
    NoNumberGoesOn((b + rest)[0]);
    SkipThem(b, rest);
  }

  lemma {:induction false} NoNumberGoesOn(c: char)
    requires IsBlank(c) || c == ',' || c == ']' || c == '}'
    ensures !NumberChar(c)
  {
  }

  lemma {:induction false} ReadBetween(a: string, w: string, b: string, v: Json, rest: string)
    requires Blanks(a) && w != "" && !IsBlank(w[0]) && w[0] != ']' && w[0] != '}'
    requires ReadValue(w + (b + rest)) == Some((v, b + rest)) && SkipBlanks(b + rest) == rest
    ensures var s := a + (w + (b + rest));
      && ReadValue(s) == Some((v, b + rest))
      && SkipBlanks(s) != "" && SkipBlanks(s)[0] != ']' && SkipBlanks(s)[0] != '}'
  {
    var s := w + (b + rest);
    assert s[0] == w[0];
    ReadAfterBlanks(a, s);
    SkipThem(a, s);
  }

  lemma {:induction false} ItemsAreRead(body: string, items: Items, rest: string)
    requires items.Item? && ItemsSpelled(body, items)
    ensures ReadItems(body + ("]" + rest)) == Some((items, rest))
    ensures var u := SkipBlanks(body + ("]" + rest)); u != "" && u[0] != ']'
    decreases items, 1
  {
    assert ("]" + rest)[1..] == rest;
    if items.rest.NoItems? {
      PaddedIsRead(body, items.first, "]" + rest);
    } else {
      var one, more :| Padded(one, items.first) && ItemsSpelled(more, items.rest) && body == one + ("," + more);
      var tail := more + ("]" + rest);
      Associative(one, "," + more, "]" + rest);
      Associative(",", more, "]" + rest);
      PaddedIsRead(one, items.first, "," + tail);
      assert ("," + tail)[1..] == tail;
      ItemsAreRead(more, items.rest, rest);
    }
  }

  lemma {:induction false} KeyIsRead(k: string, key: string, rest: string)
    requires KeySpelled(k, key)
    ensures ReadKey(k + rest) == Some((key, rest))
    ensures SkipBlanks(k + rest) != "" && SkipBlanks(k + rest)[0] != '}'
  {
    var a, w, b :| Blanks(a) && Blanks(b) && StringSpelled(w, key) && k == a + (w + (b + ":"));
    var tail := b + (":" + rest);
    Associative(a, w + (b + ":"), rest);
    Associative(w, b + ":", rest);
    Associative(b, ":", rest);
    QuotedIsRead(w, key, tail);
    assert (w + tail)[0] == w[0];
    SkipThem(a, w + tail);
    SkipThem(b, ":" + rest);
    assert (":" + rest)[1..] == rest;
  }

  lemma {:induction false} FieldIsRead(t: string, key: string, v: Json, rest: string)
    requires FieldSpelled(t, key, v) && Ends(rest)
    ensures OneField(t + rest) == Some((key, v, rest))
    ensures SkipBlanks(t + rest) != "" && SkipBlanks(t + rest)[0] != '}'
    decreases v, 4
  {
    var k, one :| KeySpelled(k, key) && Padded(one, v) && t == k + one;
    Associative(k, one, rest);
    KeyIsRead(k, key, one + rest);
    PaddedIsRead(one, v, rest);
    KeyThenValue(k + (one + rest), key, one + rest, v, rest);
  }

  lemma {:induction false} KeyThenValue(s: string, key: string, inside: string, v: Json, rest: string)
    requires ReadKey(s) == Some((key, inside))
    requires ReadValue(inside).Some? && ReadValue(inside).value.0 == v && SkipBlanks(ReadValue(inside).value.1) == rest
    ensures OneField(s) == Some((key, v, rest))
  {
  }

  lemma {:induction false} FieldsStep(s: string, key: string, v: Json, t: string, others: Fields, rest: string)
    requires OneField(s) == Some((key, v, t))
    requires (t == "}" + rest && others.NoFields?) || (t != "" && t[0] == ',' && ReadFields(t[1..]) == Some((others, rest)))
    ensures ReadFields(s) == Some((Field(key, v, others), rest))
  {
  }

  lemma {:induction false} FieldsAreRead(body: string, fields: Fields, rest: string)
    requires fields.Field? && FieldsSpelled(body, fields)
    ensures ReadFields(body + ("}" + rest)) == Some((fields, rest))
    ensures var u := SkipBlanks(body + ("}" + rest)); u != "" && u[0] != '}'
    decreases fields, 2
  {
    if fields.others.NoFields? {
      FieldIsRead(body, fields.key, fields.value, "}" + rest);
      FieldsStep(body + ("}" + rest), fields.key, fields.value, "}" + rest, NoFields, rest);
    } else {
      var one, more :| FieldSpelled(one, fields.key, fields.value) && FieldsSpelled(more, fields.others) && body == one + ("," + more);
      var tail := more + ("}" + rest);
      Associative(one, "," + more, "}" + rest);
      Associative(",", more, "}" + rest);
      FieldsAreRead(more, fields.others, rest);
      FieldIsRead(one, fields.key, fields.value, "," + tail);
      DropFirst(',', tail);
      FieldsStep(one + ("," + tail), fields.key, fields.value, "," + tail, fields.others, rest);
    }
  }

  // ---------------------------------------------------------- whole texts

  lemma {:induction false} OnlyBlanks(b: string)
    ensures SkipBlanks(b) == "" <==> Blanks(b)
  {
    if b != "" {
      OnlyBlanks(b[1..]);
      assert b == [b[0]] + b[1..];
    }
  }

  /** The reader accepts exactly the texts of the grammar, each as the value it spells. */
  lemma {:induction false} ParseReadsGrammar(text: string, v: Json)
    ensures Parse(text) == Some(v) <==> Padded(text, v)
  {
    if Parse(text) == Some(v) {
      var a, w := ValueIsSpelled(text);
      OnlyBlanks(ReadValue(text).value.1);
    }
    if Padded(text, v) {
      var a, w, b :| Blanks(a) && Blanks(b) && Spelled(w, v) && text == a + (w + b);
      SpelledStarts(w, v);
      SpelledIsRead(w, v, b);
      assert (w + b)[0] == w[0];
      ReadAfterBlanks(a, w + b);
      OnlyBlanks(b);
    }
  }
}
