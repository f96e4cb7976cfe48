/** Reading JSON never looks past what it reads, so no cut-off object is one. */
module JsonPrefix {
  import opened Options
  import opened Sequences
  import opened Json

  lemma {:induction false} SkipBlanksExtends(s: string, more: string)
    requires SkipBlanks(s) != ""
    ensures SkipBlanks(s + more) == SkipBlanks(s) + more
  {
    FirstAndRest(s, more);
    DropFirst(s[0], s[1..] + more);
    if IsBlank(s[0]) {
      SkipBlanksExtends(s[1..], more);
    }
  }

  lemma {:induction false} ReadCharExtends(s: string, more: string)
    requires s != "" && ReadChar(s).Some?
    ensures ReadChar(s + more) == Some((ReadChar(s).value.0, ReadChar(s).value.1 + more))
  {
    assert (s + more)[0] == s[0] && (s + more)[1..] == s[1..] + more;
    if s[0] == '\\' {
      assert (s + more)[1] == s[1] && (s + more)[2..] == s[2..] + more;
      if |s| >= 6 {
        assert (s + more)[2..6] == s[2..6] && (s + more)[6..] == s[6..] + more;
      }
    }
  }

  lemma {:induction false} ReadStringExtends(s: string, more: string)
    requires ReadString(s).Some?
    ensures ReadString(s + more) == Some((ReadString(s).value.0, ReadString(s).value.1 + more))
    decreases |s|
  {
    assert (s + more)[0] == s[0] && (s + more)[1..] == s[1..] + more;
    if s[0] != '"' {
      ReadCharExtends(s, more);
      ReadStringExtends(ReadChar(s).value.1, more);
    }
  }

  lemma {:induction false} TakeNumberExtends(s: string, more: string)
    requires TakeNumber(s).1 != ""
    ensures TakeNumber(s + more) == (TakeNumber(s).0, TakeNumber(s).1 + more)
  {
    FirstAndRest(s, more);
    DropFirst(s[0], s[1..] + more);
    if NumberChar(s[0]) {
      TakeNumberExtends(s[1..], more);
    }
  }

  /** A number may go on; anything else is read the same whatever follows. */
  predicate Closed(r: Option<(Json, string)>) {
    r.Some? && (r.value.0.Number? ==> r.value.1 != "")
  }

  lemma {:induction false} LiteralExtends(word: string, s: string, v: Json, more: string)
    requires Literal(word, s, v).Some?
    ensures Literal(word, s + more, v) == Some((v, Literal(word, s, v).value.1 + more))
  {
    assert (s + more)[..|word|] == s[..|word|] && (s + more)[|word|..] == s[|word|..] + more;
  }

  lemma {:induction false} ReadValueExtends(s: string, more: string)
    requires Closed(ReadValue(s))
    ensures ReadValue(s + more) == Some((ReadValue(s).value.0, ReadValue(s).value.1 + more))
    decreases |s|, 0
  {
    var t := SkipBlanks(s);
    SkipBlanksExtends(s, more);
    assert (t + more)[0] == t[0] && (t + more)[1..] == t[1..] + more;
    if t[0] == '"' {
      ReadStringExtends(t[1..], more);
    } else if t[0] == '[' {
      ReadArrayExtends(t[1..], more);
    } else if t[0] == '{' {
      ReadObjectExtends(t[1..], more);
    } else if t[0] == 'n' {
      LiteralExtends("null", t, Null, more);
    } else if t[0] == 't' {
      LiteralExtends("true", t, Bool(true), more);
    } else if t[0] == 'f' {
      LiteralExtends("false", t, Bool(false), more);
    } else {
      TakeNumberExtends(t, more);
    }
  }

  lemma {:induction false} ReadArrayExtends(s: string, more: string)
    ensures var u := SkipBlanks(s);
      u != "" && u[0] == ']' ==> SkipBlanks(s + more) == u + more && (u + more)[0] == ']' && (u + more)[1..] == u[1..] + more
    ensures var u := SkipBlanks(s);
      !(u != "" && u[0] == ']') && ReadItems(s).Some? ==>
        (SkipBlanks(s + more) != "" ==> SkipBlanks(s + more)[0] != ']')
        && ReadItems(s + more) == Some((ReadItems(s).value.0, ReadItems(s).value.1 + more))
    decreases |s|, 2
  {
    var u := SkipBlanks(s);
    if u != "" {
      SkipBlanksExtends(s, more);
    }
    if ReadItems(s).Some? {
      ReadItemsExtends(s, more);
    }
  }

  lemma {:induction false} ReadObjectExtends(s: string, more: string)
    ensures var u := SkipBlanks(s);
      u != "" && u[0] == '}' ==> SkipBlanks(s + more) == u + more && (u + more)[0] == '}' && (u + more)[1..] == u[1..] + more
    ensures var u := SkipBlanks(s);
      !(u != "" && u[0] == '}') && ReadFields(s).Some? ==>
        (SkipBlanks(s + more) != "" ==> SkipBlanks(s + more)[0] != '}')
        && ReadFields(s + more) == Some((ReadFields(s).value.0, ReadFields(s).value.1 + more))
    decreases |s|, 2
  {
    var u := SkipBlanks(s);
    if u != "" {
      SkipBlanksExtends(s, more);
    }
    if ReadFields(s).Some? {
      ReadFieldsExtends(s, more);
    }
  }

  lemma {:induction false} ReadItemsExtends(s: string, more: string)
    requires ReadItems(s).Some?
    ensures ReadItems(s + more) == Some((ReadItems(s).value.0, ReadItems(s).value.1 + more))
    decreases |s|, 1
  {
    var v := ReadValue(s).value;
    var t := SkipBlanks(v.1);
    ReadValueExtends(s, more);
    SkipBlanksExtends(v.1, more);
    assert (t + more)[0] == t[0] && (t + more)[1..] == t[1..] + more;
    if t[0] == ',' {
      ReadItemsExtends(t[1..], more);
    }
  }

  lemma {:induction false} ReadKeyExtends(s: string, more: string)
    requires ReadKey(s).Some?
    ensures ReadKey(s + more) == Some((ReadKey(s).value.0, ReadKey(s).value.1 + more))
  {
    var t := SkipBlanks(s);
    SkipBlanksExtends(s, more);
    assert (t + more)[0] == t[0] && (t + more)[1..] == t[1..] + more;
    ReadStringExtends(t[1..], more);
    var key := ReadString(t[1..]).value;
    var u := SkipBlanks(key.1);
    SkipBlanksExtends(key.1, more);
    assert (u + more)[0] == u[0] && (u + more)[1..] == u[1..] + more;
  }

  lemma {:induction false} ReadFieldsExtends(s: string, more: string)
    requires ReadFields(s).Some?
    ensures ReadFields(s + more) == Some((ReadFields(s).value.0, ReadFields(s).value.1 + more))
    decreases |s|, 1
  {
    var key := ReadKey(s).value;
    var v := ReadValue(key.1).value;
    var t := SkipBlanks(v.1);
    ReadKeyExtends(s, more);
    ReadValueExtends(key.1, more);
    SkipBlanksExtends(v.1, more);
    assert (t + more)[0] == t[0] && (t + more)[1..] == t[1..] + more;
    if t[0] == ',' {
      ReadFieldsExtends(t[1..], more);
    }
  }

  /** Cut anywhere before its end, a printed object is not JSON. */
  lemma {:induction false} CutObjectIsNotJson(fields: Fields, cut: string)
    requires WellFormed(Obj(fields)) && cut < Print(Obj(fields), "")
    ensures Parse(cut).None?
  {
    var whole := Print(Obj(fields), "");
    var missing := whole[|cut|..];
    assert whole == cut + missing;
    ReadPrinted(Obj(fields), "", "");
    assert whole + "" == whole;
    if ReadValue(cut).Some? {
      CutStartsObject(fields, cut);
      ReadValueExtends(cut, missing);
    }
  }

  /** What is left of it starts an object, or nothing. */
  lemma {:induction false} CutStartsObject(fields: Fields, cut: string)
    requires cut < Print(Obj(fields), "") && ReadValue(cut).Some?
    ensures ReadValue(cut).value.0.Obj?
  {
    assert Print(Obj(fields), "")[0] == '{';
    assert cut != "" ==> cut[0] == '{' && SkipBlanks(cut) == cut;
  }
}
