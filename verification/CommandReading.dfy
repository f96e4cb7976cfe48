/** What any command line at all means: its pieces, its words, the shell syntax in it, and the
    quote that does not close. */
module CommandReading {
  import opened Options
  import opened Sequences
  import opened Text
  import opened CommandScan

  // ---------------------------------------------------------- pieces of a line

  /** A character between double quotes, as it is or behind a backslash. */
  datatype Mark = Plain(c: char) | Behind(c: char)

  /** A blank, a character outside quotes, or a quoted stretch. */
  datatype Stretch = Space(c: char) | Letter(c: char) | Doubled(marks: seq<Mark>) | Singled(text: string)

  predicate LegalMark(m: Mark) {
    m.Plain? ==> m.c != '"' && m.c != '\\'
  }

  predicate LegalStretch(p: Stretch) {
    match p
    case Space(c) => IsSpace(c)
    case Letter(c) => !IsSpace(c) && c != '"' && c != '\''
    case Doubled(marks) => forall m :: m in marks ==> LegalMark(m)
    case Singled(text) => '\'' !in text
  }

  predicate LegalPieces(pieces: seq<Stretch>) {
    forall p :: p in pieces ==> LegalStretch(p)
  }

  function MarkText(m: Mark): string {
    if m.Plain? then [m.c] else ['\\', m.c]
  }

  function MarksText(marks: seq<Mark>): string {
    if marks == [] then "" else MarkText(marks[0]) + MarksText(marks[1..])
  }

  function MarksValue(marks: seq<Mark>): string {
    if marks == [] then "" else [marks[0].c] + MarksValue(marks[1..])
  }

  function StretchText(p: Stretch): string {
    match p
    case Space(c) => [c]
    case Letter(c) => [c]
    case Doubled(marks) => "\"" + (MarksText(marks) + "\"")
    case Singled(text) => "'" + (text + "'")
  }

  function CommandText(pieces: seq<Stretch>): string {
    if pieces == [] then "" else StretchText(pieces[0]) + CommandText(pieces[1..])
  }

  /** What a stretch adds to the word it is in. */
  function StretchValue(p: Stretch): string {
    match p
    case Space(_) => ""
    case Letter(c) => [c]
    case Doubled(marks) => MarksValue(marks)
    case Singled(text) => text
  }

  /** How many pieces there are before the next blank. */
  function WordLength(pieces: seq<Stretch>): (n: nat)
    ensures n <= |pieces|
  {
    if pieces == [] || pieces[0].Space? then 0 else 1 + WordLength(pieces[1..])
  }

  function WordValue(pieces: seq<Stretch>): string {
    if pieces == [] then "" else StretchValue(pieces[0]) + WordValue(pieces[1..])
  }

  /** The stretches between blanks, each as one word. */
  function Words(pieces: seq<Stretch>): seq<string>
    decreases |pieces|
  {
    if pieces == [] then []
    else if pieces[0].Space? then Words(pieces[1..])
    else [WordValue(pieces[..WordLength(pieces)])] + Words(pieces[WordLength(pieces)..])
  }

  // ---------------------------------------------------------- pieces scan to their words

  /** What is still to come, when part of a word has been read already. */
  function WordsAfter(begun: bool, current: string, pieces: seq<Stretch>): seq<string>
    decreases |pieces|
  {
    if pieces == [] then (if begun then [current] else [])
    else if pieces[0].Space? then (if begun then [current] else []) + WordsAfter(false, "", pieces[1..])
    else WordsAfter(true, current + StretchValue(pieces[0]), pieces[1..])
  }

  lemma {:induction false} WordsAfterWord(current: string, pieces: seq<Stretch>)
    ensures WordsAfter(true, current, pieces)
         == [current + WordValue(pieces[..WordLength(pieces)])] + WordsAfter(false, "", pieces[WordLength(pieces)..])
    decreases |pieces|
  {
    var n := WordLength(pieces);
    if n == 0 {
      assert pieces[..0] == [] && pieces[0..] == pieces && current + "" == current;
      assert [current] + [] == [current];
    } else {
      var rest := pieces[1..];
      WordsAfterWord(current + StretchValue(pieces[0]), rest);
      assert pieces[..n][1..] == rest[..n - 1] && rest[n - 1..] == pieces[n..];
      Associative(current, StretchValue(pieces[0]), WordValue(rest[..n - 1]));
    }
  }

  lemma {:induction false} WordsFromStart(pieces: seq<Stretch>)
    ensures WordsAfter(false, "", pieces) == Words(pieces)
    decreases |pieces|
  {
    if pieces != [] {
      if pieces[0].Space? {
        WordsFromStart(pieces[1..]);
        assert [] + Words(pieces[1..]) == Words(pieces[1..]);
      } else {
        var n := WordLength(pieces);
        WordsFromStart(pieces[n..]);
        WordsAfterWord("" + StretchValue(pieces[0]), pieces[1..]);
        assert pieces[..n][1..] == pieces[1..][..n - 1] && pieces[1..][n - 1..] == pieces[n..];
        assert "" + StretchValue(pieces[0]) == StretchValue(pieces[0]);
      }
    }
  }

  lemma {:induction false} ScanMarks(marks: seq<Mark>, rest: string, st: ScanState)
    requires st.quote.Double? && forall m :: m in marks ==> LegalMark(m)
    ensures ScanFrom(MarksText(marks) + ("\"" + rest), st)
         == ScanFrom(rest, st.(current := st.current + MarksValue(marks), quote := Unquoted))
    decreases |marks|
  {
    if marks == [] {
      assert MarksText(marks) + ("\"" + rest) == "\"" + rest && ("\"" + rest)[1..] == rest;
      assert st.current + "" == st.current;
    } else {
      var more := MarksText(marks[1..]) + ("\"" + rest);
      ScanMark(marks[0], more, st);
      Associative(MarkText(marks[0]), MarksText(marks[1..]), "\"" + rest);
      ScanMarks(marks[1..], rest, st.(current := st.current + [marks[0].c]));
      Associative(st.current, [marks[0].c], MarksValue(marks[1..]));
    }
  }

  lemma {:induction false} ScanMark(m: Mark, more: string, st: ScanState)
    requires st.quote.Double? && LegalMark(m) && more != ""
    ensures ScanFrom(MarkText(m) + more, st) == ScanFrom(more, st.(current := st.current + [m.c]))
  {
    var s := MarkText(m) + more;
    assert m.Plain? ==> s[0] == m.c && s[1..] == more;
    assert m.Behind? ==> s[0] == '\\' && s[1] == m.c && s[2..] == more;
  }

  lemma {:induction false} ScanSingled(text: string, rest: string, st: ScanState)
    requires st.quote.Single? && '\'' !in text
    ensures ScanFrom(text + ("'" + rest), st) == ScanFrom(rest, st.(current := st.current + text, quote := Unquoted))
    decreases |text|
  {
    if text == "" {
      assert text + ("'" + rest) == "'" + rest && ("'" + rest)[1..] == rest;
      assert st.current + "" == st.current;
    } else {
      assert (text + ("'" + rest))[0] == text[0] && (text + ("'" + rest))[1..] == text[1..] + ("'" + rest);
      ScanSingled(text[1..], rest, st.(current := st.current + [text[0]]));
      assert (st.current + [text[0]]) + text[1..] == st.current + text;
    }
  }

  /** What has been read so far, apart from shell syntax. */
  predicate ReadSoFar(st: ScanState, tokens: seq<string>, begun: bool, current: string) {
    st.quote.Unquoted? && st.tokens == tokens && st.current == current && (Begun(st) <==> begun)
  }

  function Opened(st: ScanState, q: Quote): ScanState {
    st.(quote := q, started := true)
  }

  lemma {:induction false} ScanOpening(double: bool, more: string, st: ScanState)
    requires st.quote.Unquoted?
    ensures ScanFrom((if double then "\"" else "'") + more, st) == ScanFrom(more, Opened(st, if double then Double else Single))
  {
    var s := (if double then "\"" else "'") + more;
    assert s[1..] == more;
  }

  lemma {:induction false} ScanQuoted(p: Stretch, rest: string, st: ScanState) returns (after: ScanState)
    requires st.quote.Unquoted? && LegalStretch(p) && (p.Doubled? || p.Singled?)
    ensures ScanFrom(StretchText(p) + rest, st) == ScanFrom(rest, after)
    ensures ReadSoFar(after, st.tokens, true, st.current + StretchValue(p))
  {
    if p.Doubled? {
      Associative("\"", MarksText(p.marks) + "\"", rest);
      Associative(MarksText(p.marks), "\"", rest);
      ScanOpening(true, MarksText(p.marks) + ("\"" + rest), st);
      ScanMarks(p.marks, rest, Opened(st, Double));
    } else {
      Associative("'", p.text + "'", rest);
      Associative(p.text, "'", rest);
      ScanOpening(false, p.text + ("'" + rest), st);
      ScanSingled(p.text, rest, Opened(st, Single));
    }
    after := st.(current := st.current + StretchValue(p), quote := Unquoted, started := true);
  }

  lemma {:induction false} ScanStretch(p: Stretch, rest: string, st: ScanState) returns (after: ScanState)
    requires st.quote.Unquoted? && LegalStretch(p)
    ensures ScanFrom(StretchText(p) + rest, st) == ScanFrom(rest, after)
    ensures if p.Space? then ReadSoFar(after, st.tokens + (if Begun(st) then [st.current] else []), false, "")
            else ReadSoFar(after, st.tokens, true, st.current + StretchValue(p))
  {
    if p.Doubled? || p.Singled? {
      after := ScanQuoted(p, rest, st);
    } else {
      var s := [p.c] + rest;
      assert s[0] == p.c && s[1..] == rest;
      after := StepAt(s, st);
      assert st.tokens + [] == st.tokens;
    }
  }

  lemma {:induction false} ScanPieces(pieces: seq<Stretch>, st: ScanState)
    requires st.quote.Unquoted? && LegalPieces(pieces)
    ensures ScanFrom(CommandText(pieces), st).Scanned?
    ensures ScanFrom(CommandText(pieces), st).tokens == st.tokens + WordsAfter(Begun(st), st.current, pieces)
    decreases |pieces|
  {
    if pieces == [] {
      assert st.tokens + [] == st.tokens;
    } else {
      var after := ScanStretch(pieces[0], CommandText(pieces[1..]), st);
      ScanPieces(pieces[1..], after);
      Associative(st.tokens, if Begun(st) then [st.current] else [], WordsAfter(false, "", pieces[1..]));
    }
  }

  // ---------------------------------------------------------- every command has pieces

  lemma {:induction false} FindClosingDouble(s: string, st: ScanState) returns (marks: seq<Mark>, rest: string)
    requires st.quote.Double? && Balanced(s, Double)
    ensures s == MarksText(marks) + ("\"" + rest) && |rest| < |s| && Balanced(rest, Unquoted)
    ensures forall m :: m in marks ==> LegalMark(m)
    decreases |s|
  {
    if s[0] == '"' {
      marks, rest := [], s[1..];
      assert s == "" + ("\"" + rest);
    } else {
      var n := Taken(s, Double);
      var one := if n == 2 then Behind(s[1]) else Plain(s[0]);
      LoneBackslash(s);
      marks, rest := FindClosingDouble(s[n..], st);
      assert s == MarkText(one) + s[n..];
      DropFirst(one, marks);
      Associative(MarkText(one), MarksText(marks), "\"" + rest);
      marks := [one] + marks;
    }
  }

  lemma {:induction false} LoneBackslash(s: string)
    requires s != "" && Balanced(s, Double) && s[0] != '"'
    ensures s[0] == '\\' ==> Taken(s, Double) == 2
  {
    assert s[1..] != "" ==> |s| > 1;
  }

  lemma {:induction false} FindClosingSingle(s: string) returns (text: string, rest: string)
    requires Balanced(s, Single)
    ensures s == text + ("'" + rest) && |rest| < |s| && Balanced(rest, Unquoted) && '\'' !in text
  {
    if s[0] == '\'' {
      text, rest := "", s[1..];
      assert s == "" + ("'" + rest);
    } else {
      text, rest := FindClosingSingle(s[1..]);
      assert s == ([s[0]] + text) + ("'" + rest);
      text := [s[0]] + text;
    }
  }

  lemma {:induction false} FirstPiece(s: string) returns (p: Stretch, rest: string)
    requires s != "" && Balanced(s, Unquoted)
    ensures LegalStretch(p) && s == StretchText(p) + rest && |rest| < |s| && Balanced(rest, Unquoted)
  {
    if s[0] == '"' {
      var marks, after := FindClosingDouble(s[1..], INITIAL.(quote := Double));
      p, rest := Doubled(marks), after;
      assert s == "\"" + s[1..];
      Associative("\"", MarksText(marks) + "\"", rest);
      Associative(MarksText(marks), "\"", rest);
    } else if s[0] == '\'' {
      var text, after := FindClosingSingle(s[1..]);
      p, rest := Singled(text), after;
      assert s == "'" + s[1..];
      Associative("'", text + "'", rest);
      Associative(text, "'", rest);
    } else {
      p, rest := if IsSpace(s[0]) then Space(s[0]) else Letter(s[0]), s[1..];
      assert s == [s[0]] + rest;
    }
  }

  lemma {:induction false} PiecesOf(s: string) returns (pieces: seq<Stretch>)
    requires Balanced(s, Unquoted)
    ensures LegalPieces(pieces) && CommandText(pieces) == s
    decreases |s|
  {
    if s == "" {
      pieces := [];
    } else {
      var p, rest := FirstPiece(s);
      var more := PiecesOf(rest);
      DropFirst(p, more);
      pieces := [p] + more;
    }
  }

  /** For every command: it scans to these words if and only if it can be taken apart into
      blanks, characters and quoted stretches between which those are the words. */
  lemma {:induction false} ScanReadsWords(command: string, words: seq<string>)
    ensures (ScanOf(command).Scanned? && ScanOf(command).tokens == words)
       <==> exists pieces :: LegalPieces(pieces) && CommandText(pieces) == command && Words(pieces) == words
  {
    forall pieces | LegalPieces(pieces) && CommandText(pieces) == command
      ensures ScanOf(command).Scanned? && ScanOf(command).tokens == Words(pieces)
    {
      ScanPieces(pieces, INITIAL);
      WordsFromStart(pieces);
      assert [] + Words(pieces) == Words(pieces);
    }
    ScansWhenBalanced(command, INITIAL);
    if ScanOf(command).Scanned? {
      var pieces := PiecesOf(command);
    }
  }

  // ---------------------------------------------------------- shell syntax, by its spellings

  /** What the runner refuses outside quotes. */
  function ShellSyntax(): set<string> {
    {"|", "&", ";", "<", ">", "`", "\n", "\r", "$(", "${"}
  }

  lemma {:induction false} SyntaxIsSpelled(s: string, found: string)
    requires s != ""
    ensures SyntaxAt(s) == Some(found) <==> found in ShellSyntax() && found <= s
    ensures SyntaxAt(s).None? ==> !(found in ShellSyntax() && found <= s)
  {
    if found in ShellSyntax() && found <= s {
      assert s[..|found|] == found && s[0] == found[0];
    }
    if SyntaxAt(s) == Some(found) {
      assert |found| == 1 ==> found == [s[0]] && s[..1] == found;
      assert |found| == 2 ==> s[..2] == found;
    }
  }

  /** This piece of shell syntax stands at `i`, outside quotes. */
  predicate StandsAt(command: string, found: string, i: nat) {
    i < |command| && Outside(command, i, Unquoted) && found in ShellSyntax() && found <= command[i..]
  }

  /** A scan reports a piece of shell syntax exactly when it is the first that stands outside
      quotes. */
  lemma {:induction false} SyntaxReported(command: string, found: string)
    requires ScanOf(command).Scanned?
    ensures ScanOf(command).shellSyntax == Some(found)
       <==> exists i :: StandsAt(command, found, i) && forall j, other :: j < i ==> !StandsAt(command, other, j)
  {
    var i := SyntaxIsFirst(command, INITIAL);
    if ScanOf(command).shellSyntax.Some? {
      forall j: nat, other | j < i ensures !StandsAt(command, other, j) {
        if Outside(command, j, Unquoted) {
          SyntaxIsSpelled(command[j..], other);
        }
      }
      var first := ScanOf(command).shellSyntax.value;
      SyntaxIsSpelled(command[i..], first);
      assert StandsAt(command, first, i);
      forall k: nat | StandsAt(command, found, k) && forall j: nat, other :: j < k ==> !StandsAt(command, other, j)
        ensures found == first
      {
        assert !(i < k);
        SyntaxIsSpelled(command[k..], found);
      }
    } else {
      forall j: nat | StandsAt(command, found, j) ensures false {
        SyntaxIsSpelled(command[j..], found);
      }
    }
  }

  // ---------------------------------------------------------- the quote that stays open

  lemma {:induction false} OutsideLater(s: string, q: Quote, i: nat)
    requires s != "" && Taken(s, q) <= i < |s|
    ensures Outside(s, i, q) <==> Outside(s[Taken(s, q)..], i - Taken(s, q), QuoteAfter(s, q))
  {
  }

  /** The quote opens outside quotes, and nothing after it is outside again. */
  predicate StaysOpen(s: string, q: Quote, i: nat) {
    i < |s| && Outside(s, i, q) && forall j: nat :: i < j < |s| ==> !Outside(s, j, q)
  }

  lemma {:induction false} OpenQuote(s: string, st: ScanState) returns (i: nat)
    requires ScanFrom(s, st).Unbalanced?
    ensures (StaysOpen(s, st.quote, i) && s[i] == ScanFrom(s, st).quote)
         || (!st.quote.Unquoted? && QuoteChar(st.quote) == ScanFrom(s, st).quote
             && forall j: nat :: j < |s| ==> !Outside(s, j, st.quote))
    decreases |s|
  {
    i := 0;
    if s != "" {
      var n := Taken(s, st.quote);
      var rest, after := s[n..], StepAt(s, st);
      StepQuote(s, st);
      var k := OpenQuote(rest, after);
      forall j: nat | n <= j < |s| ensures Outside(s, j, st.quote) <==> Outside(rest, j - n, after.quote) {
        OutsideLater(s, st.quote, j);
      }
      if StaysOpen(rest, after.quote, k) && rest[k] == ScanFrom(s, st).quote {
        i := k + n;
      } else if st.quote.Unquoted? {
        assert n == 1 && s[0] == QuoteChar(after.quote);
        forall j: nat | 0 < j < |s| ensures !Outside(s, j, st.quote) {
          assert !Outside(rest, j - n, after.quote);
        }
      } else {
        assert after.quote == st.quote;
        forall j: nat | j < |s| ensures !Outside(s, j, st.quote) {
          assert n <= j ==> !Outside(rest, j - n, after.quote);
        }
      }
    }
  }

  /** A scan fails exactly when some quote opens outside quotes and nothing after it is outside
      again; and that quote is the one reported. */
  lemma {:induction false} OpenQuoteReported(command: string)
    ensures ScanOf(command).Unbalanced? ==>
              exists i: nat :: StaysOpen(command, Unquoted, i) && command[i] == ScanOf(command).quote
                          && (command[i] == '"' || command[i] == '\'')
  {
    if ScanOf(command).Unbalanced? {
      var i := OpenQuote(command, INITIAL);
      ReportsQuote(command, INITIAL);
    }
  }

  lemma {:induction false} ReportsQuote(s: string, st: ScanState)
    requires ScanFrom(s, st).Unbalanced?
    ensures ScanFrom(s, st).quote == '"' || ScanFrom(s, st).quote == '\''
    decreases |s|
  {
    if s != "" {
      ReportsQuote(s[Taken(s, st.quote)..], StepAt(s, st));
    }
  }
}
