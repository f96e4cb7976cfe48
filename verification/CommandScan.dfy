/** The command lexer: quotes, escapes, blanks, and shell syntax outside quotes. */
module CommandScan {
  import opened Options
  import opened Text
  import opened Sequences

  datatype Quote = Unquoted | Double | Single

  /** The loop variables of the scan. */
  datatype ScanState = ScanState(tokens: seq<string>, current: string, quote: Quote, started: bool,
                                 shellSyntax: Option<string>)

  datatype Scan = Scanned(tokens: seq<string>, shellSyntax: Option<string>) | Unbalanced(quote: char)

  const INITIAL := ScanState([], "", Unquoted, false, None)

  function QuoteChar(q: Quote): char {
    if q.Double? then '"' else '\''
  }

  predicate IsMetacharacter(c: char) {
    c in "|&;<>`\n\r"
  }

  /** The shell syntax that starts at the front of `s`, if any. */
  function SyntaxAt(s: string): Option<string>
    requires s != ""
  {
    if IsMetacharacter(s[0]) then Some([s[0]])
    else if s[0] == '$' && |s| > 1 && (s[1] == '(' || s[1] == '{') then Some(['$', s[1]])
    else None
  }

  /** Ends the token being read, when there is one. */
  function EndToken(st: ScanState): ScanState {
    if st.started || st.current != "" then st.(tokens := st.tokens + [st.current], current := "", started := false)
    else st
  }

  predicate EscapeAt(s: string, q: Quote) {
    |s| > 1 && s[0] == '\\' && q.Double?
  }

  function StepAt(s: string, st: ScanState): ScanState
    requires s != ""
  {
    if !st.quote.Unquoted? then
      if s[0] == QuoteChar(st.quote) then st.(quote := Unquoted)
      else if EscapeAt(s, st.quote) then st.(current := st.current + [s[1]])
      else st.(current := st.current + [s[0]])
    else if s[0] == '"' || s[0] == '\'' then st.(quote := if s[0] == '"' then Double else Single, started := true)
    else
      var st' := if st.shellSyntax.None? then st.(shellSyntax := SyntaxAt(s)) else st;
      if IsSpace(s[0]) then EndToken(st') else st'.(current := st'.current + [s[0]])
  }

  /** How many characters a step reads. */
  function Taken(s: string, q: Quote): (n: nat)
    requires s != ""
    ensures 0 < n <= |s|
  {
    if EscapeAt(s, q) then 2 else 1
  }

  function ScanFrom(s: string, st: ScanState): Scan
    decreases |s|
  {
    if s != "" then ScanFrom(s[Taken(s, st.quote)..], StepAt(s, st))
    else if !st.quote.Unquoted? then Unbalanced(QuoteChar(st.quote))
    else Scanned(EndToken(st).tokens, st.shellSyntax)
  }

  function ScanOf(command: string): Scan {
    ScanFrom(command, INITIAL)
  }

  method ScanCommand(command: string) returns (scan: Scan)
    ensures scan == ScanOf(command)
  {
    var tokens: seq<string>, current, quote, started := [], "", Unquoted, false;
    var shellSyntax: Option<string> := None;
    var index := 0;
    while index < |command|
      invariant 0 <= index <= |command|
      invariant ScanOf(command) == ScanFrom(command[index..], ScanState(tokens, current, quote, started, shellSyntax))
    {
      ghost var s, st := command[index..], ScanState(tokens, current, quote, started, shellSyntax);
      assert s[Taken(s, quote)..] == command[index + Taken(s, quote)..];
      var character := command[index];
      if quote != Unquoted {
        if character == QuoteChar(quote) {
          quote := Unquoted;
        } else if character == '\\' && quote == Double && index + 1 < |command| {
          index := index + 1;
          current := current + [command[index]];
        } else {
          current := current + [character];
        }
      } else if character == '"' || character == '\'' {
        quote := if character == '"' then Double else Single;
        started := true;
      } else {
        if shellSyntax == None {
          if IsMetacharacter(character) {
            shellSyntax := Some([character]);
          } else if character == '$' && index + 1 < |command| && (command[index + 1] == '(' || command[index + 1] == '{') {
            shellSyntax := Some(['$', command[index + 1]]);
          }
        }
        if IsSpace(character) {
          if started || |current| > 0 {
            tokens := tokens + [current];
            current := "";
            started := false;
          }
        } else {
          current := current + [character];
        }
      }
      assert StepAt(s, st) == ScanState(tokens, current, quote, started, shellSyntax);
      index := index + 1;
    }
    if quote != Unquoted {
      return Unbalanced(QuoteChar(quote));
    }
    if started || |current| > 0 {
      tokens := tokens + [current];
    }
    return Scanned(tokens, shellSyntax);
  }

  // ---------------------------------------------------------- shell syntax

  /** The quote in force at the front of what is left after `n` characters. */
  function QuoteAfter(s: string, q: Quote): Quote
    requires s != ""
  {
    if !q.Unquoted? then (if s[0] == QuoteChar(q) then Unquoted else q)
    else if s[0] == '"' then Double else if s[0] == '\'' then Single else q
  }

  /** Character `i` is read as it stands, outside any quotes. */
  predicate Outside(s: string, i: nat, q: Quote)
    requires i < |s|
    decreases |s|
  {
    if i == 0 then q.Unquoted?
    else Taken(s, q) <= i && Outside(s[Taken(s, q)..], i - Taken(s, q), QuoteAfter(s, q))
  }

  /** No quote is open at the end. */
  predicate Balanced(s: string, q: Quote)
    decreases |s|
  {
    if s == "" then q.Unquoted? else Balanced(s[Taken(s, q)..], QuoteAfter(s, q))
  }

  lemma {:induction false} StepQuote(s: string, st: ScanState)
    requires s != ""
    ensures StepAt(s, st).quote == QuoteAfter(s, st.quote)
    ensures StepAt(s, st).shellSyntax ==
            if st.quote.Unquoted? && st.shellSyntax.None? then SyntaxAt(s) else st.shellSyntax
  {
  }

  lemma {:induction false} ScansWhenBalanced(s: string, st: ScanState)
    ensures ScanFrom(s, st).Scanned? <==> Balanced(s, st.quote)
    decreases |s|
  {
    if s != "" {
      StepQuote(s, st);
      ScansWhenBalanced(s[Taken(s, st.quote)..], StepAt(s, st));
    }
  }

  /** Position `i` holds shell syntax, and no earlier position outside quotes does. */
  ghost predicate FirstSyntax(s: string, q: Quote, i: nat) {
    && i < |s| && Outside(s, i, q) && SyntaxAt(s[i..]).Some?
    && forall j: nat :: j < i && Outside(s, j, q) ==> SyntaxAt(s[j..]).None?
  }

  lemma {:induction false} FirstSyntaxLater(s: string, q: Quote, i: nat)
    requires s != "" && (q.Unquoted? ==> SyntaxAt(s).None?)
    requires FirstSyntax(s[Taken(s, q)..], QuoteAfter(s, q), i)
    ensures FirstSyntax(s, q, i + Taken(s, q))
  {
    var n := Taken(s, q);
    var rest, q' := s[n..], QuoteAfter(s, q);
    assert rest[i..] == s[i + n..];
    forall j: nat | j < i + n && Outside(s, j, q) ensures SyntaxAt(s[j..]).None? {
      if j == 0 {
        assert s[0..] == s;
      } else {
        assert Outside(rest, j - n, q') && rest[j - n..] == s[j..];
      }
    }
  }

  lemma {:induction false} SyntaxIsFirst(s: string, st: ScanState) returns (i: nat)
    requires st.shellSyntax.None? && ScanFrom(s, st).Scanned?
    ensures ScanFrom(s, st).shellSyntax.Some? ==>
              FirstSyntax(s, st.quote, i) && ScanFrom(s, st).shellSyntax == SyntaxAt(s[i..])
    ensures ScanFrom(s, st).shellSyntax.None? ==>
              forall j: nat :: j < |s| && Outside(s, j, st.quote) ==> SyntaxAt(s[j..]).None?
    decreases |s|
  {
    i := 0;
    if s != "" {
      assert s[0..] == s;
      StepQuote(s, st);
      var n := Taken(s, st.quote);
      var rest, st' := s[n..], StepAt(s, st);
      if st'.shellSyntax.Some? {
        SyntaxSticks(rest, st');
      } else {
        var k := SyntaxIsFirst(rest, st');
        i := k + n;
        if ScanFrom(s, st).shellSyntax.Some? {
          FirstSyntaxLater(s, st.quote, k);
          assert rest[k..] == s[i..];
        } else {
          forall j: nat | j < |s| && Outside(s, j, st.quote) ensures SyntaxAt(s[j..]).None? {
            if j > 0 {
              assert Outside(rest, j - n, st'.quote) && rest[j - n..] == s[j..];
            }
          }
        }
      }
    }
  }

  lemma {:induction false} SyntaxSticks(s: string, st: ScanState)
    requires st.shellSyntax.Some? && ScanFrom(s, st).Scanned?
    ensures ScanFrom(s, st).shellSyntax == st.shellSyntax
    decreases |s|
  {
    if s != "" {
      SyntaxSticks(s[Taken(s, st.quote)..], StepAt(s, st));
    }
  }

  /** The scan succeeds exactly when every quote closes, and then reports the first piece
      of shell syntax outside quotes, or nothing when there is none. */
  lemma {:induction false} ShellSyntaxIsFirstOutside(command: string)
    ensures ScanOf(command).Scanned? <==> Balanced(command, Unquoted)
    ensures ScanOf(command).Scanned? && ScanOf(command).shellSyntax.Some? ==>
              exists i: nat :: FirstSyntax(command, Unquoted, i) && ScanOf(command).shellSyntax == SyntaxAt(command[i..])
    ensures ScanOf(command).Scanned? && ScanOf(command).shellSyntax.None? ==>
              forall j: nat :: j < |command| && Outside(command, j, Unquoted) ==> SyntaxAt(command[j..]).None?
  {
    ScansWhenBalanced(command, INITIAL);
    if ScanOf(command).Scanned? {
      var i := SyntaxIsFirst(command, INITIAL);
    }
  }

  // ---------------------------------------------------------- quoting and back

  /** A stretch of an argument and the way it is written. */
  datatype Piece = Bare(text: string) | InDouble(text: string) | InSingle(text: string)

  function EscapedChar(c: char): string {
    if c == '"' || c == '\\' then ['\\', c] else [c]
  }

  function Escaped(text: string): string {
    if text == "" then "" else EscapedChar(text[0]) + Escaped(text[1..])
  }

  function Written(p: Piece): string {
    match p
    case Bare(text) => text
    case InDouble(text) => "\"" + (Escaped(text) + "\"")
    case InSingle(text) => "'" + (text + "'")
  }

  predicate BareChar(c: char) {
    !IsSpace(c) && !IsMetacharacter(c) && c != '"' && c != '\''
  }

  /** Text that may go without quotes. */
  ghost predicate BareText(text: string) {
    && text != "" && (forall i :: 0 <= i < |text| ==> BareChar(text[i]))
    && (forall i, j :: 0 <= i < j < |text| && j == i + 1 && text[i] == '$' ==> text[j] != '(' && text[j] != '{')
  }

  ghost predicate LegalPiece(p: Piece) {
    (p.Bare? ==> BareText(p.text)) && (p.InSingle? ==> '\'' !in p.text)
  }

  /** A written argument: pieces with nothing between them, no two bare ones adjacent. */
  ghost predicate LegalWord(w: seq<Piece>) {
    && w != [] && (forall i :: 0 <= i < |w| ==> LegalPiece(w[i]))
    && (forall i, j :: 0 <= i < j < |w| && j == i + 1 ==> !(w[i].Bare? && w[j].Bare?))
  }

  function WordText(w: seq<Piece>): string {
    if w == [] then "" else Written(w[0]) + WordText(w[1..])
  }

  /** The argument a word stands for. */
  function Argument(w: seq<Piece>): string {
    if w == [] then "" else w[0].text + Argument(w[1..])
  }

  predicate Blank(s: string) {
    forall i :: 0 <= i < |s| ==> s[i] == ' ' || s[i] == '\t'
  }

  /** A word and the blanks after it. */
  datatype Spaced = Spaced(word: seq<Piece>, gap: string)

  /** Legal words, with at least one blank between neighbours. */
  ghost predicate LegalLine(line: seq<Spaced>) {
    && (forall i :: 0 <= i < |line| ==> LegalWord(line[i].word) && Blank(line[i].gap))
    && (forall i :: 0 <= i < |line| - 1 ==> line[i].gap != "")
  }

  function LineText(line: seq<Spaced>): string {
    if line == [] then "" else WordText(line[0].word) + (line[0].gap + LineText(line[1..]))
  }

  function Arguments(line: seq<Spaced>): seq<string> {
    if line == [] then [] else [Argument(line[0].word)] + Arguments(line[1..])
  }

  lemma {:induction false} ScanEscapedChar(c: char, tail: string, st: ScanState)
    requires st.quote.Double?
    ensures ScanFrom(EscapedChar(c) + tail, st) == ScanFrom(tail, st.(current := st.current + [c]))
  {
    var s := EscapedChar(c) + tail;
    if c == '"' || c == '\\' {
      assert s[2..] == tail;
    } else {
      assert s[1..] == tail;
    }
  }

  lemma {:induction false} ScanEscaped(text: string, rest: string, st: ScanState)
    requires st.quote.Double?
    ensures ScanFrom(Escaped(text) + ("\"" + rest), st)
         == ScanFrom(rest, st.(current := st.current + text, quote := Unquoted))
    decreases |text|
  {
    var tail := "\"" + rest;
    if text == "" {
      assert Escaped(text) + tail == tail;
      assert tail[1..] == rest;
      assert st.current + text == st.current;
    } else {
      var st' := st.(current := st.current + [text[0]]);
      assert Escaped(text) + tail == EscapedChar(text[0]) + (Escaped(text[1..]) + tail);
      ScanEscapedChar(text[0], Escaped(text[1..]) + tail, st);
      ScanEscaped(text[1..], rest, st');
      assert (st.current + [text[0]]) + text[1..] == st.current + text;
    }
  }

  lemma {:induction false} ScanSingle(text: string, rest: string, st: ScanState)
    requires st.quote.Single? && '\'' !in text
    ensures ScanFrom(text + ("'" + rest), st)
         == ScanFrom(rest, st.(current := st.current + text, quote := Unquoted))
    decreases |text|
  {
    var tail := "'" + rest;
    if text == "" {
      assert text + tail == tail;
      assert tail[1..] == rest;
      assert st.current + text == st.current;
    } else {
      var s := text + tail;
      var st' := st.(current := st.current + [text[0]]);
      assert s[Taken(s, Single)..] == text[1..] + tail && StepAt(s, st) == st';
      ScanSingle(text[1..], rest, st');
      assert st.current + [text[0]] + text[1..] == st.current + text;
    }
  }

  /** What follows bare text: a quote, a blank or nothing. */
  predicate EndsBare(rest: string) {
    rest == "" || rest[0] == '"' || rest[0] == '\'' || rest[0] == ' ' || rest[0] == '\t'
  }

  lemma {:induction false} ScanBare(text: string, rest: string, st: ScanState)
    requires st.quote.Unquoted? && st.shellSyntax.None? && EndsBare(rest) && (text == "" || BareText(text))
    ensures ScanFrom(text + rest, st) == ScanFrom(rest, st.(current := st.current + text))
    decreases |text|
  {
    if text == "" {
      assert text + rest == rest;
      assert st.current + text == st.current;
    } else {
      var s := text + rest;
      var st' := st.(current := st.current + [text[0]]);
      assert BareChar(text[0]) && s[0] == text[0];
      assert |s| > 1 && s[0] == '$' ==> s[1] != '(' && s[1] != '{' by {
        if |text| > 1 { assert s[1] == text[1]; }
      }
      assert StepAt(s, st) == st' && s[Taken(s, Unquoted)..] == text[1..] + rest;
      assert text[1..] == "" || BareText(text[1..]) by {
        forall i | 0 <= i < |text[1..]| ensures BareChar(text[1..][i]) {
          assert text[1..][i] == text[i + 1];
        }
      }
      ScanBare(text[1..], rest, st');
      assert st.current + [text[0]] + text[1..] == st.current + text;
    }
  }

  lemma {:induction false} ScanPiece(p: Piece, rest: string, st: ScanState)
    requires st.quote.Unquoted? && st.shellSyntax.None? && LegalPiece(p) && (p.Bare? ==> EndsBare(rest))
    ensures ScanFrom(Written(p) + rest, st) == ScanFrom(rest, AfterPiece(st, p))
  {
    match p
    case Bare(text) => ScanBare(text, rest, st);
    case InDouble(text) =>
      var s := Written(p) + rest;
      assert s[1..] == Escaped(text) + ("\"" + rest);
      ScanEscaped(text, rest, st.(quote := Double, started := true));
    case InSingle(text) =>
      var s := Written(p) + rest;
      assert s[1..] == text + ("'" + rest);
      ScanSingle(text, rest, st.(quote := Single, started := true));
  }

  /** A token has begun, even if it is still empty. */
  predicate Begun(st: ScanState) {
    st.started || st.current != ""
  }

  /** After a bare piece comes a quote, or whatever comes after the word. */
  lemma {:induction false} BarePieceEnds(w: seq<Piece>, rest: string)
    requires LegalWord(w) && EndsBare(rest) && w[0].Bare?
    ensures EndsBare(WordText(w[1..]) + rest)
  {
    if |w| == 1 {
      assert WordText(w[1..]) + rest == rest;
    } else {
      assert !w[1].Bare?;
      assert WordText(w[1..]) == Written(w[1]) + WordText(w[1..][1..]);
    }
  }

  lemma {:induction false} LegalTail(w: seq<Piece>)
    requires LegalWord(w) && |w| > 1
    ensures LegalWord(w[1..])
  {
    var t := w[1..];
    forall i, j | 0 <= i < j < |t| && j == i + 1 ensures !(t[i].Bare? && t[j].Bare?) {
      assert w[i + 1] == t[i] && w[j + 1] == t[j];
    }
  }

  function AfterPiece(st: ScanState, p: Piece): ScanState {
    st.(current := st.current + p.text, started := st.started || !p.Bare?)
  }

  function AfterWord(st: ScanState, w: seq<Piece>): ScanState
    decreases |w|
  {
    if w == [] then st else AfterWord(AfterPiece(st, w[0]), w[1..])
  }

  lemma {:induction false} AfterWordHolds(st: ScanState, w: seq<Piece>)
    requires forall i :: 0 <= i < |w| ==> LegalPiece(w[i])
    ensures AfterWord(st, w).tokens == st.tokens && AfterWord(st, w).current == st.current + Argument(w)
    ensures AfterWord(st, w).quote == st.quote && AfterWord(st, w).shellSyntax == st.shellSyntax
    ensures w != [] || Begun(st) ==> Begun(AfterWord(st, w))
    decreases |w|
  {
    if w == [] {
      assert st.current + Argument(w) == st.current;
    } else {
      assert LegalPiece(w[0]);
      AfterWordHolds(AfterPiece(st, w[0]), w[1..]);
      assert (st.current + w[0].text) + Argument(w[1..]) == st.current + Argument(w);
    }
  }

  lemma {:induction false} WordTextStep(w: seq<Piece>, rest: string)
    requires w != []
    ensures WordText(w) + rest == Written(w[0]) + (WordText(w[1..]) + rest)
  {
  }

  lemma {:induction false} ScanFirstPiece(w: seq<Piece>, rest: string, st: ScanState)
    requires st.quote.Unquoted? && st.shellSyntax.None? && LegalWord(w) && EndsBare(rest)
    ensures ScanFrom(WordText(w) + rest, st) == ScanFrom(WordText(w[1..]) + rest, AfterPiece(st, w[0]))
  {
    assert LegalPiece(w[0]);
    WordTextStep(w, rest);
    if w[0].Bare? {
      BarePieceEnds(w, rest);
    }
    ScanPiece(w[0], WordText(w[1..]) + rest, st);
  }

  lemma {:induction false} ScanWord(w: seq<Piece>, rest: string, st: ScanState)
    requires st.quote.Unquoted? && st.shellSyntax.None? && LegalWord(w) && EndsBare(rest)
    ensures ScanFrom(WordText(w) + rest, st) == ScanFrom(rest, AfterWord(st, w))
    decreases |w|
  {
    ScanFirstPiece(w, rest, st);
    if |w| == 1 {
      assert WordText(w[1..]) + rest == rest;
      assert AfterWord(st, w) == AfterPiece(st, w[0]);
    } else {
      LegalTail(w);
      ScanWord(w[1..], rest, AfterPiece(st, w[0]));
    }
  }

  lemma {:induction false} ScanGap(gap: string, rest: string, st: ScanState)
    requires Blank(gap) && st.quote.Unquoted? && st.shellSyntax.None?
    ensures ScanFrom(gap + rest, st) == ScanFrom(rest, if gap == "" then st else EndToken(st))
    decreases |gap|
  {
    if gap == "" {
      assert gap + rest == rest;
    } else {
      var s := gap + rest;
      assert s[Taken(s, Unquoted)..] == gap[1..] + rest && StepAt(s, st) == EndToken(st);
      ScanGap(gap[1..], rest, EndToken(st));
    }
  }

  /** A word and its gap end one token, unless the line ends with the word. */
  lemma {:induction false} ScanSpaced(one: Spaced, rest: string, st: ScanState)
    requires LegalWord(one.word) && Blank(one.gap) && (one.gap == "" ==> rest == "")
    requires st.quote.Unquoted? && st.shellSyntax.None? && !Begun(st)
    ensures ScanFrom(WordText(one.word) + (one.gap + rest), st)
         == ScanFrom(rest, INITIAL.(tokens := st.tokens + [Argument(one.word)]))
  {
    var st' := AfterWord(st, one.word);
    AfterWordHolds(st, one.word);
    ScanWord(one.word, one.gap + rest, st);
    ScanGap(one.gap, rest, st');
    assert "" + Argument(one.word) == Argument(one.word);
    assert EndToken(st') == INITIAL.(tokens := st.tokens + [Argument(one.word)]);
  }

  lemma {:induction false} ScanFirstWord(line: seq<Spaced>, tokens: seq<string>)
    requires LegalLine(line) && line != []
    ensures ScanFrom(LineText(line), INITIAL.(tokens := tokens))
         == ScanFrom(LineText(line[1..]), INITIAL.(tokens := tokens + [Argument(line[0].word)]))
  {
    if |line| > 1 {
      assert line[0].gap != "";
    } else {
      assert LineText(line[1..]) == "";
    }
    ScanSpaced(line[0], LineText(line[1..]), INITIAL.(tokens := tokens));
  }

  lemma {:induction false} LegalLineTail(line: seq<Spaced>)
    requires LegalLine(line) && line != []
    ensures LegalLine(line[1..])
  {
    assert forall i :: 0 <= i < |line[1..]| ==> line[1..][i] == line[i + 1];
  }

  lemma {:induction false} ScanLine(line: seq<Spaced>, tokens: seq<string>)
    requires LegalLine(line)
    ensures ScanFrom(LineText(line), INITIAL.(tokens := tokens)) == Scanned(tokens + Arguments(line), None)
    decreases |line|
  {
    if line == [] {
      assert tokens + Arguments(line) == tokens;
    } else {
      ScanFirstWord(line, tokens);
      LegalLineTail(line);
      ScanLine(line[1..], tokens + [Argument(line[0].word)]);
      Associative(tokens, [Argument(line[0].word)], Arguments(line[1..]));
    }
  }

  /** Lexing undoes quoting: any argument list, written with any mixture of quoting that
      is legal and blanks in between, scans back to that list and to no shell syntax. */
  lemma {:induction false} LexingUndoesQuoting(lead: string, line: seq<Spaced>)
    requires Blank(lead) && LegalLine(line)
    ensures ScanOf(lead + LineText(line)) == Scanned(Arguments(line), None)
  {
    ScanGap(lead, LineText(line), INITIAL);
    assert EndToken(INITIAL) == INITIAL == INITIAL.(tokens := []);
    ScanLine(line, []);
    assert [] + Arguments(line) == Arguments(line);
  }

  /** The arguments in double quotes, with a blank between each two. */
  function InQuotes(arguments: seq<string>): seq<Spaced> {
    if arguments == [] then []
    else [Spaced([InDouble(arguments[0])], if |arguments| == 1 then "" else " ")] + InQuotes(arguments[1..])
  }

  lemma {:induction false} InQuotesIsLegal(arguments: seq<string>)
    ensures |InQuotes(arguments)| == |arguments| && LegalLine(InQuotes(arguments)) && Arguments(InQuotes(arguments)) == arguments
  {
    if arguments != [] {
      var word, rest := [InDouble(arguments[0])], InQuotes(arguments[1..]);
      InQuotesIsLegal(arguments[1..]);
      DropFirst(InQuotes(arguments)[0], rest);
      assert word[1..] == [] && Argument(word) == arguments[0];
      assert LegalWord(word);
      assert [arguments[0]] + arguments[1..] == arguments;
    }
  }

  /** Any list of arguments at all can be written down: in double quotes it scans back to
      itself, empty arguments included. */
  lemma {:induction false} AnyArgumentsCanBeWritten(arguments: seq<string>)
    ensures ScanOf(LineText(InQuotes(arguments))) == Scanned(arguments, None)
  {
    InQuotesIsLegal(arguments);
    LexingUndoesQuoting("", InQuotes(arguments));
    assert "" + LineText(InQuotes(arguments)) == LineText(InQuotes(arguments));
  }
}
