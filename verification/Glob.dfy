/** The glob compiler. A glob has a meaning of its own, defined on its structure; the
    compiler turns its text into pattern text; the theorem is that the pattern reads
    back, and matches what the glob means. */
module Glob {
  import opened Options
  import opened RegExpPattern

  // ---------------------------------------------------------- globs and their meaning

  datatype Segments = Nothing | Then(prefix: Segments, last: Piece)

  datatype Piece =
    | Literal(c: char)
    | AnyOne                       // ?
    | AnyInSegment                 // *
    | AnyPath                      // **
    | AnyDirectories               // **/
    | Braces(alternatives: Alternatives)

  datatype Alternatives = Only(only: Segments) | Or(others: Alternatives, final: Segments)

  predicate OneTextLine(s: string) {
    forall c :: c in s ==> !LineTerminator(c)
  }

  /** What a glob matches. `**` crosses directory separators, `*` and `?` do not.
      `anyText` says whether `**` also crosses line terminators. */
  ghost predicate Means(g: Segments, s: string, anyText: bool) {
    match g
    case Nothing => s == ""
    case Then(p, l) => exists k :: 0 <= k <= |s| && Means(p, s[..k], anyText) && PieceMeans(l, s[k..], anyText)
  }

  ghost predicate PieceMeans(p: Piece, s: string, anyText: bool) {
    match p
    case Literal(c) => s == [c]
    case AnyOne => |s| == 1 && s[0] != '/'
    case AnyInSegment => '/' !in s
    case AnyPath => anyText || OneTextLine(s)
    case AnyDirectories => s == "" || (s[|s| - 1] == '/' && (anyText || OneTextLine(s)))
    case Braces(alternatives) => OneMeans(alternatives, s, anyText)
  }

  ghost predicate OneMeans(a: Alternatives, s: string, anyText: bool) {
    match a
    case Only(g) => Means(g, s, anyText)
    case Or(others, g) => OneMeans(others, s, anyText) || Means(g, s, anyText)
  }

  // ---------------------------------------------------------- reading a glob

  datatype Token = Dirs | Path | Stars | Question | Open | Close | Comma | Char(c: char)

  /** The token a glob starts with. */
  function FirstToken(g: string): Token
    requires g != ""
  {
    if g[0] == '*' then
      if |g| > 1 && g[1] == '*' then (if |g| > 2 && g[2] == '/' then Dirs else Path) else Stars
    else if g[0] == '?' then Question
    else if g[0] == '{' then Open
    else if g[0] == '}' then Close
    else if g[0] == ',' then Comma
    else Char(g[0])
  }

  function Size(t: Token): nat {
    match t
    case Dirs => 3
    case Path => 2
    case _ => 1
  }

  function AfterFirstToken(g: string): (rest: string)
    requires g != ""
    ensures |rest| < |g|
  {
    g[Size(FirstToken(g))..]
  }

  /** Brace depth after a token. Outside braces a `}` closes nothing. */
  function DepthAfter(t: Token, depth: nat): nat {
    match t
    case Open => depth + 1
    case Close => if depth > 0 then depth - 1 else 0
    case _ => depth
  }

  function FinalDepth(g: string, depth: nat): nat
    decreases |g|
  {
    if g == "" then depth else FinalDepth(AfterFirstToken(g), DepthAfter(FirstToken(g), depth))
  }

  /** Every brace that opens also closes. */
  predicate Balanced(g: string) {
    FinalDepth(g, 0) == 0
  }

  datatype GlobFrame = GlobFrame(finished: Option<Alternatives>, current: Segments)

  const NEW_GLOB_FRAME := GlobFrame(None, Nothing)

  function Finished(f: GlobFrame): Alternatives {
    if f.finished.Some? then Or(f.finished.value, f.current) else Only(f.current)
  }

  /** Open braces, outermost first; outside any brace nothing separates alternatives. */
  type GlobStack = s: seq<GlobFrame> | |s| > 0 && s[0].finished.None? witness [NEW_GLOB_FRAME]

  function Inner(stack: GlobStack): GlobFrame {
    stack[|stack| - 1]
  }

  function Append(stack: GlobStack, p: Piece): GlobStack {
    stack[..|stack| - 1] + [Inner(stack).(current := Then(Inner(stack).current, p))]
  }

  function GlobStep(stack: GlobStack, t: Token): GlobStack {
    match t
    case Dirs => Append(stack, AnyDirectories)
    case Path => Append(stack, AnyPath)
    case Stars => Append(stack, AnyInSegment)
    case Question => Append(stack, AnyOne)
    case Open => stack + [NEW_GLOB_FRAME]
    case Close =>
      if |stack| > 1 then Append(stack[..|stack| - 1], Braces(Finished(Inner(stack)))) else Append(stack, Literal('}'))
    case Comma =>
      if |stack| > 1 then stack[..|stack| - 1] + [GlobFrame(Some(Finished(Inner(stack))), Nothing)]
      else Append(stack, Literal(','))
    case Char(c) => Append(stack, Literal(c))
  }

  function ReadGlobFrom(g: string, stack: GlobStack): Option<Segments>
    decreases |g|
  {
    if g == "" then (if |stack| == 1 then Some(Inner(stack).current) else None)
    else ReadGlobFrom(AfterFirstToken(g), GlobStep(stack, FirstToken(g)))
  }

  /** The structure of a glob; `None` when a brace stays open. */
  function ReadGlob(g: string): Option<Segments> {
    ReadGlobFrom(g, [NEW_GLOB_FRAME])
  }

  lemma {:induction false} StepDepth(stack: GlobStack, t: Token)
    ensures |GlobStep(stack, t)| == DepthAfter(t, |stack| - 1) + 1
  {
  }

  lemma {:induction false} ReadsWhenClosed(g: string, stack: GlobStack)
    ensures ReadGlobFrom(g, stack).Some? <==> FinalDepth(g, |stack| - 1) == 0
    decreases |g|
  {
    if g != "" {
      StepDepth(stack, FirstToken(g));
      ReadsWhenClosed(AfterFirstToken(g), GlobStep(stack, FirstToken(g)));
    }
  }

  // ---------------------------------------------------------- the compiler

  function EscapeRegexChar(c: char): string {
    if c in "\\^$.|+()[]" then ['\\', c] else [c]
  }

  /** The pattern text for one token at a brace depth. */
  function Chunk(t: Token, depth: nat): string {
    match t
    case Dirs => "(?:.*/)?"
    case Path => ".*"
    case Stars => "[^/]*"
    case Question => "[^/]"
    case Open => "(?:"
    case Close => if depth > 0 then ")" else EscapeRegexChar('}')
    case Comma => if depth > 0 then "|" else EscapeRegexChar(',')
    case Char(c) => EscapeRegexChar(c)
  }

  function CompileFrom(g: string, depth: nat): string
    decreases |g|
  {
    if g == "" then "" else Chunk(FirstToken(g), depth) + CompileFrom(AfterFirstToken(g), DepthAfter(FirstToken(g), depth))
  }

  /** The source handed to `new RegExp`. */
  function Compile(g: string): string {
    "^" + (CompileFrom(g, 0) + "$")
  }

  /** One turn of the loop: what the token at `index` emits, and where it leaves off. */
  method Translate(glob: string, index: nat, braceDepth: nat) returns (piece: string, next: nat, depth: nat)
    requires index < |glob|
    ensures piece == Chunk(FirstToken(glob[index..]), braceDepth)
    ensures next == index + Size(FirstToken(glob[index..])) <= |glob|
    ensures depth == DepthAfter(FirstToken(glob[index..]), braceDepth)
  {
    var character := glob[index];
    next, depth := index + 1, braceDepth;
    if character == '*' {
      if index + 1 < |glob| && glob[index + 1] == '*' {
        if index + 2 < |glob| && glob[index + 2] == '/' {
          piece, next := "(?:.*/)?", next + 2;
        } else {
          piece, next := ".*", next + 1;
        }
      } else {
        piece := "[^/]*";
      }
    } else if character == '?' {
      piece := "[^/]";
    } else if character == '{' {
      piece, depth := "(?:", braceDepth + 1;
    } else if character == '}' && braceDepth > 0 {
      piece, depth := ")", braceDepth - 1;
    } else if character == ',' && braceDepth > 0 {
      piece := "|";
    } else {
      piece := EscapeRegexChar(character);
    }
  }

  method GlobToRegExp(glob: string) returns (pattern: string)
    ensures pattern == Compile(glob)
  {
    var source, braceDepth, index := "", 0, 0;
    while index < |glob|
      invariant 0 <= index <= |glob|
      invariant CompileFrom(glob, 0) == source + CompileFrom(glob[index..], braceDepth)
    {
      var piece, next, depth := Translate(glob, index, braceDepth);
      assert AfterFirstToken(glob[index..]) == glob[next..];
      source := Extend(source, piece);
      index, braceDepth := next, depth;
    }
    assert glob[|glob|..] == "";
    pattern := "^" + (source + "$");
  }

  /** `source += piece`. */
  function Extend(source: string, piece: string): (r: string)
    ensures r == source + piece
    ensures forall rest :: source + (piece + rest) == r + rest
  {
    source + piece
  }

  // ---------------------------------------------------------- the pattern it means

  function ReOf(prefix: Re, g: Segments): Re
    decreases g
  {
    match g
    case Nothing => prefix
    case Then(p, l) => Cat(ReOf(prefix, p), ReOfPiece(l))
  }

  const DIRECTORIES_BODY := Cat(Cat(Empty, Star(Dot)), Lit('/'))

  const DIRECTORIES_RE := Opt(Group(DIRECTORIES_BODY))

  function ReOfPiece(p: Piece): Re
    decreases p
  {
    match p
    case Literal(c) => Lit(c)
    case AnyOne => NotSlash
    case AnyInSegment => Star(NotSlash)
    case AnyPath => Star(Dot)
    case AnyDirectories => DIRECTORIES_RE
    case Braces(alternatives) => Group(ReOfOne(alternatives))
  }

  function ReOfOne(a: Alternatives): Re
    decreases a
  {
    match a
    case Only(g) => ReOf(Empty, g)
    case Or(others, g) => Alt(ReOfOne(others), ReOf(Empty, g))
  }

  const ANCHOR := Cat(Empty, Start)

  function FrameOf(f: GlobFrame, prefix: Re): Frame {
    Frame(if f.finished.Some? then Some(ReOfOne(f.finished.value)) else None, ReOf(prefix, f.current))
  }

  function StackOf(stack: GlobStack): (r: Stack)
    ensures |r| == |stack|
  {
    seq(|stack|, k requires 0 <= k < |stack| => FrameOf(stack[k], if k == 0 then ANCHOR else Empty))
  }

  /** The pattern reader, given what the compiler emits, does what the glob reader does. */
  lemma {:induction false} AppendIsPush(stack: GlobStack, p: Piece)
    ensures StackOf(Append(stack, p)) == PushAtom(StackOf(stack), ReOfPiece(p))
  {
  }

  lemma {:induction false} CloseIsPop(stack: GlobStack)
    requires |stack| > 1
    ensures StackOf(GlobStep(stack, Close)) == PopGroup(StackOf(stack))
  {
    var outer: GlobStack := stack[..|stack| - 1];
    AppendIsPush(outer, Braces(Finished(Inner(stack))));
    assert StackOf(outer) == StackOf(stack)[..|stack| - 1];
  }

  lemma {:induction false} ReadDirsInside(rest: string, stack: Stack)
    ensures ReadFrom(".*" + ("/" + rest), stack) == ReadFrom(rest, PushAtom(PushAtom(stack, Star(Dot)), Lit('/')))
  {
    ReadChar('/', rest, PushAtom(stack, Star(Dot)));
  }

  lemma {:induction false} PopDirs(stack: Stack)
    ensures var inner := PushAtom(PushAtom(stack + [NEW_FRAME], Star(Dot)), Lit('/'));
            |inner| > 1 && PopGroup(inner) == PushAtom(stack, Group(DIRECTORIES_BODY))
  {
    var inner := PushAtom(PushAtom(stack + [NEW_FRAME], Star(Dot)), Lit('/'));
    assert inner[..|inner| - 1] == stack;
  }

  lemma {:induction false} ReadDirs(rest: string, stack: Stack)
    ensures ReadFrom("(?:.*/)?" + rest, stack) == ReadFrom(rest, PushAtom(stack, DIRECTORIES_RE))
  {
    var close := ")" + ("?" + rest);
    assert "(?:.*/)?" + rest == "(?:" + (".*" + ("/" + close));
    ReadOpen(".*" + ("/" + close), stack);
    ReadDirsInside(close, stack + [NEW_FRAME]);
    ReadChar(')', "?" + rest, PushAtom(PushAtom(stack + [NEW_FRAME], Star(Dot)), Lit('/')));
    PopDirs(stack);
    QuantifyAtom(stack, Group(DIRECTORIES_BODY), false);
    ReadChar('?', rest, PushAtom(stack, Group(DIRECTORIES_BODY)));
  }

  lemma {:induction false} ReadLiteral(c: char, rest: string, stack: Stack)
    requires c != '*' && c != '?' && c != '{'
    ensures ReadFrom(EscapeRegexChar(c) + rest, stack) == ReadFrom(rest, PushAtom(stack, Lit(c)))
  {
    if c in "\\^$.|+()[]" {
      ReadEscaped(c, rest, stack);
    } else {
      assert SyntaxCharacter(c) ==> c == '}';
      ReadChar(c, rest, stack);
    }
  }

  lemma {:induction false} ReadStarred(text: string, atom: Re, rest: string, stack: Stack)
    requires (text == "[^/]*" && atom == NotSlash) || (text == ".*" && atom == Dot)
    ensures ReadFrom(text + rest, stack) == ReadFrom(rest, PushAtom(stack, Star(atom)))
  {
    var r1 := "*" + rest;
    if atom == NotSlash {
      assert text + rest == "[^/]" + r1;
      ReadNotSlash(r1, stack);
    } else {
      assert text + rest == "." + r1;
      ReadChar('.', r1, stack);
    }
    QuantifyAtom(stack, atom, true);
    ReadChar('*', rest, PushAtom(stack, atom));
  }

  lemma {:induction false} ReadChunk(t: Token, rest: string, stack: GlobStack)
    requires t.Char? ==> t.c != '*' && t.c != '?' && t.c != '{'
    ensures ReadFrom(Chunk(t, |stack| - 1) + rest, StackOf(stack)) == ReadFrom(rest, StackOf(GlobStep(stack, t)))
  {
    var re := StackOf(stack);
    match t
    case Dirs =>
      ReadDirs(rest, re);
      AppendIsPush(stack, AnyDirectories);
    case Path =>
      ReadStarred(".*", Dot, rest, re);
      AppendIsPush(stack, AnyPath);
    case Stars =>
      ReadStarred("[^/]*", NotSlash, rest, re);
      AppendIsPush(stack, AnyInSegment);
    case Question =>
      ReadNotSlash(rest, re);
      AppendIsPush(stack, AnyOne);
    case Open =>
      ReadOpen(rest, re);
      assert StackOf(stack + [NEW_GLOB_FRAME]) == re + [NEW_FRAME];
    case Close =>
      if |stack| > 1 {
        ReadChar(')', rest, re);
        CloseIsPop(stack);
      } else {
        ReadLiteral('}', rest, re);
        AppendIsPush(stack, Literal('}'));
      }
    case Comma =>
      if |stack| > 1 {
        ReadChar('|', rest, re);
        assert StackOf(GlobStep(stack, Comma)) == NextAlternative(re);
      } else {
        ReadLiteral(',', rest, re);
        AppendIsPush(stack, Literal(','));
      }
    case Char(c) =>
      ReadLiteral(c, rest, re);
      AppendIsPush(stack, Literal(c));
  }

  lemma {:induction false} ReadCompiledFrom(g: string, stack: GlobStack)
    ensures ReadFrom(CompileFrom(g, |stack| - 1) + "$", StackOf(stack)) ==
            match ReadGlobFrom(g, stack)
            case None => None
            case Some(tree) => Some(Cat(ReOf(ANCHOR, tree), End))
    decreases |g|
  {
    if g == "" {
      assert CompileFrom(g, |stack| - 1) + "$" == ['$'] + "";
      ReadChar('$', "", StackOf(stack));
    } else {
      var t := FirstToken(g);
      var rest := CompileFrom(AfterFirstToken(g), DepthAfter(t, |stack| - 1)) + "$";
      assert CompileFrom(g, |stack| - 1) + "$" == Chunk(t, |stack| - 1) + rest;
      ReadChunk(t, rest, stack);
      StepDepth(stack, t);
      ReadCompiledFrom(AfterFirstToken(g), GlobStep(stack, t));
    }
  }

  lemma {:induction false} ReadCompiled(g: string)
    ensures ReadPattern(Compile(g)) ==
            match ReadGlob(g)
            case None => None
            case Some(tree) => Some(Cat(ReOf(ANCHOR, tree), End))
  {
    ReadChar('^', CompileFrom(g, 0) + "$", [NEW_FRAME]);
    assert Compile(g) == ['^'] + (CompileFrom(g, 0) + "$");
    assert PushAtom([NEW_FRAME], Start) == StackOf([NEW_GLOB_FRAME]);
    ReadCompiledFrom(g, [NEW_GLOB_FRAME]);
  }

  // ---------------------------------------------------------- same meaning

  lemma {:induction false} StarNotSlash(s: string, i: nat, j: nat)
    ensures Matches(Star(NotSlash), s, i, j) <==> i <= j <= |s| && '/' !in s[i..j]
    decreases j - i
  {
    if i < j <= |s| {
      StarNotSlash(s, i + 1, j);
      assert s[i..j] == [s[i]] + s[i + 1..j];
      if Matches(Star(NotSlash), s, i, j) {
        var m := StarSplit(NotSlash, s, i, j);
      } else if '/' !in s[i..j] {
        StarJoin(NotSlash, s, i, i + 1, j);
      }
    }
  }

  lemma {:induction false} StarDot(s: string, i: nat, j: nat)
    ensures Matches(Star(Dot), s, i, j) <==> i <= j <= |s| && OneTextLine(s[i..j])
    decreases j - i
  {
    if i < j <= |s| {
      StarDot(s, i + 1, j);
      assert s[i..j] == [s[i]] + s[i + 1..j];
      if Matches(Star(Dot), s, i, j) {
        var m := StarSplit(Dot, s, i, j);
      } else if OneTextLine(s[i..j]) {
        StarJoin(Dot, s, i, i + 1, j);
      }
    }
  }

  lemma {:induction false} DirectoriesBodyMeaning(s: string, i: nat, j: nat)
    requires i < j <= |s|
    ensures Matches(DIRECTORIES_BODY, s, i, j) <==> OneTextLine(s[i..j - 1]) && s[j - 1] == '/'
  {
    var stars := Cat(Empty, Star(Dot));
    StarDot(s, i, j - 1);
    if Matches(DIRECTORIES_BODY, s, i, j) {
      var m := CatSplit(stars, Lit('/'), s, i, j);
      var e := CatSplit(Empty, Star(Dot), s, i, m);
    } else if OneTextLine(s[i..j - 1]) && s[j - 1] == '/' {
      CatJoin(Empty, Star(Dot), s, i, i, j - 1);
      CatJoin(stars, Lit('/'), s, i, j - 1, j);
    }
  }

  lemma {:induction false} DirectoriesMeaning(s: string, i: nat, j: nat)
    requires i <= j <= |s|
    ensures Matches(DIRECTORIES_RE, s, i, j) <==> PieceMeans(AnyDirectories, s[i..j], false)
  {
    if i < j {
      DirectoriesBodyMeaning(s, i, j);
      assert s[i..j] == s[i..j - 1] + [s[j - 1]];
    }
  }

  lemma {:induction false} PieceMeaning(p: Piece, s: string, i: nat, j: nat)
    requires i <= j <= |s|
    ensures Matches(ReOfPiece(p), s, i, j) <==> PieceMeans(p, s[i..j], false)
    decreases p, 0
  {
    match p
    case Literal(_) =>
    case AnyOne =>
    case AnyInSegment => StarNotSlash(s, i, j);
    case AnyPath => StarDot(s, i, j);
    case AnyDirectories => DirectoriesMeaning(s, i, j);
    case Braces(alternatives) => OneMeaning(alternatives, s, i, j);
  }

  lemma {:induction false} OneMeaning(a: Alternatives, s: string, i: nat, j: nat)
    requires i <= j <= |s|
    ensures Matches(ReOfOne(a), s, i, j) <==> OneMeans(a, s[i..j], false)
    decreases a, 0
  {
    match a
    case Only(g) => WholeMeaning(g, s, i, j);
    case Or(others, g) =>
      OneMeaning(others, s, i, j);
      WholeMeaning(g, s, i, j);
  }

  lemma {:induction false} WholeMeaning(g: Segments, s: string, i: nat, j: nat)
    requires i <= j <= |s|
    ensures Matches(ReOf(Empty, g), s, i, j) <==> Means(g, s[i..j], false)
    decreases g, 2
  {
    Meaning(Empty, g, s, i, j);
    if Means(g, s[i..j], false) {
      assert Matches(Empty, s, i, i);
    }
  }

  /** The prefix takes some characters, the glob means the rest. */
  ghost predicate SplitMeans(prefix: Re, g: Segments, s: string, i: nat, j: nat)
    requires j <= |s|
  {
    exists m: nat :: i <= m <= j && Matches(prefix, s, i, m) && Means(g, s[m..j], false)
  }

  lemma {:induction false} ThenSplit(p: Segments, l: Piece, s: string, m: nat, j: nat) returns (k: nat)
    requires m <= j <= |s| && Means(Then(p, l), s[m..j], false)
    ensures m <= k <= j && Means(p, s[m..k], false) && PieceMeans(l, s[k..j], false)
  {
    var t := s[m..j];
    var n :| 0 <= n <= |t| && Means(p, t[..n], false) && PieceMeans(l, t[n..], false);
    k := m + n;
    assert t[..n] == s[m..k] && t[n..] == s[k..j];
  }

  lemma {:induction false} ThenJoin(p: Segments, l: Piece, s: string, m: nat, k: nat, j: nat)
    requires m <= k <= j <= |s| && Means(p, s[m..k], false) && PieceMeans(l, s[k..j], false)
    ensures Means(Then(p, l), s[m..j], false)
  {
    assert s[m..j][..k - m] == s[m..k] && s[m..j][k - m..] == s[k..j];
  }

  lemma {:induction false} Meaning(prefix: Re, g: Segments, s: string, i: nat, j: nat)
    requires i <= j <= |s|
    ensures Matches(ReOf(prefix, g), s, i, j) <==> SplitMeans(prefix, g, s, i, j)
    decreases g, 1
  {
    match g
    case Nothing =>
      assert Means(Nothing, s[j..j], false);
    case Then(p, l) =>
      if Matches(ReOf(prefix, g), s, i, j) {
        MeaningSplit(prefix, p, l, s, i, j);
      }
      if SplitMeans(prefix, g, s, i, j) {
        MeaningJoin(prefix, p, l, s, i, j);
      }
  }

  lemma {:induction false} MeaningSplit(prefix: Re, p: Segments, l: Piece, s: string, i: nat, j: nat)
    requires i <= j <= |s| && Matches(Cat(ReOf(prefix, p), ReOfPiece(l)), s, i, j)
    ensures SplitMeans(prefix, Then(p, l), s, i, j)
    decreases Then(p, l), 0
  {
    var k := CatSplit(ReOf(prefix, p), ReOfPiece(l), s, i, j);
    Meaning(prefix, p, s, i, k);
    PieceMeaning(l, s, k, j);
    var m: nat :| i <= m <= k && Matches(prefix, s, i, m) && Means(p, s[m..k], false);
    ThenJoin(p, l, s, m, k, j);
  }

  lemma {:induction false} MeaningJoin(prefix: Re, p: Segments, l: Piece, s: string, i: nat, j: nat)
    requires i <= j <= |s| && SplitMeans(prefix, Then(p, l), s, i, j)
    ensures Matches(Cat(ReOf(prefix, p), ReOfPiece(l)), s, i, j)
    decreases Then(p, l), 0
  {
    var m: nat :| i <= m <= j && Matches(prefix, s, i, m) && Means(Then(p, l), s[m..j], false);
    var k := ThenSplit(p, l, s, m, j);
    assert SplitMeans(prefix, p, s, i, k);
    Meaning(prefix, p, s, i, k);
    PieceMeaning(l, s, k, j);
    CatJoin(ReOf(prefix, p), ReOfPiece(l), s, i, k, j);
  }

  lemma {:induction false} AnchorMeaning(s: string, i: nat, m: nat)
    ensures Matches(ANCHOR, s, i, m) <==> i == m == 0
  {
    if Matches(ANCHOR, s, i, m) {
      var e := CatSplit(Empty, Start, s, i, m);
    } else if i == m == 0 {
      CatJoin(Empty, Start, s, 0, 0, 0);
    }
  }

  /** Anchored at both ends, the pattern tests the whole path. */
  lemma {:induction false} AnchoredMeaning(g: Segments, s: string)
    ensures Test(Cat(ReOf(ANCHOR, g), End), s) <==> Means(g, s, false)
  {
    assert s[0..|s|] == s;
    AnchorMeaning(s, 0, 0);
    Meaning(ANCHOR, g, s, 0, |s|);
    if Means(g, s, false) {
      assert SplitMeans(ANCHOR, g, s, 0, |s|);
      CatJoin(ReOf(ANCHOR, g), End, s, 0, |s|, |s|);
    }
    if Test(Cat(ReOf(ANCHOR, g), End), s) {
      var i: nat, j: nat :| Matches(Cat(ReOf(ANCHOR, g), End), s, i, j);
      var k := CatSplit(ReOf(ANCHOR, g), End, s, i, j);
      Meaning(ANCHOR, g, s, i, k);
      var m: nat :| i <= m <= k && Matches(ANCHOR, s, i, m) && Means(g, s[m..k], false);
      AnchorMeaning(s, i, m);
    }
  }

  /** The compiled pattern is well formed exactly when the braces balance, and then it
      tests true exactly for the paths the glob means. */
  lemma {:induction false} CompileIsCorrect(glob: string, path: string)
    ensures ReadPattern(Compile(glob)).Some? <==> Balanced(glob)
    ensures ReadGlob(glob).Some? <==> Balanced(glob)
    ensures Balanced(glob) ==>
              (Test(ReadPattern(Compile(glob)).value, path) <==> Means(ReadGlob(glob).value, path, false))
  {
    ReadsWhenClosed(glob, [NEW_GLOB_FRAME]);
    ReadCompiled(glob);
    if Balanced(glob) {
      AnchoredMeaning(ReadGlob(glob).value, path);
    }
  }

  // ---------------------------------------------------------- line terminators

  lemma {:induction false} MeansOnOneLine(g: Segments, s: string)
    requires OneTextLine(s)
    ensures Means(g, s, false) <==> Means(g, s, true)
    decreases g
  {
    match g
    case Nothing =>
    case Then(p, l) =>
      forall k | 0 <= k <= |s|
        ensures Means(p, s[..k], false) <==> Means(p, s[..k], true)
        ensures PieceMeans(l, s[k..], false) <==> PieceMeans(l, s[k..], true)
      {
        MeansOnOneLine(p, s[..k]);
        PieceMeansOnOneLine(l, s[k..]);
      }
  }

  lemma {:induction false} PieceMeansOnOneLine(p: Piece, s: string)
    requires OneTextLine(s)
    ensures PieceMeans(p, s, false) <==> PieceMeans(p, s, true)
    decreases p
  {
    if p.Braces? {
      OneMeansOnOneLine(p.alternatives, s);
    }
  }

  lemma {:induction false} OneMeansOnOneLine(a: Alternatives, s: string)
    requires OneTextLine(s)
    ensures OneMeans(a, s, false) <==> OneMeans(a, s, true)
    decreases a
  {
    match a
    case Only(g) => MeansOnOneLine(g, s);
    case Or(others, g) =>
      OneMeansOnOneLine(others, s);
      MeansOnOneLine(g, s);
  }

  /** For paths without line terminators `**` matches anything at all. */
  lemma {:induction false} CompileMatchesAsRead(glob: string, path: string)
    requires Balanced(glob) && OneTextLine(path)
    ensures ReadPattern(Compile(glob)).Some? && ReadGlob(glob).Some?
    ensures Test(ReadPattern(Compile(glob)).value, path) <==> Means(ReadGlob(glob).value, path, true)
  {
    CompileIsCorrect(glob, path);
    MeansOnOneLine(ReadGlob(glob).value, path);
  }

  /** The pattern of the glob decides the path as the glob's own reading does, in which `**`
      is any text at all. */
  ghost predicate Agrees(glob: string, path: string) {
    ReadPattern(Compile(glob)).Some? && ReadGlob(glob).Some?
    && (Test(ReadPattern(Compile(glob)).value, path) <==> Means(ReadGlob(glob).value, path, true))
  }

  lemma {:induction false} StarsMean(path: string, anyText: bool)
    ensures Means(Then(Nothing, AnyPath), path, anyText) <==> anyText || OneTextLine(path)
  {
    assert path[..0] == "" && path[0..] == path;
    if anyText || OneTextLine(path) {
      assert Means(Nothing, path[..0], anyText) && PieceMeans(AnyPath, path[0..], anyText);
    }
  }

  /** A line terminator anywhere in the path shows the difference, on the glob `**`. */
  lemma {:induction false} StarsStopAtLineEnds(path: string)
    requires !OneTextLine(path)
    ensures Balanced("**") && !Agrees("**", path)
  {
    CompileIsCorrect("**", path);
    assert ReadGlob("**") == Some(Then(Nothing, AnyPath));
    StarsMean(path, true);
    StarsMean(path, false);
  }

  /** On exactly the paths without line terminators every pattern agrees with its glob. */
  lemma {:induction false} AgreesExactlyOnOneLine(path: string)
    ensures OneTextLine(path) <==> forall glob :: Balanced(glob) ==> Agrees(glob, path)
  {
    if OneTextLine(path) {
      forall glob | Balanced(glob) ensures Agrees(glob, path) {
        CompileMatchesAsRead(glob, path);
      }
    } else {
      StarsStopAtLineEnds(path);
    }
  }

  // ---------------------------------------------------------- matching

  /** What follows the last separator. */
  function Basename(path: string): string {
    if '/' !in path then path else Basename(path[1..])
  }

  lemma {:induction false} BasenameIsLastPart(path: string)
    ensures '/' !in Basename(path)
    ensures |Basename(path)| <= |path| && path[|path| - |Basename(path)|..] == Basename(path)
    ensures '/' in path ==> |Basename(path)| < |path| && path[|path| - |Basename(path)| - 1] == '/'
  {
    if '/' in path {
      BasenameIsLastPart(path[1..]);
      assert path == [path[0]] + path[1..];
    }
  }

  /** `matchesGlob`: `None` is the SyntaxError of an open brace. */
  ghost function MatchesGlob(path: string, glob: string): Option<bool> {
    match ReadPattern(Compile(glob))
    case None => None
    case Some(re) =>
      if Test(re, path) then Some(true)
      else if '/' !in glob then Some(Test(re, Basename(path)))
      else Some(false)
  }

  lemma {:induction false} MatchesGlobAsRead(path: string, glob: string)
    ensures MatchesGlob(path, glob).None? <==> !Balanced(glob)
    ensures Balanced(glob) && OneTextLine(path) ==>
              ReadGlob(glob).Some?
              && MatchesGlob(path, glob) == Some(Means(ReadGlob(glob).value, path, true)
                                                 || ('/' !in glob && Means(ReadGlob(glob).value, Basename(path), true)))
  {
    CompileIsCorrect(glob, path);
    if Balanced(glob) && OneTextLine(path) {
      CompileMatchesAsRead(glob, path);
      BasenameIsLastPart(path);
      CompileMatchesAsRead(glob, Basename(path));
    }
  }

  /** `matchesAnyGlob`: no globs at all match everything. */
  ghost predicate AnyGlobMatches(path: string, globs: seq<string>) {
    exists k :: 0 <= k < |globs| && MatchesGlob(path, globs[k]) == Some(true)
  }

  ghost function SomeGlob(path: string, globs: seq<string>): Option<bool> {
    if globs == [] then Some(false)
    else
      match MatchesGlob(path, globs[0])
      case None => None
      case Some(true) => Some(true)
      case Some(false) => SomeGlob(path, globs[1..])
  }

  ghost function MatchesAnyGlob(path: string, globs: seq<string>): Option<bool> {
    if globs == [] then Some(true) else SomeGlob(path, globs)
  }

  lemma {:induction false} SomeGlobIsExists(path: string, globs: seq<string>)
    requires forall k :: 0 <= k < |globs| ==> Balanced(globs[k])
    ensures SomeGlob(path, globs) == Some(AnyGlobMatches(path, globs))
  {
    if globs != [] {
      MatchesGlobAsRead(path, globs[0]);
      SomeGlobIsExists(path, globs[1..]);
      if SomeGlob(path, globs[1..]) == Some(true) {
        var k :| 0 <= k < |globs[1..]| && MatchesGlob(path, globs[1..][k]) == Some(true);
        assert MatchesGlob(path, globs[k + 1]) == Some(true);
      }
      if AnyGlobMatches(path, globs) && MatchesGlob(path, globs[0]) == Some(false) {
        var k :| 0 <= k < |globs| && MatchesGlob(path, globs[k]) == Some(true);
        assert globs[1..][k - 1] == globs[k];
      }
    }
  }

  lemma {:induction false} MatchesAnyGlobIsExists(path: string, globs: seq<string>)
    requires forall k :: 0 <= k < |globs| ==> Balanced(globs[k])
    ensures MatchesAnyGlob(path, globs) == Some(globs == [] || AnyGlobMatches(path, globs))
  {
    SomeGlobIsExists(path, globs);
  }
}
