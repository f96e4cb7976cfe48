/** The part of ECMAScript regular expressions that compiled globs use: a reader for
    pattern text, and what a pattern matches (ECMA-262, sections 22.2.1 and 22.2.2).

    Anything outside that part (look-around, back-references, lazy quantifiers, other
    classes) is refused by the reader. A lone `}` stands for itself, as Annex B allows. */
module RegExpPattern {
  import opened Options

  datatype Re =
    | Empty
    | Cat(prefix: Re, last: Re)
    | Alt(left: Re, right: Re)
    | Start
    | End
    | Lit(c: char)
    | Dot
    | NotSlash
    | Group(body: Re)
    | Star(body: Re)
    | Opt(body: Re)

  // ---------------------------------------------------------- meaning

  predicate LineTerminator(c: char) {
    c == '\n' || c == '\r' || c == '\U{2028}' || c == '\U{2029}'
  }

  predicate OneAt(s: string, i: nat, j: nat) {
    j == i + 1 && j <= |s|
  }

  /** `r` can match the characters of `s` from position `i` to position `j`. A `*`
      iteration consumes something, as RepeatMatcher demands. */
  ghost predicate Matches(r: Re, s: string, i: nat, j: nat)
    decreases r, j - i
  {
    i <= j <= |s| &&
    match r
    case Empty => i == j
    case Cat(p, l) => exists m: nat :: i <= m <= j && Matches(p, s, i, m) && Matches(l, s, m, j)
    case Alt(a, b) => Matches(a, s, i, j) || Matches(b, s, i, j)
    case Start => i == j == 0
    case End => i == j == |s|
    case Lit(c) => OneAt(s, i, j) && s[i] == c
    case Dot => OneAt(s, i, j) && !LineTerminator(s[i])
    case NotSlash => OneAt(s, i, j) && s[i] != '/'
    case Group(b) => Matches(b, s, i, j)
    case Star(b) => i == j || exists m: nat :: i < m <= j && Matches(b, s, i, m) && Matches(r, s, m, j)
    case Opt(b) => i == j || Matches(b, s, i, j)
  }

  lemma {:induction false} CatSplit(p: Re, l: Re, s: string, i: nat, j: nat) returns (m: nat)
    requires Matches(Cat(p, l), s, i, j)
    ensures i <= m <= j <= |s| && Matches(p, s, i, m) && Matches(l, s, m, j)
  {
    m :| i <= m <= j && Matches(p, s, i, m) && Matches(l, s, m, j);
  }

  lemma {:induction false} CatJoin(p: Re, l: Re, s: string, i: nat, m: nat, j: nat)
    requires i <= m <= j <= |s| && Matches(p, s, i, m) && Matches(l, s, m, j)
    ensures Matches(Cat(p, l), s, i, j)
  {
  }

  lemma {:induction false} StarSplit(b: Re, s: string, i: nat, j: nat) returns (m: nat)
    requires Matches(Star(b), s, i, j) && i < j
    ensures i < m <= j <= |s| && Matches(b, s, i, m) && Matches(Star(b), s, m, j)
  {
    m :| i < m <= j && Matches(b, s, i, m) && Matches(Star(b), s, m, j);
  }

  lemma {:induction false} StarJoin(b: Re, s: string, i: nat, m: nat, j: nat)
    requires i < m <= j <= |s| && Matches(b, s, i, m) && Matches(Star(b), s, m, j)
    ensures Matches(Star(b), s, i, j)
  {
  }

  /** `RegExp.prototype.test`: some part of the text matches. */
  ghost predicate Test(r: Re, s: string) {
    exists i: nat, j: nat :: Matches(r, s, i, j)
  }

  // ---------------------------------------------------------- reading

  /** An open group: the alternatives already finished, and the one being read. */
  datatype Frame = Frame(done: Option<Re>, cur: Re)

  const NEW_FRAME := Frame(None, Empty)

  function Closed(f: Frame): Re {
    if f.done.Some? then Alt(f.done.value, f.cur) else f.cur
  }

  type Stack = s: seq<Frame> | |s| > 0 witness [NEW_FRAME]

  function Top(stack: Stack): Frame {
    stack[|stack| - 1]
  }

  function SetTop(stack: Stack, f: Frame): Stack {
    stack[..|stack| - 1] + [f]
  }

  function PushAtom(stack: Stack, atom: Re): Stack {
    SetTop(stack, Top(stack).(cur := Cat(Top(stack).cur, atom)))
  }

  function NextAlternative(stack: Stack): Stack {
    SetTop(stack, Frame(Some(Closed(Top(stack))), Empty))
  }

  function PopGroup(stack: Stack): Stack
    requires |stack| > 1
  {
    PushAtom(stack[..|stack| - 1], Group(Closed(Top(stack))))
  }

  /** What a quantifier may follow. */
  predicate Quantifiable(f: Frame) {
    f.cur.Cat? && !f.cur.last.Star? && !f.cur.last.Opt? && !f.cur.last.Start? && !f.cur.last.End?
  }

  function Quantify(stack: Stack, star: bool): Stack
    requires Quantifiable(Top(stack))
  {
    var cur := Top(stack).cur;
    SetTop(stack, Top(stack).(cur := Cat(cur.prefix, if star then Star(cur.last) else Opt(cur.last))))
  }

  /** SyntaxCharacter, all of which may be escaped by a backslash. */
  predicate SyntaxCharacter(c: char) {
    c in "^$\\.*+?()[]{}|"
  }

  /** Reads the rest of a pattern with these groups open. */
  function ReadFrom(s: string, stack: Stack): Option<Re>
    decreases |s|
  {
    if s == "" then (if |stack| == 1 then Some(Closed(Top(stack))) else None)
    else if s[0] == '\\' then
      if |s| > 1 && SyntaxCharacter(s[1]) then ReadFrom(s[2..], PushAtom(stack, Lit(s[1]))) else None
    else if s[0] == '^' then ReadFrom(s[1..], PushAtom(stack, Start))
    else if s[0] == '$' then ReadFrom(s[1..], PushAtom(stack, End))
    else if s[0] == '.' then ReadFrom(s[1..], PushAtom(stack, Dot))
    else if s[0] == '(' then
      if |s| > 2 && s[1] == '?' && s[2] == ':' then ReadFrom(s[3..], stack + [NEW_FRAME]) else None
    else if s[0] == ')' then
      if |stack| > 1 then ReadFrom(s[1..], PopGroup(stack)) else None
    else if s[0] == '|' then ReadFrom(s[1..], NextAlternative(stack))
    else if s[0] == '[' then
      if |s| > 3 && s[1] == '^' && s[2] == '/' && s[3] == ']' then ReadFrom(s[4..], PushAtom(stack, NotSlash)) else None
    else if s[0] == '*' || s[0] == '?' then
      if Quantifiable(Top(stack)) then ReadFrom(s[1..], Quantify(stack, s[0] == '*')) else None
    else if SyntaxCharacter(s[0]) && s[0] != '}' then None
    else ReadFrom(s[1..], PushAtom(stack, Lit(s[0])))
  }

  /** `new RegExp(source)`; `None` is its SyntaxError. */
  function ReadPattern(source: string): Option<Re> {
    ReadFrom(source, [NEW_FRAME])
  }

  // ---------------------------------------------------------- reading known pieces

  lemma {:induction false} ReadEscaped(c: char, rest: string, stack: Stack)
    requires SyntaxCharacter(c)
    ensures ReadFrom(['\\', c] + rest, stack) == ReadFrom(rest, PushAtom(stack, Lit(c)))
  {
    assert (['\\', c] + rest)[2..] == rest;
  }

  lemma {:induction false} ReadChar(c: char, rest: string, stack: Stack)
    ensures !SyntaxCharacter(c) || c == '}' ==> ReadFrom([c] + rest, stack) == ReadFrom(rest, PushAtom(stack, Lit(c)))
    ensures c == '^' ==> ReadFrom([c] + rest, stack) == ReadFrom(rest, PushAtom(stack, Start))
    ensures c == '$' ==> ReadFrom([c] + rest, stack) == ReadFrom(rest, PushAtom(stack, End))
    ensures c == '.' ==> ReadFrom([c] + rest, stack) == ReadFrom(rest, PushAtom(stack, Dot))
    ensures c == '|' ==> ReadFrom([c] + rest, stack) == ReadFrom(rest, NextAlternative(stack))
    ensures c == ')' && |stack| > 1 ==> ReadFrom([c] + rest, stack) == ReadFrom(rest, PopGroup(stack))
    ensures (c == '*' || c == '?') && Quantifiable(Top(stack)) ==>
              ReadFrom([c] + rest, stack) == ReadFrom(rest, Quantify(stack, c == '*'))
  {
    assert ([c] + rest)[1..] == rest;
  }

  lemma {:induction false} ReadOpen(rest: string, stack: Stack)
    ensures ReadFrom("(?:" + rest, stack) == ReadFrom(rest, stack + [NEW_FRAME])
  {
    assert ("(?:" + rest)[3..] == rest;
  }

  lemma {:induction false} ReadNotSlash(rest: string, stack: Stack)
    ensures ReadFrom("[^/]" + rest, stack) == ReadFrom(rest, PushAtom(stack, NotSlash))
  {
    assert ("[^/]" + rest)[4..] == rest;
  }

  /** Reading an atom and then a quantifier. */
  lemma {:induction false} QuantifyAtom(stack: Stack, atom: Re, star: bool)
    requires !atom.Star? && !atom.Opt? && !atom.Start? && !atom.End?
    ensures Quantifiable(Top(PushAtom(stack, atom)))
    ensures Quantify(PushAtom(stack, atom), star) == PushAtom(stack, if star then Star(atom) else Opt(atom))
  {
  }
}
