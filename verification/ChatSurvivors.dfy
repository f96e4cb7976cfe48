/** Which blocks of a message come back: exactly the intact ones. */
module ChatSurvivors {
  import opened Options
  import opened Sequences
  import opened Json
  import opened JsonLines
  import opened JsonPrefix
  import opened ChatBlocks
  import opened ChatRoundTrip

  // ---------------------------------------------------------- where a block is taken to end

  lemma {:induction false} SkipGapsThen(s: string, close: string)
    requires SkipGaps(s) != ""
    ensures SkipGaps(s + close) == SkipGaps(s) + close
  {
    FirstAndRest(s, close);
    DropFirst(s[0], s[1..] + close);
    if Gap(s[0]) {
      SkipGapsThen(s[1..], close);
    }
  }

  lemma {:induction false} TicksThen(s: string, close: string)
    requires Ticks(s) < |s|
    ensures Ticks(s + close) == Ticks(s) && (s + close)[Ticks(s)..] == s[Ticks(s)..] + close
  {
    FirstAndRest(s, close);
    DropFirst(s[0], s[1..] + close);
    if s[0] == '`' {
      TicksThen(s[1..], close);
      assert (s + close)[Ticks(s)..] == (s[1..] + close)[Ticks(s[1..])..];
    }
  }

  lemma {:induction false} TicksDrop(s: string, k: nat)
    requires k <= Ticks(s)
    ensures Ticks(s[k..]) == Ticks(s) - k
  {
    if k > 0 {
      TicksDrop(s[1..], k - 1);
      assert s[1..][k - 1..] == s[k..];
    } else {
      assert s[0..] == s;
    }
  }

  /** Where a text ends early, the last three backticks close. */
  lemma {:induction false} ClosesEarly(s: string, close: string) returns (m: nat)
    requires EndsEarly(s)
    ensures m < |s| && CloseAt((s + close)[m..], 3).Some?
  {
    m := Ticks(s) - 3;
    var rest := s[m..];
    TicksDrop(s, m);
    assert rest[3..] == s[Ticks(s)..];
    TicksThen(rest, close);
    SkipGapsThen(rest[3..], close);
    assert (s + close)[m..] == rest + close;
    assert rest[0] == '`';
    assert SkipGaps(rest + close) == rest + close && SkipLineBreak(rest + close) == rest + close;
  }

  lemma {:induction false} EarlyEnd(s: string) returns (i: nat)
    requires !Unbroken(s)
    ensures i < |s| && EndsEarly(s[i..])
  {
    if EndsEarly(s) {
      i := 0;
      assert s[0..] == s;
    } else {
      i := EarlyEnd(s[1..]);
      assert s[i + 1..] == s[1..][i..];
      i := i + 1;
    }
  }

  lemma {:induction false} DropTwice(s: string, more: string, k: nat, m: nat)
    requires k + m <= |s|
    ensures s[k..][m..] == s[k + m..] && (s + more)[k + m..] == (s[k..] + more)[m..]
  {
  }

  lemma {:induction false} ClosesLater(s: string, k: nat, later: string, close: string) returns (i: nat)
    requires k <= |s| && later == s[k..] && EndsEarly(later)
    ensures i < |s| && CloseAt((s + close)[i..], 3).Some?
  {
    var m := ClosesEarly(later, close);
    i := k + m;
    assert (later + close)[m..] == (s + close)[i..] by {
      DropTwice(s, close, k, m);
    }
  }

  lemma {:induction false} EarlyClose(s: string, close: string) returns (i: nat)
    requires !Unbroken(s)
    ensures i < |s| && CloseAt((s + close)[i..], 3).Some?
  {
    var k := EarlyEnd(s);
    i := ClosesLater(s, k, s[k..], close);
  }

  /** The first place that closes is found, and what was found is a prefix. */
  lemma {:induction false} FindCloseBy(s: string, n: nat, i: nat) returns (cut: string, left: string)
    requires i <= |s| && CloseAt(s[i..], n).Some?
    ensures FindClose(s, n) == Some((cut, left)) && |cut| <= i && cut <= s && CloseAt(s[|cut|..], n) == Some(left)
  {
    DropTwice(s, "", 0, 0);
    if CloseAt(s, n).Some? {
      cut, left := "", CloseAt(s, n).value;
    } else {
      DropTwice(s, "", 1, i - 1);
      cut, left := FindCloseBy(s[1..], n, i - 1);
      DropTwice(s, "", 1, |cut|);
      cut := [s[0]] + cut;
    }
  }

  // ---------------------------------------------------------- no opener in what is left over

  lemma {:induction false} TraceSuffix(p: Place, j: string, k: nat) returns (q: Place)
    requires Trace(p, j) == Within(true) && k <= |j|
    ensures Trace(q, j[k..]) == Within(true)
    decreases k
  {
    if k == 0 {
      q := p;
      assert j[0..] == j;
    } else {
      q := TraceSuffix(Next(p, j[0]), j[1..], k - 1);
      assert j[1..][k - 1..] == j[k..];
    }
  }

  lemma {:induction false} NotBroken(p: Place, j: string)
    requires Trace(p, j) == Within(true)
    ensures p == AtStart || p.Within?
  {
    TraceBroken(j);
  }

  /** After the word of a tag no line ends, so no tag ends one. */
  lemma {:induction false} NoTagEnds(mayEnd: bool, j: string, close: string)
    requires Trace(Within(mayEnd), j) == Within(true) && "dwtd" <= j + close && close != "" && close[0] == '\n'
    ensures var w := SkipGaps((j + close)[4..]);
      !(w != "" && w[0] == '\n') && !(|w| > 1 && w[0] == '\r')
  {
    var s := j + close;
    assert s[|j|] == close[0];
    assert j[..4] == s[..4] && s[4..] == j[4..] + close;
    AfterTag(mayEnd, j);
    DTrace(mayEnd, j);
    var k := SkipGapsSafe(Within(false), j[4..], close);
    var e :| Trace(Within(e), j[4..][k..]) == Within(true) && !e;
    TraceBroken(j[4..][k..][1..]);
    assert (j[4..][k..] + close)[0] == j[4..][k];
  }

  lemma {:induction false} AfterTag(mayEnd: bool, j: string)
    requires "dwtd" <= j && Trace(Within(mayEnd), j) == Within(true)
    ensures Trace(Within(false), j[4..]) == Within(true)
  {
    assert j[0] == 'd' && j[1..][0] == 'w' && j[1..][1..][0] == 't' && j[1..][1..][1..][0] == 'd';
    assert j[1..][1..][1..][1..] == j[4..];
    assert Trace(Within(mayEnd), j) == Trace(Within(false), j[1..]);
    assert Trace(Within(false), j[1..]) == Trace(Within(true), j[1..][1..]);
    assert Trace(Within(true), j[1..][1..]) == Trace(Within(true), j[1..][1..][1..]);
  }

  lemma {:induction false} DTrace(mayEnd: bool, j: string)
    requires "dwtd" <= j && Trace(Within(mayEnd), j) == Within(true)
    ensures |j| > 4
  {
    AfterTag(mayEnd, j);
  }

  lemma {:induction false} NoOpenAfterTicks(mayEnd: bool, j: string, close: string)
    requires Trace(Within(mayEnd), j) == Within(true) && j != "" && close != "" && close[0] == '\n'
    ensures OpenAt(j + close).None? || Gap(j[0])
  {
    if !Gap(j[0]) {
      assert (j + close)[0] == j[0];
      TicksSafe(mayEnd, j, close);
      var n := Ticks(j + close);
      if n >= 3 {
        var k := SkipGapsSafe(Within(false), j[n..], close);
        var e :| Trace(Within(e), j[n..][k..]) == Within(true) && (k > 0 ==> !e);
        if "dwtd" <= j[n..][k..] + close {
          NoTagEnds(e, j[n..][k..], close);
        }
      }
    }
  }

  lemma {:induction false} NoOpenInside(p: Place, j: string, close: string)
    requires Trace(p, j) == Within(true) && j != "" && close != "" && close[0] == '\n'
    ensures OpenAt(j + close).None?
  {
    NotBroken(p, j);
    var k := SkipGapsSafe(p, j, close);
    if p == AtStart {
      assert (j[k..] + close)[0] == j[k];
    } else {
      var e :| Trace(Within(e), j[k..]) == Within(true);
      assert (j[k..] + close)[0] == j[k];
      NoOpenAfterTicks(e, j[k..], close);
      SameOpener(j + close, j[k..] + close);
    }
  }

  lemma {:induction false} SameOpener(s: string, t: string)
    requires SkipGaps(s) == t && SkipGaps(t) == t
    ensures OpenAt(s).Some? <==> OpenAt(t).Some?
  {
  }

  lemma {:induction false} FewTicksOpenNothing(s: string)
    requires s != "" && !Gap(s[0]) && (s[0] != '`' || !(Ticks(s) >= 3 && SkipGaps(s[Ticks(s)..]) != "" && SkipGaps(s[Ticks(s)..])[0] == 'd'))
    ensures OpenAt(s).None?
  {
  }

  lemma {:induction false} FenceBeforeEnd(tail: string)
    requires AtLineEnd(tail)
    ensures OpenAt("```" + tail).None? && MatchAll("```" + tail, true) == MatchAll(tail, false)
  {
    var three, two, one := "```" + tail, "``" + tail, "`" + tail;
    assert three[1..] == two && two[1..] == one && one[1..] == tail && three[3..] == tail;
    assert Ticks(tail) == 0 && Ticks(one) == 1 && Ticks(two) == 2 && Ticks(three) == 3;
    assert SkipGaps(tail) == tail;
    FewTicksOpenNothing(three);
    assert MatchAll(one, false) == MatchAll(tail, false);
    assert MatchAll(two, false) == MatchAll(one, false);
  }

  lemma {:induction false} AfterFence(tail: string, lineStart: bool)
    requires AtLineEnd(tail)
    ensures MatchAll(Closing(tail), lineStart) == MatchAll(tail, false)
  {
    FenceBeforeEnd(tail);
    assert Closing(tail)[0] == '\n' && Closing(tail)[1..] == "```" + tail;
    FewTicksOpenNothing(Closing(tail));
  }

  /** What is left of a block opens nothing, nor does its closing fence. */
  lemma {:induction false} NothingOpens(p: Place, j: string, tail: string, lineStart: bool)
    requires Trace(p, j) == Within(true) && AtLineEnd(tail)
    ensures MatchAll(j + Closing(tail), lineStart) == MatchAll(tail, false)
    decreases |j|
  {
    if j == "" {
      assert j + Closing(tail) == Closing(tail);
      AfterFence(tail, lineStart);
    } else {
      NoOpenInside(p, j, Closing(tail));
      assert (j + Closing(tail))[0] == j[0] && (j + Closing(tail))[1..] == j[1..] + Closing(tail);
      NotBroken(p, j);
      if j[1..] == "" {
        assert j[1..] + Closing(tail) == Closing(tail);
        AfterFence(tail, LineEnd(j[0]));
      } else {
        NothingOpens(Next(p, j[0]), j[1..], tail, LineEnd(j[0]));
      }
    }
  }

  // ---------------------------------------------------------- a broken block

  /** Nothing closes at a line end inside a body: its next line starts with no backtick. */
  lemma {:induction false} LineEndClosesNothing(p: Place, j: string, close: string)
    requires Trace(p, j) == Within(true) && j != "" && close != "" && close[0] == '\n'
    ensures j[0] == '\n' ==> CloseAt(j + close, 3).None?
    ensures j[0] != '\n' ==> SkipLineBreak(j + close) == j + close
  {
    NotBroken(p, j);
    assert (j + close)[0] == j[0] && (j + close)[1..] == j[1..] + close;
    TraceBroken(j[1..]);
    if j[0] == '\n' {
      var k := SkipGapsSafe(AtStart, j[1..], close);
      assert (j[1..][k..] + close)[0] == j[1..][k];
    }
  }

  /** A close that begins inside a body ends inside it. */
  lemma {:induction false} CloseStaysInside(p: Place, j: string, close: string) returns (m: nat)
    requires Trace(p, j) == Within(true) && j != "" && close != "" && close[0] == '\n'
    requires CloseAt(j + close, 3).Some?
    ensures m < |j| && CloseAt(j + close, 3).value == j[m..] + close
  {
    NotBroken(p, j);
    LineEndClosesNothing(p, j, close);
    var k := SkipGapsSafe(p, j, close);
    assert (j[k..] + close)[0] == j[k];
    var e :| Trace(Within(e), j[k..]) == Within(true);
    TicksSafe(e, j[k..], close);
    var l := SkipGapsSafe(Within(false), j[k..][3..], close);
    m := k + 3 + l;
    assert j[k..][3..][l..] == j[m..];
  }

  /** The first close in a body that is not intact. */
  lemma {:induction false} FirstClose(body: string, close: string) returns (cut: string, left: string)
    requires !Unbroken(body)
    ensures cut < body && FindClose(body + close, 3) == Some((cut, left))
    ensures CloseAt(body[|cut|..] + close, 3) == Some(left)
  {
    var i := EarlyClose(body, close);
    cut, left := FindCloseBy(body + close, 3, i);
    CutIsPrefix(body, close, cut);
    assert (body + close)[|cut|..] == body[|cut|..] + close;
  }

  /** What such a close leaves of the body. */
  lemma {:induction false} LeftByClose(body: string, n: nat, close: string) returns (left: string)
    requires SafeLines(body) && n < |body| && close != "" && close[0] == '\n' && CloseAt(body[n..] + close, 3).Some?
    ensures CloseAt(body[n..] + close, 3).value == left + close && exists p :: Trace(p, left) == Within(true)
  {
    var q := TraceSuffix(AtStart, body, n);
    var m := CloseStaysInside(q, body[n..], close);
    left := body[n..][m..];
    var p := TraceSuffix(q, body[n..], m);
  }

  /** A body that is not intact is found cut off, and nothing else is found in it. */
  lemma {:induction false} MatchBrokenBody(body: string, tail: string) returns (cut: string, left: string)
    requires SafeLines(body) && !Unbroken(body) && AtLineEnd(tail)
    ensures cut < body && FindClose(body + Closing(tail), 3) == Some((cut, left + Closing(tail)))
    ensures MatchAll(left + Closing(tail), false) == MatchAll(tail, false)
  {
    var after: string;
    cut, after := FirstClose(body, Closing(tail));
    left := LeftByClose(body, |cut|, Closing(tail));
    var p :| Trace(p, left) == Within(true);
    NothingOpens(p, left, tail, false);
  }

  lemma {:induction false} MatchBroken(b: ChatBlock, tail: string) returns (f: Found)
    requires InLimits(b) && !Intact(b) && AtLineEnd(tail)
    ensures f.body < Body(b) && MatchAll(Render(b) + tail, true) == [f] + MatchAll(tail, false)
  {
    BodyParses(b);
    var cut, left := MatchBrokenBody(Body(b), tail);
    f := MatchFenced(Body(b), tail, cut, left + Closing(tail));
  }

  /** A match at the start of a fenced text is the first match of all. */
  lemma {:induction false} MatchFenced(body: string, tail: string, cut: string, left: string) returns (f: Found)
    requires FindClose(body + Closing(tail), 3) == Some((cut, left))
    ensures f.body == cut && MatchAll(("```dwtd\n" + (body + "\n```")) + tail, true) == [f] + MatchAll(left, false)
  {
    var s := ("```dwtd\n" + (body + "\n```")) + tail;
    assert s == "```dwtd\n" + (body + Closing(tail)) by {
      Associative("```dwtd\n", body + "\n```", tail);
      Associative(body, "\n```", tail);
    }
    OpenRendered(body + Closing(tail));
    f := Found(s[..|s| - |left|], cut);
  }

  lemma {:induction false} CutIsPrefix(body: string, close: string, cut: string)
    requires cut <= body + close && |cut| < |body|
    ensures cut < body
  {
    assert (body + close)[..|cut|] == body[..|cut|];
  }

  lemma {:induction false} JudgeCut(index: nat, b: ChatBlock, f: Found)
    requires InLimits(b) && f.body < Body(b)
    ensures !Judge(index, f).Accept?
  {
    CutObjectIsNotJson(ToJson(b).fields, f.body);
  }

  // ---------------------------------------------------------- whole messages

  function AcceptedOf(verdicts: seq<Verdict>): seq<ChatBlock> {
    if verdicts == [] then []
    else (if verdicts[0].Accept? then [verdicts[0].block] else []) + AcceptedOf(verdicts[1..])
  }

  lemma {:induction false} TakesOne(e: Extraction, index: nat, text: string, v: Verdict)
    ensures Take(e, index, text, v).blocks == e.blocks + (if v.Accept? then [v.block] else [])
  {
    assert e.blocks + [] == e.blocks;
  }

  lemma {:induction false} TakesAccepted(e: Extraction, index: nat, texts: seq<string>, verdicts: seq<Verdict>)
    requires |texts| == |verdicts|
    ensures TakeAll(e, index, texts, verdicts).blocks == e.blocks + AcceptedOf(verdicts)
    decreases |texts|
  {
    if texts == [] {
      assert e.blocks + [] == e.blocks;
    } else {
      var after := Take(e, index + 1, texts[0], verdicts[0]);
      TakesOne(e, index + 1, texts[0], verdicts[0]);
      TakesAccepted(after, index + 1, texts[1..], verdicts[1..]);
      Associative(e.blocks, if verdicts[0].Accept? then [verdicts[0].block] else [], AcceptedOf(verdicts[1..]));
    }
  }

  lemma {:induction false} OneVerdictEach(index: nat, found: seq<Found>)
    ensures |TextsOf(found)| == |JudgeAll(index, found)| == |found|
    decreases |found|
  {
    if found != [] {
      OneVerdictEach(index + 1, found[1..]);
    }
  }

  function IntactOnes(blocks: seq<ChatBlock>): seq<ChatBlock> {
    if blocks == [] then [] else (if Intact(blocks[0]) then [blocks[0]] else []) + IntactOnes(blocks[1..])
  }

  /** Fence-free prose, and blocks within their limits, intact or not. */
  predicate Sendable(parts: seq<Part>) {
    forall i :: 0 <= i < |parts| ==> match parts[i] case Prose(text) => FenceFree(text) case Block(b) => InLimits(b)
  }

  lemma {:induction false} JudgeFirst(index: nat, f: Found, others: seq<Found>)
    ensures var first := Judge(index + 1, f);
      AcceptedOf(JudgeAll(index, [f] + others))
      == (if first.Accept? then [first.block] else []) + AcceptedOf(JudgeAll(index + 1, others))
  {
    DropFirst(f, others);
    DropFirst(Judge(index + 1, f), JudgeAll(index + 1, others));
  }

  lemma {:induction false} BlockSurvives(index: nat, b: ChatBlock, tail: string)
    requires InLimits(b) && AtLineEnd(tail) && index < MAX_BLOCKS_PER_MESSAGE
    ensures AcceptedOf(JudgeAll(index, MatchAll(Render(b) + tail, true)))
         == (if Intact(b) then [AsRead(b)] else []) + AcceptedOf(JudgeAll(index + 1, MatchAll(tail, false)))
  {
    if Intact(b) {
      MatchAllBlock(b, tail);
      JudgeRendered(index + 1, b);
      JudgeFirst(index, Found(Render(b), Body(b)), MatchAll(tail, false));
    } else {
      var f := MatchBroken(b, tail);
      JudgeCut(index + 1, b, f);
      JudgeFirst(index, f, MatchAll(tail, false));
    }
  }

  /** The blocks accepted from a message. */
  function Survivors(index: nat, message: string): seq<ChatBlock> {
    AcceptedOf(JudgeAll(index, MatchAll(message, true)))
  }

  /** What the first part adds to the matches in the rest. */
  lemma {:induction false} PartSurvives(index: nat, part: Part, rest: seq<Part>)
    requires match part case Prose(text) => FenceFree(text) case Block(b) => InLimits(b) && index < MAX_BLOCKS_PER_MESSAGE
    ensures Survivors(index, Message([part] + rest))
         == if part.Prose? then Survivors(index, Message(rest))
            else (if Intact(part.block) then [AsRead(part.block)] else [])
                 + Survivors(index + 1, Message(rest))
  {
    var tail := if rest == [] then "" else "\n\n" + Message(rest);
    DropFirst(part, rest);
    PartSplit([part] + rest);
    if part.Prose? {
      MatchAllProse(part.text, tail, true);
      MatchAllTail(rest, StartsAfter(true, part.text));
    } else {
      BlockSurvives(index, part.block, tail);
      MatchAllTail(rest, false);
    }
  }

  lemma {:induction false} OneMorePart(index: nat, part: Part, rest: seq<Part>)
    requires match part case Prose(text) => FenceFree(text) case Block(b) => InLimits(b) && index < MAX_BLOCKS_PER_MESSAGE
    requires Survivors(if part.Block? then index + 1 else index, Message(rest)) == ReadEach(IntactOnes(Blocks(rest)))
    ensures Survivors(index, Message([part] + rest)) == ReadEach(IntactOnes(Blocks([part] + rest)))
  {
    PartSurvives(index, part, rest);
    BlocksOfMore(part, rest);
    if part.Block? {
      DropFirst(part.block, Blocks(rest));
      ReadOneMore(part.block, IntactOnes(Blocks(rest)));
    }
  }

  lemma {:induction false} BlocksOfMore(part: Part, rest: seq<Part>)
    ensures Blocks([part] + rest) == if part.Block? then [part.block] + Blocks(rest) else Blocks(rest)
  {
    DropFirst(part, rest);
    assert [] + Blocks(rest) == Blocks(rest);
  }

  lemma {:induction false} MessageSurvives(index: nat, parts: seq<Part>)
    requires Sendable(parts) && index + |Blocks(parts)| <= MAX_BLOCKS_PER_MESSAGE
    ensures Survivors(index, Message(parts)) == ReadEach(IntactOnes(Blocks(parts)))
    decreases |parts|
  {
    if parts != [] {
      BlocksOfMore(parts[0], parts[1..]);
      assert [parts[0]] + parts[1..] == parts;
      MessageSurvives(if parts[0].Block? then index + 1 else index, parts[1..]);
      OneMorePart(index, parts[0], parts[1..]);
    }
  }

  lemma {:induction false} ReadOneMore(b: ChatBlock, others: seq<ChatBlock>)
    ensures ReadEach((if Intact(b) then [b] else []) + others) == (if Intact(b) then [AsRead(b)] else []) + ReadEach(others)
  {
    if Intact(b) {
      DropFirst(b, others);
    } else {
      assert [] + others == others && [] + ReadEach(others) == ReadEach(others);
    }
  }

  /** Of all the blocks of a message exactly the intact ones come back, in order. */
  lemma {:induction false} IntactBlocksComeBack(parts: seq<Part>)
    requires Sendable(parts) && |Blocks(parts)| <= MAX_BLOCKS_PER_MESSAGE
    ensures Extract(Message(parts)).blocks == ReadEach(IntactOnes(Blocks(parts)))
  {
    var found := MatchAll(Message(parts), true);
    MessageSurvives(0, parts);
    OneVerdictEach(0, found);
    TakesAccepted(Extraction(Message(parts), [], []), 0, TextsOf(found), JudgeAll(0, found));
    assert [] + AcceptedOf(JudgeAll(0, found)) == AcceptedOf(JudgeAll(0, found));
  }

  lemma {:induction false} ReadEachCount(blocks: seq<ChatBlock>)
    ensures |ReadEach(blocks)| == |blocks|
  {
    if blocks != [] {
      ReadEachCount(blocks[1..]);
    }
  }

  predicate AllIntact(blocks: seq<ChatBlock>) {
    forall b :: b in blocks ==> Intact(b)
  }

  lemma {:induction false} IntactStep(b: ChatBlock, others: seq<ChatBlock>)
    ensures IntactOnes([b] + others) == (if Intact(b) then [b] else []) + IntactOnes(others)
    ensures AllIntact([b] + others) <==> Intact(b) && AllIntact(others)
  {
    DropFirst(b, others);
  }

  lemma {:induction false} IntactCount(blocks: seq<ChatBlock>)
    ensures |IntactOnes(blocks)| <= |blocks|
    ensures |IntactOnes(blocks)| == |blocks| <==> AllIntact(blocks)
    ensures AllIntact(blocks) ==> IntactOnes(blocks) == blocks
  {
    if blocks != [] {
      IntactCount(blocks[1..]);
      IntactStep(blocks[0], blocks[1..]);
      assert blocks == [blocks[0]] + blocks[1..];
    }
  }

  /** The very same blocks come back if and only if every one is intact and no result among
      them carries an error. */
  lemma {:induction false} BlocksRoundTrip(parts: seq<Part>)
    requires Sendable(parts) && |Blocks(parts)| <= MAX_BLOCKS_PER_MESSAGE
    ensures Extract(Message(parts)).blocks == Blocks(parts)
       <==> forall b :: b in Blocks(parts) ==> Intact(b) && !(b.ToolResult? && b.error.Some?)
  {
    IntactBlocksComeBack(parts);
    IntactCount(Blocks(parts));
    ReadEachCount(IntactOnes(Blocks(parts)));
    ReadEachSame(Blocks(parts));
  }

  // ---------------------------------------------------------- short blocks, intact and not

  lemma {:induction false} QuoteLength(s: string)
    ensures |Quote(s)| <= 6 * |s| + 2
  {
    if s != "" {
      QuoteLength(s[1..]);
      assert |EscapeChar(s[0])| <= 6;
    }
  }

  lemma {:induction false} FieldLength(key: string, v: Json, others: Fields, indent: string)
    ensures |PrintFields(Field(key, v, others), indent)|
         <= |indent| + 6 * |key| + 6 + |Print(v, indent)| + |PrintFields(others, indent)|
  {
    QuoteLength(key);
  }

  lemma {:induction false} TwoFieldsLength(k: string, v: Json, l: string, w: Json, others: Fields, indent: string)
    ensures |PrintFields(Field(k, v, Field(l, w, others)), indent)|
         <= 2 * |indent| + 6 * |k| + 6 * |l| + 12 + |Print(v, indent)| + |Print(w, indent)| + |PrintFields(others, indent)|
  {
    FieldLength(k, v, Field(l, w, others), indent);
    FieldLength(l, w, others, indent);
  }

  lemma {:induction false} ObjectLength(fields: Fields)
    ensures |Print(Obj(fields), "")| <= |PrintFields(fields, "  ")| + 4
  {
    assert "" + "  " == "  ";
  }

  lemma {:induction false} LastFieldLength(key: string, v: Option<Json>, indent: string)
    ensures |PrintFields(OptionalField(key, v, NoFields), indent)|
         <= |indent| + 6 * |key| + 6 + if v.Some? then |Print(v.value, indent)| else 0
  {
    if v.Some? {
      FieldLength(key, v.value, NoFields, indent);
    }
  }

  /** A call is not much longer than what is in it. */
  lemma {:induction false} CallLength(id: string, tool: string, args: Option<Json>)
    ensures |Body(ToolCall(id, tool, args))|
         <= 200 + 6 * |id| + 6 * |tool| + if args.Some? then |Print(args.value, "  ")| else 0
  {
    var last := OptionalField("args", args, NoFields);
    var named := Field("id", Str(id), Field("tool", Str(tool), last));
    LastFieldLength("args", args, "  ");
    QuoteLength(tool);
    QuoteLength(id);
    QuoteLength("tool.call");
    TwoFieldsLength("id", Str(id), "tool", Str(tool), last, "  ");
    TwoFieldsLength("v", Number("1"), "type", Str("tool.call"), named, "  ");
    ObjectLength(ToJson(ToolCall(id, tool, args)).fields);
  }

  lemma {:induction false} BrokenAround(a: string, s: string, b: string)
    requires !Unbroken(s)
    ensures !Unbroken(a + (s + b))
  {
    if a == "" {
      BrokenThen(s, b);
      assert a + (s + b) == s + b;
    } else {
      BrokenAround(a[1..], s, b);
      FirstAndRest(a, s + b);
      DropFirst(a[0], a[1..] + (s + b));
    }
  }

  lemma {:induction false} BrokenThen(s: string, b: string)
    requires !Unbroken(s)
    ensures !Unbroken(s + b)
  {
    if EndsEarly(s) {
      TicksThen(s, b);
      SkipGapsThen(s[Ticks(s)..], b);
    } else {
      BrokenThen(s[1..], b);
      FirstAndRest(s, b);
      DropFirst(s[0], s[1..] + b);
    }
  }

  lemma {:induction false} BrokenField(key: string, v: Json, others: Fields, indent: string)
    requires !Unbroken(Print(v, indent)) || (others.Field? && !Unbroken(PrintFields(others, indent)))
    ensures !Unbroken(PrintFields(Field(key, v, others), indent))
  {
    var more := if others.NoFields? then "" else ",\n" + PrintFields(others, indent);
    var value := Print(v, indent);
    if !Unbroken(value) {
      BrokenAround("", value, more);
      assert "" + (value + more) == value + more;
    } else {
      BrokenAround(",\n", PrintFields(others, indent), "");
      assert PrintFields(others, indent) + "" == PrintFields(others, indent);
      BrokenAround(value, more, "");
      assert more + "" == more;
    }
    BrokenAround(": ", value + more, "");
    assert (value + more) + "" == value + more;
    BrokenAround(Quote(key), ": " + (value + more), "");
    assert (": " + (value + more)) + "" == ": " + (value + more);
    BrokenAround(indent, Quote(key) + (": " + (value + more)), "");
    assert (Quote(key) + (": " + (value + more))) + "" == Quote(key) + (": " + (value + more));
  }

  lemma {:induction false} BrokenLater(k: string, v: Json, l: string, w: Json, others: Fields, indent: string)
    requires others.Field? && !Unbroken(PrintFields(others, indent))
    ensures !Unbroken(PrintFields(Field(k, v, Field(l, w, others)), indent))
  {
    BrokenField(l, w, others, indent);
    BrokenField(k, v, Field(l, w, others), indent);
  }

  lemma {:induction false} BrokenObject(fields: Fields)
    requires fields.Field? && !Unbroken(PrintFields(fields, "  "))
    ensures !Unbroken(Print(Obj(fields), ""))
  {
    BrokenAround("{\n", PrintFields(fields, "  "), "\n" + ("" + "}"));
    assert "" + "  " == "  ";
  }

  lemma {:induction false} BrokenCall(id: string, tool: string, args: Json)
    requires !Unbroken(Print(args, "  "))
    ensures !Intact(ToolCall(id, tool, Some(args)))
  {
    var last := Field("args", args, NoFields);
    var named := Field("id", Str(id), Field("tool", Str(tool), last));
    BrokenField("args", args, NoFields, "  ");
    BrokenLater("id", Str(id), "tool", Str(tool), last, "  ");
    BrokenLater("v", Number("1"), "type", Str("tool.call"), named, "  ");
    BrokenObject(Field("v", Number("1"), Field("type", Str("tool.call"), named)));
  }

  lemma {:induction false} ShortCall(id: string, tool: string, args: Option<Json>)
    requires 0 < |id| <= 1000 && 0 < |tool| <= 1000
    requires args.Some? ==> WellFormed(args.value) && |Print(args.value, "  ")| <= 1000
    ensures InLimits(ToolCall(id, tool, args))
  {
    CallLength(id, tool, args);
    CallIsWellFormed(id, tool, args);
  }

  lemma {:induction false} WellFormedMore(key: string, v: Json, others: Fields)
    requires WellFormed(v) && WellFormedFields(others)
    ensures WellFormedFields(Field(key, v, others))
  {
  }

  lemma {:induction false} CallIsWellFormed(id: string, tool: string, args: Option<Json>)
    requires args.Some? ==> WellFormed(args.value)
    ensures WellFormed(ToJson(ToolCall(id, tool, args)))
  {
    var last := OptionalField("args", args, NoFields);
    var named := Field("id", Str(id), Field("tool", Str(tool), last));
    if args.Some? {
      WellFormedMore("args", args.value, NoFields);
    }
    WellFormedMore("tool", Str(tool), last);
    WellFormedMore("id", Str(id), Field("tool", Str(tool), last));
    WellFormedMore("type", Str("tool.call"), named);
    assert WellFormed(Number("1"));
    WellFormedMore("v", Number("1"), Field("type", Str("tool.call"), named));
  }

  /** A call that may be sent and does not come back: its argument quotes a fence before
      a line separator. */
  lemma {:induction false} QuotedFenceBreaks(id: string, tool: string, quoted: string)
    requires 0 < |id| <= 1000 && 0 < |tool| <= 1000 && quoted == "```\U{2028}"
    ensures var b := ToolCall(id, tool, Some(Str(quoted))); InLimits(b) && !Intact(b)
  {
    BrokenArgument(quoted);
    BrokenCall(id, tool, Str(quoted));
    QuoteLength(quoted);
    ShortCall(id, tool, Some(Str(quoted)));
  }

  lemma {:induction false} BrokenArgument(quoted: string)
    requires quoted == "```\U{2028}"
    ensures !Unbroken(Print(Str(quoted), "  "))
  {
    assert quoted[1..] == "``\U{2028}" && quoted[1..][1..] == "`\U{2028}" && quoted[1..][1..][1..] == "\U{2028}";
    assert Escape("\U{2028}") == "\U{2028}";
    assert Escape("`\U{2028}") == "`\U{2028}";
    assert Escape("``\U{2028}") == "``\U{2028}";
    assert Escape(quoted) == quoted;
    assert Ticks("\U{2028}") == 0 && Ticks("`\U{2028}") == 1 && Ticks("``\U{2028}") == 2 && Ticks(quoted) == 3;
    assert EndsEarly(quoted);
    BrokenAround("\"", quoted, "\"");
  }

  // ---------------------------------------------------------- blocks without backticks

  predicate NoTicks(s: string) {
    forall i :: 0 <= i < |s| ==> s[i] != '`'
  }

  lemma {:induction false} NoTicksUnbroken(s: string)
    requires NoTicks(s)
    ensures Unbroken(s) && FenceFree(s)
  {
    if s != "" {
      NoTicksUnbroken(s[1..]);
    }
  }

  lemma {:induction false} NoTicksQuote(s: string)
    requires NoTicks(s)
    ensures NoTicks(Escape(s)) && NoTicks(Quote(s))
  {
    if s != "" {
      NoTicksQuote(s[1..]);
      assert NoTicks(EscapeChar(s[0]));
    }
  }

  lemma {:induction false} NoTicksField(key: string, v: Json, others: Fields, indent: string)
    requires NoTicks(key) && NoTicks(indent) && NoTicks(Print(v, indent)) && NoTicks(PrintFields(others, indent))
    ensures NoTicks(PrintFields(Field(key, v, others), indent))
  {
    NoTicksQuote(key);
    var more := if others.NoFields? then "" else ",\n" + PrintFields(others, indent);
    assert NoTicks(": " + (Print(v, indent) + more));
    assert NoTicks(Quote(key) + (": " + (Print(v, indent) + more)));
  }

  lemma {:induction false} NoTicksTwoFields(k: string, v: Json, l: string, w: Json, others: Fields, indent: string)
    requires NoTicks(k) && NoTicks(l) && NoTicks(indent) && NoTicks(Print(v, indent)) && NoTicks(Print(w, indent))
    requires NoTicks(PrintFields(others, indent))
    ensures NoTicks(PrintFields(Field(k, v, Field(l, w, others)), indent))
  {
    NoTicksField(l, w, others, indent);
    NoTicksField(k, v, Field(l, w, others), indent);
  }

  lemma {:induction false} NoTicksObject(fields: Fields)
    requires fields.Field? && NoTicks(PrintFields(fields, "  "))
    ensures NoTicks(Print(Obj(fields), ""))
  {
    assert "" + "  " == "  ";
    assert NoTicks("\n" + ("" + "}"));
    assert NoTicks(PrintFields(fields, "  ") + ("\n" + ("" + "}")));
  }

  lemma {:induction false} NoTicksCall(id: string, tool: string)
    requires NoTicks(id) && NoTicks(tool)
    ensures NoTicks(Body(ToolCall(id, tool, None)))
  {
    NoTicksQuote(id);
    NoTicksQuote(tool);
    NoTicksTwoFields("id", Str(id), "tool", Str(tool), NoFields, "  ");
    NoTicksOpening(Field("id", Str(id), Field("tool", Str(tool), NoFields)));
  }

  lemma {:induction false} NoTicksOpening(named: Fields)
    requires NoTicks(PrintFields(named, "  "))
    ensures NoTicks(Print(Obj(Field("v", Number("1"), Field("type", Str("tool.call"), named))), ""))
  {
    NoTicksKind("tool.call", named);
  }

  lemma {:induction false} NoTicksKind(kind: string, named: Fields)
    requires NoTicks(kind) && NoTicks(PrintFields(named, "  "))
    ensures NoTicks(Print(Obj(Field("v", Number("1"), Field("type", Str(kind), named))), ""))
  {
    NoTicksQuote(kind);
    NoTicksFields(Number("1"), Str(kind), named);
  }

  lemma {:induction false} NoTicksFields(version: Json, kind: Json, named: Fields)
    requires NoTicks(Print(version, "  ")) && NoTicks(Print(kind, "  ")) && NoTicks(PrintFields(named, "  "))
    ensures NoTicks(Print(Obj(Field("v", version, Field("type", kind, named))), ""))
  {
    NoTicksTwoFields("v", version, "type", kind, named, "  ");
    NoTicksObject(Field("v", version, Field("type", kind, named)));
  }

  /** A call without arguments, and without backticks in its names, always comes back. */
  lemma {:induction false} PlainCall(id: string, tool: string)
    requires 0 < |id| <= 1000 && 0 < |tool| <= 1000 && NoTicks(id) && NoTicks(tool)
    ensures InLimits(ToolCall(id, tool, None)) && Intact(ToolCall(id, tool, None))
  {
    ShortCall(id, tool, None);
    NoTicksCall(id, tool);
    NoTicksUnbroken(Body(ToolCall(id, tool, None)));
  }
}
