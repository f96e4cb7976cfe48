/** Deciding when a streaming reply has finished, and why it never ends inside a block. */
module Quiescence {
  import opened Options
  import opened Sequences
  import opened Json
  import opened JsonLines
  import opened ChatBlocks
  import opened ChatRoundTrip
  import opened ChatSurvivors
  import opened ChatProse
  import opened Text

  const DEFAULT_IDLE_MS := 2200
  const DEFAULT_MAX_WAIT_MS := 120_000
  const CLOSED_BLOCK_IDLE_MS := 600

  // ---------------------------------------------------------- the two patterns

  /** Three or more backticks, blanks, `dwtd`: the length of the fence and what follows. */
  function TagAt(s: string): (r: Option<(nat, string)>)
    ensures r.Some? ==> |r.value.1| < |s| && r.value.0 >= 3
  {
    var n := Ticks(s);
    var t := SkipGaps(s[n..]);
    if n >= 3 && "dwtd" <= t then Some((n, t[4..])) else None
  }

  /** `text.match(OPEN_BLOCK).length` */
  function OpenCount(s: string): nat
    decreases |s|
  {
    if s == "" then 0
    else if TagAt(s).Some? then 1 + OpenCount(TagAt(s).value.1)
    else OpenCount(s[1..])
  }

  /** `\r?\n` */
  function LineBreakAt(s: string): (r: Option<string>)
    ensures r.Some? ==> |r.value| < |s|
  {
    if s != "" && s[0] == '\n' then Some(s[1..])
    else if |s| > 1 && s[0] == '\r' && s[1] == '\n' then Some(s[2..])
    else None
  }

  /** `\r?\n[ \t]*\1` */
  function FenceAt(s: string, n: nat): (r: Option<string>)
    ensures r.Some? ==> |r.value| <= |s|
  {
    match LineBreakAt(s)
    case None => None
    case Some(t) => if Ticks(SkipGaps(t)) >= n then Some(SkipGaps(t)[n..]) else None
  }

  /** The shortest stretch up to a matching fence: what follows the fence. */
  function FindFence(s: string, n: nat): (r: Option<string>)
    ensures r.Some? ==> |r.value| <= |s|
  {
    if FenceAt(s, n).Some? then FenceAt(s, n)
    else if s == "" then None
    else FindFence(s[1..], n)
  }

  /** CLOSED_BLOCK at this position: what follows the match. */
  function ClosedAt(s: string): (r: Option<string>)
    ensures r.Some? ==> |r.value| < |s|
  {
    match TagAt(s)
    case None => None
    case Some(tag) =>
      match LineBreakAt(SkipGaps(tag.1))
      case None => None
      case Some(body) => FindFence(body, tag.0)
  }

  /** `CLOSED_BLOCK.exec(s)`: what follows the first match. */
  function ExecClosed(s: string): (r: Option<string>)
    ensures r.Some? ==> |r.value| < |s|
  {
    if s == "" then None
    else if ClosedAt(s).Some? then ClosedAt(s)
    else ExecClosed(s[1..])
  }

  function ClosedCount(s: string): nat
    decreases |s|
  {
    if ExecClosed(s).Some? then 1 + ClosedCount(ExecClosed(s).value) else 0
  }

  predicate HasClosedBlock(text: string) {
    ExecClosed(text).Some?
  }

  /** The text ends in a block that is still being written. */
  predicate EndsInside(text: string) {
    ClosedCount(text) < OpenCount(text)
  }

  method EndsInsideBlock(text: string) returns (inside: bool)
    ensures inside == EndsInside(text)
  {
    var openCount := OpenCount(text);
    if openCount == 0 {
      return false;
    }
    var closed, rest := 0, text;
    while ExecClosed(rest).Some?
      invariant closed + ClosedCount(rest) == ClosedCount(text)
      decreases |rest|
    {
      closed := closed + 1;
      rest := ExecClosed(rest).value;
    }
    return closed < openCount;
  }

  // ---------------------------------------------------------- the verdict

  datatype Reason = ClosedBlock | Idle | Timeout | StillChanging

  datatype Verdict = Verdict(complete: bool, reason: Reason, certain: bool)

  datatype Input = Input(text: string, msSinceLastChange: int, msSinceStart: int, idleMs: Option<int>,
                         maxWaitMs: Option<int>, closedBlockIdleMs: Option<int>)

  function OrElse(o: Option<int>, default: int): int {
    if o.Some? then o.value else default
  }

  function JudgeCompletion(input: Input): Verdict {
    var midBlock := EndsInside(input.text);
    if !midBlock && HasClosedBlock(input.text)
       && input.msSinceLastChange >= OrElse(input.closedBlockIdleMs, CLOSED_BLOCK_IDLE_MS)
    then Verdict(true, ClosedBlock, true)
    else if input.msSinceStart >= OrElse(input.maxWaitMs, DEFAULT_MAX_WAIT_MS) then Verdict(true, Timeout, false)
    else if midBlock then Verdict(false, StillChanging, false)
    else if TrimEnd(TrimStart(input.text)) == "" then Verdict(false, StillChanging, false)
    else if input.msSinceLastChange >= OrElse(input.idleMs, DEFAULT_IDLE_MS) then Verdict(true, Idle, false)
    else Verdict(false, StillChanging, false)
  }

  predicate ShouldAccept(verdict: Verdict, generating: bool) {
    verdict.complete && (!generating || verdict.reason == ClosedBlock || verdict.reason == Timeout)
  }

  /** The hard deadline of two minutes has passed, unless another was set. */
  predicate Overdue(input: Input) {
    input.msSinceStart >= OrElse(input.maxWaitMs, 120_000)
  }

  /** The text has not changed for 2.2 seconds, unless another time was set. */
  predicate Quiet(input: Input) {
    input.msSinceLastChange >= OrElse(input.idleMs, 2200)
  }

  /** The text has not changed for 0.6 seconds, unless another time was set. */
  predicate BrieflyQuiet(input: Input) {
    input.msSinceLastChange >= OrElse(input.closedBlockIdleMs, 600)
  }

  /** Inside a block only the hard deadline ends the wait. */
  lemma {:induction false} OnlyTheDeadlineEndsABlock(input: Input, generating: bool)
    requires EndsInside(input.text)
    ensures ShouldAccept(JudgeCompletion(input), generating) <==> Overdue(input)
    ensures ShouldAccept(JudgeCompletion(input), generating) ==> JudgeCompletion(input).reason == Timeout
  {
  }

  // ---------------------------------------------------------- counting openers

  lemma {:induction false} TicksBeforeBreak(j: string, rest: string)
    ensures Ticks(j + ("\n" + rest)) == Ticks(j)
  {
    TicksStop(j, "\n" + rest);
  }

  lemma {:induction false} SkipGapsBeforeBreak(j: string, rest: string)
    ensures SkipGaps(j + ("\n" + rest)) == SkipGaps(j) + ("\n" + rest)
  {
    if j == "" {
      assert j + ("\n" + rest) == "\n" + rest;
    } else {
      SkipGapsBeforeBreak(j[1..], rest);
      FirstAndRest(j, "\n" + rest);
      DropFirst(j[0], j[1..] + ("\n" + rest));
    }
  }

  lemma {:induction false} TagWordBeforeBreak(t: string, rest: string)
    ensures "dwtd" <= t + ("\n" + rest) <==> "dwtd" <= t
    ensures "dwtd" <= t ==> (t + ("\n" + rest))[4..] == t[4..] + ("\n" + rest)
  {
    var s := t + ("\n" + rest);
    if |t| < 4 {
      assert s[|t|] == '\n';
    } else {
      assert s[..4] == t[..4];
    }
  }

  /** A tag never reaches past the end of a line. */
  lemma {:induction false} TagBeforeBreak(j: string, rest: string)
    ensures TagAt(j + ("\n" + rest)).Some? <==> TagAt(j).Some?
    ensures TagAt(j).Some? ==>
              TagAt(j + ("\n" + rest)) == Some((TagAt(j).value.0, TagAt(j).value.1 + ("\n" + rest)))
  {
    var n := Ticks(j);
    TicksBeforeBreak(j, rest);
    assert (j + ("\n" + rest))[n..] == j[n..] + ("\n" + rest);
    SkipGapsBeforeBreak(j[n..], rest);
    TagWordBeforeBreak(SkipGaps(j[n..]), rest);
  }

  /** Openers are counted line by line. */
  lemma {:induction false} OpenCountLines(j: string, rest: string)
    ensures OpenCount(j + ("\n" + rest)) == OpenCount(j) + OpenCount(rest)
    decreases |j|
  {
    if j == "" {
      assert j + ("\n" + rest) == "\n" + rest;
    } else {
      TagBeforeBreak(j, rest);
      if TagAt(j).Some? {
        OpenCountLines(TagAt(j).value.1, rest);
      } else {
        OpenCountLines(j[1..], rest);
        FirstAndRest(j, "\n" + rest);
        DropFirst(j[0], j[1..] + ("\n" + rest));
      }
    }
  }

  predicate TickFree(s: string) {
    '`' !in s
  }

  lemma {:induction false} OpenCountTickFree(s: string)
    requires TickFree(s)
    ensures OpenCount(s) == 0
  {
    if s != "" {
      OpenCountTickFree(s[1..]);
    }
  }

  const TAG := "```dwtd"

  lemma {:induction false} TagAtTag(rest: string)
    ensures TagAt(TAG + rest) == Some((3, rest))
  {
    var s := TAG + rest;
    assert s[1..][1..][1..] == s[3..] == "dwtd" + rest;
    assert Ticks(s[3..]) == 0;
    assert Ticks(s[1..][1..]) == 1 && Ticks(s[1..]) == 2 && Ticks(s) == 3;
    assert SkipGaps(s[3..]) == s[3..] && "dwtd" <= s[3..];
    assert s[3..][4..] == rest;
  }

  lemma {:induction false} OpenCountFence()
    ensures OpenCount("```") == 0 && OpenCount(TAG) == 1
  {
    TagAtTag("");
    assert TAG + "" == TAG;
    assert Ticks("") == 0 && Ticks("```"[1..][1..]) == 1 && Ticks("```"[1..]) == 2 && Ticks("```") == 3;
    assert "```"[3..] == "" && "```"[1..][1..][1..] == "";
    assert TagAt("```").None? && TagAt("```"[1..]).None? && TagAt("```"[1..][1..]).None?;
  }

  // ---------------------------------------------------------- counting closers

  /** What is left of a rendered block after its tag. */
  function AfterTag(b: ChatBlock): string {
    "\n" + (Body(b) + ("\n" + "```"))
  }

  lemma {:induction false} RenderIsTagged(b: ChatBlock, tail: string)
    ensures Render(b) == TAG + AfterTag(b)
    ensures Render(b) + tail == TAG + ("\n" + (Body(b) + ("\n" + ("```" + tail))))
  {
    assert "```dwtd\n" == TAG + "\n";
    assert "\n" + "```" == "\n```";
    Associative(TAG, "\n", Body(b) + "\n```");
    Associative(TAG, AfterTag(b), tail);
    Associative("\n", Body(b) + ("\n" + "```"), tail);
    Associative(Body(b), "\n" + "```", tail);
    Associative("\n", "```", tail);
  }

  /** Inside safe lines no fence opens a line. */
  lemma {:induction false} NoFenceAtLine(p: Place, j: string, rest: string)
    requires Trace(p, j) == Within(true) && j != "" && (p == AtStart || p.Within?)
    ensures FenceAt(j + rest, 3).None?
  {
    FirstAndRest(j, rest);
    DropFirst(j[0], j[1..] + rest);
    TraceBroken(j[1..]);
    if j[0] == '\n' {
      assert Trace(AtStart, j[1..]) == Within(true);
      var k := SkipGapsSafe(AtStart, j[1..], rest);
      assert (j[1..][k..] + rest)[0] == j[1..][k];
      assert Ticks(j[1..][k..] + rest) == 0;
    }
  }

  lemma {:induction false} FenceAfterBody(tail: string)
    ensures FenceAt("\n" + ("```" + tail), 3) == Some(tail)
  {
    var ticks := "```" + tail;
    DropFirst('\n', ticks);
    assert SkipGaps(ticks) == ticks && ticks[3..] == tail;
    assert Ticks(ticks[1..][1..]) >= 1 && Ticks(ticks[1..]) >= 2 && Ticks(ticks) >= 3;
  }

  lemma {:induction false} FindFenceSafe(p: Place, j: string, tail: string)
    requires Trace(p, j) == Within(true) && (p == AtStart || p.Within?)
    ensures FindFence(j + ("\n" + ("```" + tail)), 3) == Some(tail)
    decreases |j|
  {
    var close := "\n" + ("```" + tail);
    if j == "" {
      FenceAfterBody(tail);
      assert j + close == close;
    } else {
      NoFenceAtLine(p, j, close);
      FirstAndRest(j, close);
      DropFirst(j[0], j[1..] + close);
      TraceBroken(j[1..]);
      FindFenceSafe(Next(p, j[0]), j[1..], tail);
    }
  }

  predicate PrintableBlock(b: ChatBlock) {
    WellFormed(ToJson(b))
  }

  lemma {:induction false} ClosedRendered(b: ChatBlock, tail: string)
    requires PrintableBlock(b)
    ensures ClosedAt(Render(b) + tail) == Some(tail)
  {
    var body := Body(b) + ("\n" + ("```" + tail));
    RenderIsTagged(b, tail);
    TagAtTag("\n" + body);
    DropFirst('\n', body);
    PrintedJsonIsSafe(ToJson(b));
    FindFenceSafe(AtStart, Body(b), tail);
  }

  lemma {:induction false} ExecClosedRendered(b: ChatBlock, tail: string)
    requires PrintableBlock(b)
    ensures ExecClosed(Render(b) + tail) == Some(tail)
    ensures ClosedCount(Render(b) + tail) == 1 + ClosedCount(tail)
  {
    ClosedRendered(b, tail);
  }

  lemma {:induction false} ExecClosedTickFree(s: string, tail: string)
    requires TickFree(s)
    ensures ExecClosed(s + tail) == ExecClosed(tail)
  {
    if s == "" {
      assert s + tail == tail;
    } else {
      ExecClosedTickFree(s[1..], tail);
      FirstAndRest(s, tail);
      DropFirst(s[0], s[1..] + tail);
      assert Ticks(s + tail) == 0;
    }
  }

  /** No line of the text starts with three backticks. */
  predicate NoFenceLine(s: string) {
    FenceAt(s, 3).None? && (s != "" ==> NoFenceLine(s[1..]))
  }

  lemma {:induction false} NoFenceToFind(s: string, n: nat)
    requires NoFenceLine(s) && n >= 3
    ensures FindFence(s, n).None?
  {
    if s != "" {
      NoFenceToFind(s[1..], n);
    }
  }

  predicate Suffix(t: string, s: string) {
    |t| <= |s| && s[|s| - |t|..] == t
  }

  lemma {:induction false} SuffixOfSuffix(u: string, t: string, s: string)
    requires Suffix(u, t) && Suffix(t, s)
    ensures Suffix(u, s)
  {
    assert s[|s| - |t|..][|t| - |u|..] == s[|s| - |u|..];
  }

  lemma {:induction false} NoFenceLineLater(t: string, s: string)
    requires NoFenceLine(s) && Suffix(t, s)
    ensures NoFenceLine(t)
    decreases |s|
  {
    if |t| < |s| {
      assert s[1..][|s[1..]| - |t|..] == s[|s| - |t|..];
      NoFenceLineLater(t, s[1..]);
    } else {
      assert s[0..] == s;
    }
  }

  lemma {:induction false} SkipGapsIsSuffix(s: string)
    ensures Suffix(SkipGaps(s), s)
  {
    if s != "" && Gap(s[0]) {
      SkipGapsIsSuffix(s[1..]);
      assert Suffix(s[1..], s);
      SuffixOfSuffix(SkipGaps(s), s[1..], s);
    } else {
      assert s[0..] == s;
    }
  }

  lemma {:induction false} TagRestIsSuffix(s: string)
    requires TagAt(s).Some?
    ensures Suffix(TagAt(s).value.1, s)
  {
    var n := Ticks(s);
    var t := SkipGaps(s[n..]);
    assert Suffix(s[n..], s) && Suffix(t[4..], t);
    SkipGapsIsSuffix(s[n..]);
    SuffixOfSuffix(t, s[n..], s);
    SuffixOfSuffix(t[4..], t, s);
  }

  lemma {:induction false} LineBreakIsSuffix(s: string)
    requires LineBreakAt(s).Some?
    ensures Suffix(LineBreakAt(s).value, s)
  {
  }

  lemma {:induction false} NothingClosesAfter(t: string, s: string, n: nat)
    requires NoFenceLine(s) && Suffix(t, s) && n >= 3
    ensures LineBreakAt(t).Some? ==> FindFence(LineBreakAt(t).value, n).None?
  {
    if LineBreakAt(t).Some? {
      var body := LineBreakAt(t).value;
      LineBreakIsSuffix(t);
      SuffixOfSuffix(body, t, s);
      NoFenceLineLater(body, s);
      NoFenceToFind(body, n);
    }
  }

  lemma {:induction false} NothingClosesHere(s: string)
    requires NoFenceLine(s)
    ensures ClosedAt(s).None?
  {
    if TagAt(s).Some? {
      var t := TagAt(s).value.1;
      TagRestIsSuffix(s);
      SkipGapsIsSuffix(t);
      SuffixOfSuffix(SkipGaps(t), t, s);
      NothingClosesAfter(SkipGaps(t), s, TagAt(s).value.0);
    }
  }

  lemma {:induction false} NothingCloses(s: string)
    requires NoFenceLine(s)
    ensures ExecClosed(s).None? && ClosedCount(s) == 0
    decreases |s|
  {
    NothingClosesHere(s);
    if s != "" {
      NothingCloses(s[1..]);
    }
  }

  // ---------------------------------------------------------- an unfinished block

  /** Up to two backticks, the start of a closing fence. */
  function FewTicks(i: nat): string
    requires i < 3
  {
    "``"[..i]
  }

  lemma {:induction false} NoTicksAtStart(s: string, i: nat)
    requires !Trace(AtStart, s).Broken? && i < 3
    ensures Ticks(SkipGaps(s + FewTicks(i))) < 3
    decreases |s|
  {
    if s == "" {
      assert s + FewTicks(i) == FewTicks(i);
    } else {
      FirstAndRest(s, FewTicks(i));
      DropFirst(s[0], s[1..] + FewTicks(i));
      TraceBroken(s[1..]);
      if Gap(s[0]) {
        NoTicksAtStart(s[1..], i);
      }
    }
  }

  lemma {:induction false} NoFenceInTicks(i: nat)
    requires i < 3
    ensures NoFenceLine(FewTicks(i))
  {
  }

  /** Text whose lines are safe so far, and then at most two backticks: no line of it
      starts with three. */
  lemma {:induction false} NoFenceInPartial(p: Place, s: string, i: nat)
    requires !Trace(p, s).Broken? && i < 3
    ensures NoFenceLine(s + FewTicks(i))
    decreases |s|
  {
    if s == "" {
      NoFenceInTicks(i);
      assert s + FewTicks(i) == FewTicks(i);
    } else {
      FirstAndRest(s, FewTicks(i));
      DropFirst(s[0], s[1..] + FewTicks(i));
      TraceBroken(s[1..]);
      NoFenceInPartial(Next(p, s[0]), s[1..], i);
      if s[0] == '\n' {
        NoTicksAtStart(s[1..], i);
      }
    }
  }

  lemma {:induction false} TracePrefix(p: Place, s: string, k: nat)
    requires k <= |s| && !Trace(p, s).Broken?
    ensures !Trace(p, s[..k]).Broken?
  {
    TraceAppend(p, s[..k], s[k..]);
    assert s[..k] + s[k..] == s;
    TraceBroken(s[k..]);
  }

  /** The body of a block between its two line breaks. */
  function Lines(b: ChatBlock): string {
    "\n" + (Body(b) + "\n")
  }

  lemma {:induction false} LinesTrace(b: ChatBlock)
    requires PrintableBlock(b)
    ensures Trace(Within(true), Lines(b)) == AtStart
    ensures AfterTag(b) == Lines(b) + "```"
  {
    PrintedJsonIsSafe(ToJson(b));
    TraceAppend(Within(true), "\n", Body(b) + "\n");
    TraceOne(Within(true), '\n');
    TraceAppend(AtStart, Body(b), "\n");
    TraceOne(Within(true), '\n');
    Associative(Body(b), "\n", "```");
    Associative("\n", Body(b) + "\n", "```");
  }

  lemma {:induction false} PrefixShape(s: string, x: string) returns (k: nat, i: nat)
    requires x < s + "```"
    ensures k <= |s| && i < 3 && x == s[..k] + FewTicks(i)
  {
    if |x| <= |s| {
      k, i := |x|, 0;
      assert x == s[..k];
      assert FewTicks(0) == "";
    } else {
      k, i := |s|, |x| - |s|;
      assert x == (s + "```")[..|x|] == s + "```"[..i];
      assert "```"[..i] == FewTicks(i);
    }
  }

  /** A block that has begun and not closed contains no fence line. */
  lemma {:induction false} NoFenceInUnfinished(b: ChatBlock, x: string)
    requires PrintableBlock(b) && x < AfterTag(b)
    ensures NoFenceLine(x)
  {
    LinesTrace(b);
    var k, i := PrefixShape(Lines(b), x);
    TracePrefix(Within(true), Lines(b), k);
    NoFenceInPartial(Within(true), Lines(b)[..k], i);
  }

  lemma {:induction false} NoFenceAfterLine(line: string, s: string)
    requires NoFenceLine(s) && '\n' !in line && '\r' !in line
    ensures NoFenceLine(line + s)
  {
    if line == "" {
      assert line + s == s;
    } else {
      NoFenceAfterLine(line[1..], s);
      FirstAndRest(line, s);
      DropFirst(line[0], line[1..] + s);
    }
  }

  lemma {:induction false} OpensOne(x: string)
    ensures OpenCount(TAG + x) >= 1
  {
    TagAtTag(x);
  }

  // ---------------------------------------------------------- replies

  /** Parts of a reply: rendered blocks, and prose without backticks. */
  predicate LegalReply(parts: seq<Part>) {
    forall i :: 0 <= i < |parts| ==>
      match parts[i] case Prose(text) => TickFree(text) case Block(b) => PrintableBlock(b)
  }

  /** Finished parts, each followed by a blank line. */
  function Done(parts: seq<Part>): string {
    if parts == [] then "" else PartText(parts[0]) + ("\n\n" + Done(parts[1..]))
  }

  /** How often the bodies of the blocks spell a tag themselves. */
  function TagsInside(blocks: seq<ChatBlock>): nat {
    if blocks == [] then 0 else OpenCount(Body(blocks[0])) + TagsInside(blocks[1..])
  }

  lemma {:induction false} ClosedCountTickFree(s: string, tail: string)
    requires TickFree(s)
    ensures ClosedCount(s + tail) == ClosedCount(tail)
  {
    ExecClosedTickFree(s, tail);
  }

  lemma {:induction false} DoneStep(parts: seq<Part>, rest: string)
    requires parts != []
    ensures Done(parts) + rest == PartText(parts[0]) + ("\n\n" + (Done(parts[1..]) + rest))
  {
    Associative(PartText(parts[0]), "\n\n" + Done(parts[1..]), rest);
    Associative("\n\n", Done(parts[1..]), rest);
  }

  lemma {:induction false} ClosedInDone(parts: seq<Part>, rest: string)
    requires LegalReply(parts)
    ensures ClosedCount(Done(parts) + rest) == |Blocks(parts)| + ClosedCount(rest)
    decreases |parts|
  {
    if parts == [] {
      assert Done(parts) + rest == rest;
    } else {
      var more := Done(parts[1..]) + rest;
      DoneStep(parts, rest);
      ClosedInDone(parts[1..], rest);
      ClosedCountTickFree("\n\n", more);
      if parts[0].Prose? {
        ClosedCountTickFree(parts[0].text, "\n\n" + more);
      } else {
        ExecClosedRendered(parts[0].block, "\n\n" + more);
      }
    }
  }

  lemma {:induction false} OpenCountRendered(b: ChatBlock)
    ensures OpenCount(Render(b)) == 1 + OpenCount(Body(b))
  {
    RenderIsTagged(b, "");
    assert Render(b) + "" == Render(b) && "```" + "" == "```";
    OpenCountLines(TAG, Body(b) + ("\n" + "```"));
    OpenCountLines(Body(b), "```");
    OpenCountFence();
  }

  lemma {:induction false} OpenAcrossBlankLine(s: string, rest: string)
    ensures OpenCount(s + ("\n\n" + rest)) == OpenCount(s) + OpenCount(rest)
  {
    OpenAfterBreak(rest);
    OpenCountLines(s, "\n" + rest);
    assert "\n\n" + rest == "\n" + ("\n" + rest);
  }

  lemma {:induction false} OpenAfterBreak(rest: string)
    ensures OpenCount("\n" + rest) == OpenCount(rest)
  {
    OpenCountLines("", rest);
    assert "" + ("\n" + rest) == "\n" + rest;
  }

  lemma {:induction false} OpenInDone(parts: seq<Part>, rest: string)
    requires LegalReply(parts)
    ensures OpenCount(Done(parts) + rest) == |Blocks(parts)| + TagsInside(Blocks(parts)) + OpenCount(rest)
    decreases |parts|
  {
    if parts == [] {
      assert Done(parts) + rest == rest;
    } else {
      var more := Done(parts[1..]) + rest;
      DoneStep(parts, rest);
      OpenInDone(parts[1..], rest);
      OpenAcrossBlankLine(PartText(parts[0]), more);
      if parts[0].Prose? {
        OpenCountTickFree(parts[0].text);
        assert Blocks(parts) == Blocks(parts[1..]);
      } else {
        OpenCountRendered(parts[0].block);
        assert Blocks(parts) == [parts[0].block] + Blocks(parts[1..]);
        DropFirst(parts[0].block, Blocks(parts[1..]));
      }
    }
  }

  /** While a block is being written, however many are complete before it, the text ends
      inside a block. */
  lemma {:induction false} MidBlockIsInside(parts: seq<Part>, b: ChatBlock, x: string)
    requires LegalReply(parts) && PrintableBlock(b) && x < AfterTag(b)
    ensures EndsInside(Done(parts) + (TAG + x))
  {
    ClosedInDone(parts, TAG + x);
    OpenInDone(parts, TAG + x);
    NoFenceInUnfinished(b, x);
    NoFenceAfterLine(TAG, x);
    NothingCloses(TAG + x);
    OpensOne(x);
  }

  /** So nothing but the hard deadline can end the wait there. */
  lemma {:induction false} NoMidBlockEnding(parts: seq<Part>, b: ChatBlock, x: string, input: Input, generating: bool)
    requires LegalReply(parts) && PrintableBlock(b) && x < AfterTag(b)
    requires input.text == Done(parts) + (TAG + x)
    ensures ShouldAccept(JudgeCompletion(input), generating) <==> Overdue(input)
    ensures ShouldAccept(JudgeCompletion(input), generating) ==> JudgeCompletion(input).reason == Timeout
  {
    MidBlockIsInside(parts, b, x);
    OnlyTheDeadlineEndsABlock(input, generating);
  }

  /** With every block closed and prose after them, the text counts as inside a block
      exactly when some block spells a tag in one of its own strings. */
  lemma {:induction false} ClosedIsOutside(parts: seq<Part>, prose: string)
    requires LegalReply(parts) && TickFree(prose)
    ensures EndsInside(Done(parts) + prose) <==> TagsInside(Blocks(parts)) > 0
    ensures HasClosedBlock(Done(parts) + prose) <==> Blocks(parts) != []
  {
    ClosedInDone(parts, prose);
    OpenInDone(parts, prose);
    OpenCountTickFree(prose);
    ClosedCountTickFree(prose, "");
    assert prose + "" == prose;
  }

  /** The same when the text ends with the closing fence of the last block. */
  lemma {:induction false} JustClosedIsOutside(parts: seq<Part>, b: ChatBlock)
    requires LegalReply(parts) && PrintableBlock(b)
    ensures EndsInside(Done(parts) + Render(b)) <==> TagsInside(Blocks(parts)) + OpenCount(Body(b)) > 0
    ensures HasClosedBlock(Done(parts) + Render(b))
  {
    ClosedInDone(parts, Render(b));
    OpenInDone(parts, Render(b));
    OpenCountRendered(b);
    ExecClosedRendered(b, "");
    assert Render(b) + "" == Render(b);
    assert ClosedCount("") == 0;
  }

  lemma {:induction false} BlocksAreNotBlank(parts: seq<Part>, prose: string)
    requires LegalReply(parts) && Blocks(parts) != []
    ensures !AllSpace(Done(parts) + prose)
  {
    var text := Done(parts) + prose;
    OpenInDone(parts, prose);
    if TickFree(text) {
      OpenCountTickFree(text);
    }
    var i :| 0 <= i < |text| && text[i] == '`';
    assert !IsSpace(text[i]);
  }

  /** When a reply with complete blocks is accepted, exactly. If no block spells a tag: after a
      brief quiet, even while the page still says it is generating; after a longer quiet when it
      does not; or at the hard deadline. If one does: at the hard deadline only. */
  lemma {:induction false} ClosedReplyIsAccepted(parts: seq<Part>, prose: string, input: Input, generating: bool)
    requires LegalReply(parts) && TickFree(prose) && Blocks(parts) != []
    requires input.text == Done(parts) + prose
    ensures TagsInside(Blocks(parts)) == 0 ==>
              (ShouldAccept(JudgeCompletion(input), generating)
               <==> BrieflyQuiet(input) || Overdue(input) || (Quiet(input) && !generating))
    ensures TagsInside(Blocks(parts)) == 0 ==> (JudgeCompletion(input).certain <==> BrieflyQuiet(input))
    ensures TagsInside(Blocks(parts)) > 0 ==> (ShouldAccept(JudgeCompletion(input), generating) <==> Overdue(input))
    ensures TagsInside(Blocks(parts)) > 0 ==> !JudgeCompletion(input).certain
  {
    ClosedIsOutside(parts, prose);
    BlocksAreNotBlank(parts, prose);
    BlankExactly(input.text);
    if EndsInside(input.text) {
      OnlyTheDeadlineEndsABlock(input, generating);
    }
  }

  /** When a reply without any backtick is accepted, exactly: after the longer quiet, once the
      page no longer says it is generating and there is something in it; or at the hard deadline.
      It is never certain. */
  lemma {:induction false} PlainReplyIsAccepted(input: Input, generating: bool)
    requires TickFree(input.text)
    ensures ShouldAccept(JudgeCompletion(input), generating)
       <==> Overdue(input) || (Quiet(input) && !generating && !AllSpace(input.text))
    ensures !JudgeCompletion(input).certain
  {
    assert Done([]) + input.text == input.text;
    ClosedIsOutside([], input.text);
    BlankExactly(input.text);
  }

  // ---------------------------------------------------------- a block that quotes a tag

  lemma {:induction false} OpensAfter(a: string, s: string)
    requires TickFree(a)
    ensures OpenCount(a + s) == OpenCount(s)
  {
    if a == "" {
      assert a + s == s;
    } else {
      OpensAfter(a[1..], s);
      FirstAndRest(a, s);
      DropFirst(a[0], a[1..] + s);
      assert Ticks(a + s) == 0;
    }
  }

  lemma {:induction false} QuoteTickFree(s: string)
    requires TickFree(s)
    ensures TickFree(Quote(s))
  {
    if s != "" {
      QuoteTickFree(s[1..]);
      assert Escape(s[1..]) == Quote(s[1..])[1..|Quote(s[1..])| - 1];
      assert TickFree(EscapeChar(s[0]));
    }
  }

  /** A field that spells no backtick before what follows it. */
  lemma {:induction false} OpensInLater(key: string, v: Json, others: Fields, indent: string)
    requires others.Field? && TickFree(key) && TickFree(indent) && TickFree(Print(v, indent))
    ensures OpenCount(PrintFields(Field(key, v, others), indent)) == OpenCount(PrintFields(others, indent))
  {
    var rest := PrintFields(others, indent);
    QuoteTickFree(key);
    OpensAfter(",\n", rest);
    OpensAfter(Print(v, indent), ",\n" + rest);
    OpensAfter(": ", Print(v, indent) + (",\n" + rest));
    OpensAfter(Quote(key), ": " + (Print(v, indent) + (",\n" + rest)));
    OpensAfter(indent, Quote(key) + (": " + (Print(v, indent) + (",\n" + rest))));
  }

  lemma {:induction false} OpensInValue(key: string, v: Json, others: Fields, indent: string, inner: string)
    requires others.Field? && TickFree(key) && TickFree(indent) && Print(v, indent) == "\"" + (TAG + inner)
    ensures OpenCount(PrintFields(Field(key, v, others), indent)) > 0
  {
    var value, more := Print(v, indent), ",\n" + PrintFields(others, indent);
    QuoteTickFree(key);
    OpensOne(inner + more);
    OpensAfter("\"", TAG + (inner + more));
    Associative(TAG, inner, more);
    Associative("\"", TAG + inner, more);
    OpensAfter(": ", value + more);
    OpensAfter(Quote(key), ": " + (value + more));
    OpensAfter(indent, Quote(key) + (": " + (value + more)));
  }

  lemma {:induction false} OpensInObject(fields: Fields)
    requires fields.Field?
    ensures OpenCount(Print(Obj(fields), "")) >= OpenCount(PrintFields(fields, "  "))
  {
    assert "" + "  " == "  ";
    OpenCountLines(PrintFields(fields, "  "), "" + "}");
    OpensAfter("{\n", PrintFields(fields, "  ") + ("\n" + ("" + "}")));
  }

  lemma {:induction false} QuotedTag(more: string)
    ensures Quote(TAG + more) == "\"" + (TAG + (Escape(more) + "\""))
  {
    EscapeTicks(TAG, more);
    Associative(TAG, Escape(more), "\"");
  }

  lemma {:induction false} EscapeTicks(word: string, more: string)
    requires forall i :: 0 <= i < |word| ==> EscapeChar(word[i]) == [word[i]]
    ensures Escape(word + more) == word + Escape(more)
  {
    if word == "" {
      assert word + more == more;
    } else {
      EscapeTicks(word[1..], more);
      FirstAndRest(word, more);
      DropFirst(word[0], word[1..] + more);
      FirstAndRest(word, Escape(more));
    }
  }

  lemma {:induction false} OpensInHead(version: Json, kind: Json, named: Fields)
    requires named.Field? && TickFree(Print(version, "  ")) && TickFree(Print(kind, "  "))
    ensures OpenCount(Print(Obj(Field("v", version, Field("type", kind, named))), "")) >= OpenCount(PrintFields(named, "  "))
  {
    OpensInLater("type", kind, named, "  ");
    OpensInLater("v", version, Field("type", kind, named), "  ");
    OpensInObject(Field("v", version, Field("type", kind, named)));
  }

  lemma {:induction false} OpensInCall(kind: string, named: Fields)
    requires named.Field? && TickFree(kind)
    ensures OpenCount(Print(Obj(Field("v", Number("1"), Field("type", Str(kind), named))), "")) >= OpenCount(PrintFields(named, "  "))
  {
    QuoteTickFree(kind);
    OpensInHead(Number("1"), Str(kind), named);
  }

  /** A call whose id starts with a tag spells it in its body. */
  lemma {:induction false} TagInId(id: string, tool: string, args: Option<Json>, more: string)
    requires id == TAG + more
    ensures OpenCount(Body(ToolCall(id, tool, args))) > 0
  {
    var rest := Field("tool", Str(tool), OptionalField("args", args, NoFields));
    QuotedTag(more);
    OpensInValue("id", Str(id), rest, "  ", Escape(more) + "\"");
    OpensInCall("tool.call", Field("id", Str(id), rest));
  }

  /** So a finished reply with such a call looks unfinished, and is accepted at the hard
      deadline only. */
  lemma {:induction false} QuotedTagLooksUnfinished(tool: string, more: string, input: Input, generating: bool)
    requires input.text == Render(ToolCall(TAG + more, tool, None))
    ensures PrintableBlock(ToolCall(TAG + more, tool, None)) && EndsInside(input.text)
    ensures ShouldAccept(JudgeCompletion(input), generating) <==> Overdue(input)
  {
    var b := ToolCall(TAG + more, tool, None);
    CallIsWellFormed(TAG + more, tool, None);
    TagInId(TAG + more, tool, None, more);
    JustClosedIsOutside([], b);
    assert Done([]) + Render(b) == Render(b);
    OnlyTheDeadlineEndsABlock(input, generating);
  }
}
