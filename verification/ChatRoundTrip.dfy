/** What is rendered is extracted again: blocks come back in order, and only the prose
    is left. */
module ChatRoundTrip {
  import opened Options
  import opened Sequences
  import opened Json
  import opened JsonLines
  import opened ChatBlocks

  // ---------------------------------------------------------- blocks validate

  /** How a block comes back: reading a result does not carry its error over. */
  function AsRead(b: ChatBlock): ChatBlock {
    if b.ToolResult? then b.(error := None) else b
  }

  /** A block that may be sent: its names are not empty, its numbers are numbers, and its
      text is within the limit. */
  predicate InLimits(b: ChatBlock) {
    b.id != "" && (b.ToolCall? ==> b.tool != "") && WellFormed(ToJson(b)) && |Body(b)| <= MAX_BLOCK_CHARACTERS
  }

  /** The two line terminators that JSON strings hold as they are. */
  predicate SoftEnd(c: char) {
    c == '\U{2028}' || c == '\U{2029}'
  }

  /** Three backticks or more, blanks, and a line terminator: the end of a block. */
  predicate EndsEarly(s: string) {
    Ticks(s) >= 3 && SkipGaps(s[Ticks(s)..]) != "" && SoftEnd(SkipGaps(s[Ticks(s)..])[0])
  }

  predicate Unbroken(s: string) {
    s == "" || (!EndsEarly(s) && Unbroken(s[1..]))
  }

  /** A block whose text nowhere spells three backticks, blanks and U+2028 or U+2029. */
  predicate Intact(b: ChatBlock) {
    Unbroken(Body(b))
  }

  lemma {:induction false} PropertyStep(key: string, v: Json, others: Fields, wanted: string)
    ensures key != wanted ==> Property(Field(key, v, others), wanted) == Property(others, wanted)
    ensures key == wanted && Property(others, wanted).None? ==> Property(Field(key, v, others), wanted) == Some(v)
  {
  }

  lemma {:induction false} ValidateRendered(b: ChatBlock)
    requires b.id != "" && (b.ToolCall? ==> b.tool != "")
    ensures ValidateBlock(ToJson(b)) == Valid(AsRead(b))
  {
    match b
    case ToolCall(id, tool, args) => ValidateCall(id, tool, args);
    case ToolResult(id, ok, result, error) => ValidateResult(id, ok, result, error);
  }

  lemma {:induction false} ValidateCall(id: string, tool: string, args: Option<Json>)
    requires id != "" && tool != ""
    ensures ValidateBlock(ToJson(ToolCall(id, tool, args))) == Valid(ToolCall(id, tool, args))
  {
    var f := ToJson(ToolCall(id, tool, args)).fields;
    FourFields(f, Number("1"), Str("tool.call"), Str(id), "tool", Str(tool), "args", args, NoFields);
  }

  lemma {:induction false} ValidateResult(id: string, ok: bool, result: Option<Json>, error: Option<ToolError>)
    requires id != ""
    ensures ValidateBlock(ToJson(ToolResult(id, ok, result, error))) == Valid(ToolResult(id, ok, result, None))
  {
    var more := OptionalField("error", ErrorJson(error), NoFields);
    var f := ToJson(ToolResult(id, ok, result, error)).fields;
    FourFields(f, Number("1"), Str("tool.result"), Str(id), "ok", Bool(ok), "result", result, more);
  }

  /** Looking up the fields of a rendered block. */
  lemma {:induction false} FourFields(f: Fields, v: Json, type': Json, id: Json, fourth: string, fourthValue: Json,
                                      last: string, lastValue: Option<Json>, more: Fields)
    requires f == Field("v", v, Field("type", type', Field("id", id, Field(fourth, fourthValue, OptionalField(last, lastValue, more)))))
    requires (fourth == "tool" && last == "args") || (fourth == "ok" && last == "result")
    requires Property(more, "v").None? && Property(more, "type").None? && Property(more, "id").None?
    requires Property(more, fourth).None? && Property(more, last).None?
    ensures Property(f, "v") == Some(v) && Property(f, "type") == Some(type') && Property(f, "id") == Some(id)
    ensures Property(f, fourth) == Some(fourthValue) && Property(f, last) == lastValue
  {
    LookUp(f, v, type', id, fourth, fourthValue, last, lastValue, more, "v");
    LookUp(f, v, type', id, fourth, fourthValue, last, lastValue, more, "type");
    LookUp(f, v, type', id, fourth, fourthValue, last, lastValue, more, "id");
    LookUp(f, v, type', id, fourth, fourthValue, last, lastValue, more, fourth);
    LookUp(f, v, type', id, fourth, fourthValue, last, lastValue, more, last);
  }

  lemma {:induction false} LookUp(f: Fields, v: Json, type': Json, id: Json, fourth: string, fourthValue: Json,
                                  last: string, lastValue: Option<Json>, more: Fields, wanted: string)
    requires f == Field("v", v, Field("type", type', Field("id", id, Field(fourth, fourthValue, OptionalField(last, lastValue, more)))))
    requires (fourth == "tool" && last == "args") || (fourth == "ok" && last == "result")
    requires Property(more, wanted).None?
    ensures Property(f, wanted) ==
            if wanted == last && lastValue.Some? then lastValue
            else if wanted == fourth then Some(fourthValue)
            else if wanted == "id" then Some(id)
            else if wanted == "type" then Some(type')
            else if wanted == "v" then Some(v) else None
  {
    var rest := OptionalField(last, lastValue, more);
    var f3 := Field(fourth, fourthValue, rest);
    var f2 := Field("id", id, f3);
    var f1 := Field("type", type', f2);
    assert Property(rest, wanted) == if wanted == last then lastValue else None;
    PropertyStep(fourth, fourthValue, rest, wanted);
    PropertyStep("id", id, f3, wanted);
    PropertyStep("type", type', f2, wanted);
    PropertyStep("v", v, f1, wanted);
  }

  lemma {:induction false} BodyParses(b: ChatBlock)
    requires InLimits(b)
    ensures Parse(Body(b)) == Some(ToJson(b)) && SafeLines(Body(b)) && ValidateBlock(ToJson(b)) == Valid(AsRead(b))
  {
    ParsePrint(ToJson(b));
    PrintedJsonIsSafe(ToJson(b));
    ValidateRendered(b);
  }

  // ---------------------------------------------------------- no fence inside a body

  /** Skipping blanks in safe text stops inside it, before something that is neither a
      blank nor, at the start of a line, a backtick. */
  lemma {:induction false} SkipGapsSafe(p: Place, j: string, close: string) returns (k: nat)
    requires Trace(p, j) == Within(true) && j != ""
    requires p == AtStart || p.Within?
    ensures k < |j| && SkipGaps(j + close) == j[k..] + close && SkipGaps(j) == j[k..] && !Gap(j[k])
    ensures p == AtStart ==> j[k] != '`'
    ensures p.Within? ==> exists e :: Trace(Within(e), j[k..]) == Within(true) && (k > 0 || p == Within(false) ==> !e)
    decreases |j|
  {
    assert (j + close)[0] == j[0] && (j + close)[1..] == j[1..] + close;
    if Gap(j[0]) {
      k := SkipGapsSafe(Next(p, j[0]), j[1..], close);
      assert j[1..][k..] == j[k + 1..];
      k := k + 1;
    } else {
      k := 0;
      assert j[0..] == j;
      TraceBroken(j[1..]);
    }
  }

  /** A run of backticks in safe text ends inside it, where the line may not end. */
  lemma {:induction false} TicksSafe(mayEnd: bool, j: string, close: string)
    requires Trace(Within(mayEnd), j) == Within(true) && j != "" && (close != "" ==> close[0] != '`')
    ensures Ticks(j + close) == Ticks(j) < |j|
    ensures (j + close)[Ticks(j + close)..] == j[Ticks(j + close)..] + close
    ensures Ticks(j + close) > 0 ==> Trace(Within(false), j[Ticks(j + close)..]) == Within(true)
    decreases |j|
  {
    assert (j + close)[0] == j[0] && (j + close)[1..] == j[1..] + close;
    if j[0] == '`' {
      TicksSafe(false, j[1..], close);
      var n := Ticks(j[1..] + close);
      assert j[1..][n..] == j[n + 1..] && (j + close)[n + 1..] == (j[1..] + close)[n..];
      if n == 0 {
        assert j[1..] == j[1..][0..];
      }
    }
  }

  /** Where the line may not end, it does not end after blanks either. */
  lemma {:induction false} NoLineEndAfter(j: string, close: string)
    requires Trace(Within(false), j) == Within(true) && j != ""
    requires SkipGaps(j + close) != "" ==> !SoftEnd(SkipGaps(j + close)[0])
    ensures !AtLineEnd(SkipGaps(j + close))
  {
    var k := SkipGapsSafe(Within(false), j, close);
    assert (j[k..] + close)[0] == j[k];
    var e :| Trace(Within(e), j[k..]) == Within(true) && !e;
    TraceBroken(j[k..][1..]);
  }

  /** The text that closes a block. */
  function Closing(tail: string): string {
    "\n```" + tail
  }

  lemma {:induction false} NoFenceWithin(j: string, mayEnd: bool, close: string)
    requires Trace(Within(mayEnd), j) == Within(true) && j != "" && (close != "" ==> close[0] != '`') && !EndsEarly(j)
    ensures !(Ticks(j + close) == 3 && AtLineEnd(SkipGaps((j + close)[3..])))
  {
    TicksSafe(mayEnd, j, close);
    if Ticks(j + close) == 3 {
      var k := SkipGapsSafe(Within(false), j[3..], close);
      assert SkipGaps(j[3..] + close)[0] == SkipGaps(j[3..])[0];
      NoLineEndAfter(j[3..], close);
    }
  }

  lemma {:induction false} UnbrokenLater(j: string, k: nat)
    requires Unbroken(j) && k < |j|
    ensures Unbroken(j[k..]) && !EndsEarly(j[k..])
  {
    if k > 0 {
      UnbrokenLater(j[1..], k - 1);
      assert j[1..][k - 1..] == j[k..];
    } else {
      assert j[0..] == j;
    }
  }

  lemma {:induction false} NoCloseAfterBreak(p: Place, j: string, close: string)
    requires Trace(p, j) == Within(true) && j != "" && (p == AtStart || p.Within?) && Unbroken(j)
    requires close != "" && close[0] != '`'
    ensures var t := SkipGaps(j + close); !(Ticks(t) == 3 && AtLineEnd(SkipGaps(t[3..])))
  {
    var k := SkipGapsSafe(p, j, close);
    if p == AtStart {
      assert (j[k..] + close)[0] == j[k];
    } else {
      var e :| Trace(Within(e), j[k..]) == Within(true);
      UnbrokenLater(j, k);
      NoFenceWithin(j[k..], e, close);
    }
  }

  /** Inside an unbroken body no closing fence matches. */
  lemma {:induction false} NoCloseInside(p: Place, j: string, tail: string)
    requires Trace(p, j) == Within(true) && j != "" && (p == AtStart || p.Within?) && Unbroken(j)
    ensures CloseAt(j + Closing(tail), 3).None?
  {
    var close := Closing(tail);
    var s := j + close;
    assert s[0] == j[0] && s[1..] == j[1..] + close;
    TraceBroken(j[1..]);
    if j[0] == '\n' {
      assert p == Within(true) && Trace(AtStart, j[1..]) == Within(true);
      assert SkipLineBreak(s) == j[1..] + close;
      NoCloseAfterBreak(AtStart, j[1..], close);
    } else {
      assert SkipLineBreak(s) == s;
      NoCloseAfterBreak(p, j, close);
    }
  }

  lemma {:induction false} CloseAtEnd(tail: string)
    requires AtLineEnd(tail)
    ensures CloseAt(Closing(tail), 3) == Some(tail)
  {
    var ticks := "```" + tail;
    assert Closing(tail) == "\n" + ticks;
    assert SkipLineBreak(Closing(tail)) == ticks && SkipGaps(ticks) == ticks;
    assert ticks[1..][1..][1..] == tail && ticks[3..] == tail;
    assert Ticks(tail) == 0;
    assert Ticks(ticks[1..][1..]) == 1 && Ticks(ticks[1..]) == 2 && Ticks(ticks) == 3;
    assert SkipGaps(tail) == tail;
  }

  /** The body ends where it was made to end. */
  lemma {:induction false} FindCloseSafe(p: Place, j: string, tail: string)
    requires Trace(p, j) == Within(true) && (p == AtStart || p.Within?) && AtLineEnd(tail) && Unbroken(j)
    ensures FindClose(j + Closing(tail), 3) == Some((j, tail))
    decreases |j|
  {
    if j == "" {
      CloseAtEnd(tail);
      assert j + Closing(tail) == Closing(tail);
    } else {
      NoCloseInside(p, j, tail);
      TraceBroken(j[1..]);
      FindCloseSafe(Next(p, j[0]), j[1..], tail);
      FirstAndRest(j, Closing(tail));
      assert [j[0]] + j[1..] == j;
    }
  }

  lemma {:induction false} OpenRendered(rest: string)
    ensures OpenAt("```dwtd\n" + rest) == Some((3, rest))
  {
    var s := "```dwtd\n" + rest;
    assert SkipGaps(s) == s;
    assert s[1..][1..][1..] == s[3..] == "dwtd\n" + rest;
    assert Ticks(s[3..]) == 0;
    assert Ticks(s[1..][1..]) == 1 && Ticks(s[1..]) == 2 && Ticks(s) == 3;
    assert SkipGaps(s[3..]) == s[3..] && "dwtd" <= s[3..];
    assert s[3..][4..] == "\n" + rest;
    assert ("\n" + rest)[1..] == rest;
  }

  lemma {:induction false} MatchRendered(b: ChatBlock, tail: string)
    requires InLimits(b) && Intact(b) && AtLineEnd(tail)
    ensures MatchAt(Render(b) + tail) == Some((Found(Render(b), Body(b)), tail))
  {
    var s := Render(b) + tail;
    var rest := Body(b) + Closing(tail);
    assert s == "```dwtd\n" + rest by {
      Associative("```dwtd\n", Body(b) + "\n```", tail);
      Associative(Body(b), "\n```", tail);
    }
    OpenRendered(rest);
    BodyParses(b);
    FindCloseSafe(AtStart, Body(b), tail);
    assert s[..|s| - |tail|] == Render(b);
  }

  // ---------------------------------------------------------- no block in prose

  /** Nothing in the text can open or close a fence. */
  predicate FenceFree(s: string) {
    |s| < 3 || (!(s[0] == '`' && s[1] == '`' && s[2] == '`') && FenceFree(s[1..]))
  }

  lemma {:induction false} TicksStop(s: string, tail: string)
    requires tail != "" ==> tail[0] != '`'
    ensures Ticks(s + tail) == Ticks(s)
  {
    if s == "" {
      assert s + tail == tail;
    } else {
      TicksStop(s[1..], tail);
      FirstAndRest(s, tail);
      DropFirst(s[0], s[1..] + tail);
    }
  }

  lemma {:induction false} FewTicks(s: string)
    requires FenceFree(s)
    ensures Ticks(s) < 3
  {
    if |s| >= 3 {
      assert s[1..][0] == s[1] && s[1..][1..][0] == s[2];
      assert s[2] != '`' ==> Ticks(s[1..][1..]) == 0;
      assert s[1] != '`' ==> Ticks(s[1..]) == 0;
    }
  }

  lemma {:induction false} NoOpenInProse(s: string, tail: string)
    requires FenceFree(s) && AtLineEnd(tail)
    ensures OpenAt(s + tail).None?
  {
    var k := SkipGapsInProse(s, tail);
    FewTicks(s[k..]);
    TicksStop(s[k..], tail);
  }

  lemma {:induction false} SkipGapsInProse(s: string, tail: string) returns (k: nat)
    requires FenceFree(s) && AtLineEnd(tail)
    ensures k <= |s| && SkipGaps(s + tail) == s[k..] + tail && FenceFree(s[k..])
  {
    if s != "" && Gap(s[0]) {
      assert (s + tail)[1..] == s[1..] + tail;
      k := SkipGapsInProse(s[1..], tail);
      assert s[1..][k..] == s[k + 1..];
      k := k + 1;
    } else {
      k := 0;
      assert s[0..] == s;
      if s == "" {
        assert s + tail == tail;
      }
    }
  }

  /** Whether a line starts after `s`. */
  function StartsAfter(lineStart: bool, s: string): bool {
    if s == "" then lineStart else LineEnd(s[|s| - 1])
  }

  lemma {:induction false} MatchAllProse(s: string, tail: string, lineStart: bool)
    requires FenceFree(s) && AtLineEnd(tail)
    ensures MatchAll(s + tail, lineStart) == MatchAll(tail, StartsAfter(lineStart, s))
    decreases |s|
  {
    if s == "" {
      assert s + tail == tail;
    } else {
      NoOpenInProse(s, tail);
      assert (s + tail)[0] == s[0] && (s + tail)[1..] == s[1..] + tail;
      MatchAllProse(s[1..], tail, LineEnd(s[0]));
    }
  }

  lemma {:induction false} MatchAllGap(rest: string, lineStart: bool)
    ensures MatchAll("\n\n" + rest, lineStart) == MatchAll(rest, true)
  {
    var s := "\n\n" + rest;
    assert s[1..] == "\n" + rest && ("\n" + rest)[1..] == rest;
    NoOpenInProse("", s);
    assert "" + s == s;
    NoOpenInProse("", "\n" + rest);
    assert "" + ("\n" + rest) == "\n" + rest;
  }

  // ---------------------------------------------------------- whole messages

  datatype Part = Prose(text: string) | Block(block: ChatBlock)

  predicate LegalPart(p: Part) {
    match p
    case Prose(text) => FenceFree(text)
    case Block(b) => InLimits(b) && Intact(b)
  }

  function PartText(p: Part): string {
    if p.Prose? then p.text else Render(p.block)
  }

  function ProseText(p: Part): string {
    if p.Prose? then p.text else ""
  }

  /** The parts, joined by blank lines. */
  function Message(parts: seq<Part>): string {
    if parts == [] then ""
    else if |parts| == 1 then PartText(parts[0])
    else PartText(parts[0]) + ("\n\n" + Message(parts[1..]))
  }

  /** The same with every block taken out. */
  function ProseOnly(parts: seq<Part>): string {
    if parts == [] then ""
    else if |parts| == 1 then ProseText(parts[0])
    else ProseText(parts[0]) + ("\n\n" + ProseOnly(parts[1..]))
  }

  function Blocks(parts: seq<Part>): seq<ChatBlock> {
    if parts == [] then []
    else (if parts[0].Block? then [parts[0].block] else []) + Blocks(parts[1..])
  }

  function FoundIn(blocks: seq<ChatBlock>): seq<Found> {
    if blocks == [] then [] else [Found(Render(blocks[0]), Body(blocks[0]))] + FoundIn(blocks[1..])
  }

  predicate Legal(parts: seq<Part>) {
    forall i :: 0 <= i < |parts| ==> LegalPart(parts[i])
  }

  lemma {:induction false} MatchAllBlock(b: ChatBlock, tail: string)
    requires InLimits(b) && Intact(b) && AtLineEnd(tail)
    ensures MatchAll(Render(b) + tail, true) == [Found(Render(b), Body(b))] + MatchAll(tail, false)
  {
    MatchRendered(b, tail);
  }

  /** The pattern finds the blocks that were rendered, in order, and nothing else. */
  lemma {:induction false} MatchAllMessage(parts: seq<Part>)
    requires Legal(parts)
    ensures MatchAll(Message(parts), true) == FoundIn(Blocks(parts))
    decreases |parts|
  {
    if parts != [] {
      assert LegalPart(parts[0]);
      var tail := if |parts| == 1 then "" else "\n\n" + Message(parts[1..]);
      assert Message(parts) == PartText(parts[0]) + tail by {
        assert PartText(parts[0]) + "" == PartText(parts[0]);
      }
      MatchAllMessage(parts[1..]);
      MatchAllTail(parts[1..], true);
      MatchAllTail(parts[1..], false);
      if parts[0].Prose? {
        MatchAllProse(parts[0].text, tail, true);
        MatchAllTail(parts[1..], StartsAfter(true, parts[0].text));
        assert Blocks(parts) == Blocks(parts[1..]);
      } else {
        MatchAllBlock(parts[0].block, tail);
        assert Blocks(parts) == [parts[0].block] + Blocks(parts[1..]);
        DropFirst(parts[0].block, Blocks(parts[1..]));
      }
    }
  }

  /** What comes after a part: a blank line and the rest, or nothing. */
  lemma {:induction false} MatchAllTail(rest: seq<Part>, lineStart: bool)
    ensures MatchAll(if rest == [] then "" else "\n\n" + Message(rest), lineStart)
         == if rest == [] then [] else MatchAll(Message(rest), true)
  {
    MatchAllGap(Message(rest), lineStart);
  }

  // ---------------------------------------------------------- taking blocks out

  /** Text that ends a line and has no fence in it. */
  predicate Settled(a: string) {
    FenceFree(a) && (a == "" || a[|a| - 1] == '\n')
  }

  lemma {:induction false} RemoveAfter(a: string, b: ChatBlock, rest: string)
    requires Settled(a)
    ensures RemoveFirst(a + (Render(b) + rest), Render(b)) == a + rest
    decreases |a|
  {
    var s, text := a + (Render(b) + rest), Render(b);
    if a == "" {
      assert s == text + rest;
      DropPrefix(text, rest);
      assert a + rest == rest;
    } else {
      assert text[0] == '`' && text[1] == '`' && text[2] == '`';
      if |a| < 3 {
        assert s[|a| - 1] == '\n' && text[|a| - 1] == '`';
      } else {
        assert s[0] == a[0] && s[1] == a[1] && s[2] == a[2];
      }
      FirstAndRest(a, Render(b) + rest);
      DropFirst(a[0], a[1..] + (Render(b) + rest));
      RemoveAfter(a[1..], b, rest);
      FirstAndRest(a, rest);
    }
  }

  lemma {:induction false} SettledProse(a: string, text: string)
    requires Settled(a) && FenceFree(text)
    ensures Settled(a + (text + "\n\n"))
    decreases |a|
  {
    if a == "" {
      FenceFreeThen(text);
      assert a + (text + "\n\n") == text + "\n\n";
    } else {
      SettledProse(a[1..], text);
      var s := a + (text + "\n\n");
      assert s[1..] == a[1..] + (text + "\n\n");
      assert s[|a| - 1] == '\n';
      if |a| >= 3 {
        assert s[0] == a[0] && s[1] == a[1] && s[2] == a[2];
      }
    }
  }

  lemma {:induction false} FenceFreeThen(text: string)
    requires FenceFree(text)
    ensures FenceFree(text + "\n\n")
    decreases |text|
  {
    var s := text + "\n\n";
    if text == "" {
      assert s == "\n\n";
    } else {
      FenceFreeThen(text[1..]);
      assert s[1..] == text[1..] + "\n\n";
      if |text| >= 3 {
        assert s[0] == text[0] && s[1] == text[1] && s[2] == text[2];
      } else {
        assert s[|text|] == '\n';
      }
    }
  }

  /** What the loop does with rendered blocks: take each text out, keep each block. */
  function RemoveEach(s: string, blocks: seq<ChatBlock>): string
    decreases |blocks|
  {
    if blocks == [] then s else RemoveEach(RemoveFirst(s, Render(blocks[0])), blocks[1..])
  }

  function RenderEach(blocks: seq<ChatBlock>): seq<string> {
    if blocks == [] then [] else [Render(blocks[0])] + RenderEach(blocks[1..])
  }

  function AcceptEach(blocks: seq<ChatBlock>): seq<Verdict> {
    if blocks == [] then [] else [Accept(AsRead(blocks[0]))] + AcceptEach(blocks[1..])
  }

  function ReadEach(blocks: seq<ChatBlock>): seq<ChatBlock> {
    if blocks == [] then [] else [AsRead(blocks[0])] + ReadEach(blocks[1..])
  }

  /** Nothing is lost exactly when no result carries an error. */
  lemma {:induction false} ReadEachSame(blocks: seq<ChatBlock>)
    ensures ReadEach(blocks) == blocks <==> forall b :: b in blocks ==> !(b.ToolResult? && b.error.Some?)
  {
    if blocks != [] {
      ReadEachSame(blocks[1..]);
      DropFirst(AsRead(blocks[0]), ReadEach(blocks[1..]));
      assert blocks == [blocks[0]] + blocks[1..];
    }
  }

  lemma {:induction false} TextsFound(blocks: seq<ChatBlock>)
    ensures TextsOf(FoundIn(blocks)) == RenderEach(blocks)
  {
    if blocks != [] {
      TextsFound(blocks[1..]);
      DropFirst(Found(Render(blocks[0]), Body(blocks[0])), FoundIn(blocks[1..]));
    }
  }

  lemma {:induction false} JudgeRendered(index: nat, b: ChatBlock)
    requires index <= MAX_BLOCKS_PER_MESSAGE && InLimits(b)
    ensures Judge(index, Found(Render(b), Body(b))) == Accept(AsRead(b))
  {
    BodyParses(b);
  }

  lemma {:induction false} JudgedOneByOne(index: nat, found: seq<Found>, verdicts: seq<Verdict>)
    requires |found| == |verdicts|
    requires forall k: nat :: k < |found| ==> Judge(index + 1 + k, found[k]) == verdicts[k]
    ensures JudgeAll(index, found) == verdicts
    decreases |found|
  {
    if found != [] {
      assert Judge(index + 1 + 0, found[0]) == verdicts[0];
      forall k: nat | k < |found[1..]| ensures Judge(index + 1 + 1 + k, found[1..][k]) == verdicts[1..][k] {
        assert Judge(index + 1 + (k + 1), found[k + 1]) == verdicts[k + 1];
      }
      JudgedOneByOne(index + 1, found[1..], verdicts[1..]);
    }
  }

  lemma {:induction false} FoundAt(blocks: seq<ChatBlock>, k: nat)
    requires k < |blocks|
    ensures |FoundIn(blocks)| == |AcceptEach(blocks)| == |blocks|
    ensures FoundIn(blocks)[k] == Found(Render(blocks[k]), Body(blocks[k])) && AcceptEach(blocks)[k] == Accept(AsRead(blocks[k]))
  {
    FoundCount(blocks);
    if k > 0 {
      FoundAt(blocks[1..], k - 1);
    }
  }

  lemma {:induction false} FoundCount(blocks: seq<ChatBlock>)
    ensures |FoundIn(blocks)| == |AcceptEach(blocks)| == |blocks|
  {
    if blocks != [] {
      FoundCount(blocks[1..]);
    }
  }

  lemma {:induction false} AllAccepted(index: nat, blocks: seq<ChatBlock>)
    requires index + |blocks| <= MAX_BLOCKS_PER_MESSAGE
    requires forall i :: 0 <= i < |blocks| ==> InLimits(blocks[i])
    ensures JudgeAll(index, FoundIn(blocks)) == AcceptEach(blocks)
  {
    FoundCount(blocks);
    forall k: nat | k < |blocks| ensures Judge(index + 1 + k, FoundIn(blocks)[k]) == AcceptEach(blocks)[k] {
      FoundAt(blocks, k);
      JudgeRendered(index + 1 + k, blocks[k]);
    }
    JudgedOneByOne(index, FoundIn(blocks), AcceptEach(blocks));
  }

  lemma {:induction false} TakeAccepted(e: Extraction, index: nat, blocks: seq<ChatBlock>)
    ensures TakeAll(e, index, RenderEach(blocks), AcceptEach(blocks))
         == Extraction(RemoveEach(e.prose, blocks), e.blocks + ReadEach(blocks), e.problems)
    decreases |blocks|
  {
    if blocks == [] {
      assert e.blocks + [] == e.blocks;
    } else {
      var first := AsRead(blocks[0]);
      DropFirst(Render(blocks[0]), RenderEach(blocks[1..]));
      DropFirst(Accept(first), AcceptEach(blocks[1..]));
      TakeAccepted(Extraction(RemoveFirst(e.prose, Render(blocks[0])), e.blocks + [first], e.problems),
                   index + 1, blocks[1..]);
      Associative(e.blocks, [first], ReadEach(blocks[1..]));
    }
  }

  /** Taking a part's block out leaves its prose. */
  lemma {:induction false} RemoveOnePart(a: string, part: Part, tail: string, others: seq<ChatBlock>)
    requires Settled(a)
    ensures RemoveEach(a + (PartText(part) + tail), (if part.Block? then [part.block] else []) + others)
         == RemoveEach(a + (ProseText(part) + tail), others)
  {
    if part.Block? {
      RemoveAfter(a, part.block, tail);
      DropFirst(part.block, others);
      assert "" + tail == tail;
    } else {
      assert [] + others == others;
    }
  }

  lemma {:induction false} RemoveEachFromMessage(a: string, parts: seq<Part>)
    requires Settled(a) && Legal(parts)
    ensures RemoveEach(a + Message(parts), Blocks(parts)) == a + ProseOnly(parts)
    decreases |parts|
  {
    if parts != [] {
      assert LegalPart(parts[0]);
      var tail := if |parts| == 1 then "" else "\n\n" + Message(parts[1..]);
      var p := ProseText(parts[0]);
      PartSplit(parts);
      RemoveOnePart(a, parts[0], tail, Blocks(parts[1..]));
      if |parts| > 1 {
        SettledProse(a, p);
        RemoveEachFromMessage(a + (p + "\n\n"), parts[1..]);
        Regroup(a, p, Message(parts[1..]));
        Regroup(a, p, ProseOnly(parts[1..]));
      } else {
        assert Blocks(parts[1..]) == [];
      }
    }
  }

  lemma {:induction false} Regroup(a: string, p: string, rest: string)
    ensures a + (p + ("\n\n" + rest)) == (a + (p + "\n\n")) + rest
  {
    Associative(p, "\n\n", rest);
    Associative(a, p + "\n\n", rest);
  }

  lemma {:induction false} PartSplit(parts: seq<Part>)
    requires parts != []
    ensures Message(parts) == PartText(parts[0]) + (if |parts| == 1 then "" else "\n\n" + Message(parts[1..]))
    ensures ProseOnly(parts) == ProseText(parts[0]) + (if |parts| == 1 then "" else "\n\n" + ProseOnly(parts[1..]))
  {
    assert PartText(parts[0]) + "" == PartText(parts[0]);
    assert ProseText(parts[0]) + "" == ProseText(parts[0]);
  }

  lemma {:induction false} BlocksAreLegal(parts: seq<Part>)
    requires Legal(parts)
    ensures forall i :: 0 <= i < |Blocks(parts)| ==> InLimits(Blocks(parts)[i])
  {
    if parts != [] {
      assert LegalPart(parts[0]);
      BlocksAreLegal(parts[1..]);
    }
  }

  /** Rendering, joining with prose, and extracting: the blocks come back in order, each as
      it is read, with no problems, and only the prose is left. */
  lemma {:induction false} ExtractMessage(parts: seq<Part>)
    requires Legal(parts) && |Blocks(parts)| <= MAX_BLOCKS_PER_MESSAGE
    ensures Extract(Message(parts)) == Extraction(Tidy(ProseOnly(parts)), ReadEach(Blocks(parts)), [])
  {
    MatchAllMessage(parts);
    BlocksAreLegal(parts);
    TextsFound(Blocks(parts));
    AllAccepted(0, Blocks(parts));
    TakeAccepted(Extraction(Message(parts), [], []), 0, Blocks(parts));
    RemoveEachFromMessage("", parts);
    assert "" + Message(parts) == Message(parts) && "" + ProseOnly(parts) == ProseOnly(parts);
    assert [] + ReadEach(Blocks(parts)) == ReadEach(Blocks(parts));
  }
}
