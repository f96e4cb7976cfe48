/** Fenced `dwtd` blocks in a chat message: printing one, and pulling all of them out. */
module ChatBlocks {
  import opened Options
  import opened Text
  import opened Json
  import opened JsonLines

  const MAX_BLOCK_CHARACTERS := 64 * 1024
  const MAX_BLOCKS_PER_MESSAGE := 8

  datatype ToolError = ToolError(code: string, message: string)

  datatype ChatBlock =
    | ToolCall(id: string, tool: string, args: Option<Json>)
    | ToolResult(id: string, ok: bool, result: Option<Json>, error: Option<ToolError>)

  // ---------------------------------------------------------- printing a block

  function OptionalField(key: string, v: Option<Json>, others: Fields): Fields {
    if v.Some? then Field(key, v.value, others) else others
  }

  function ErrorJson(e: Option<ToolError>): Option<Json> {
    if e.None? then None
    else Some(Obj(Field("code", Str(e.value.code), Field("message", Str(e.value.message), NoFields))))
  }

  function ToJson(b: ChatBlock): Json {
    match b
    case ToolCall(id, tool, args) =>
      Obj(Field("v", Number("1"), Field("type", Str("tool.call"), Field("id", Str(id), Field("tool", Str(tool),
          OptionalField("args", args, NoFields))))))
    case ToolResult(id, ok, result, error) =>
      Obj(Field("v", Number("1"), Field("type", Str("tool.result"), Field("id", Str(id), Field("ok", Bool(ok),
          OptionalField("result", result, OptionalField("error", ErrorJson(error), NoFields)))))))
  }

  /** The body of a rendered block. */
  function Body(b: ChatBlock): string {
    Print(ToJson(b), "")
  }

  /** `renderChatBlock`. */
  function Render(b: ChatBlock): string {
    "```dwtd\n" + (Body(b) + "\n```")
  }

  // ---------------------------------------------------------- finding blocks

  // Each part of the block pattern can match in one way only, so the functions below
  // follow the text once, without backtracking: a run of blanks is always followed by
  // something that is not a blank, a run of backticks by something that is not one.

  /** `[ \t]*` */
  function SkipGaps(s: string): (r: string)
    ensures |r| <= |s|
  {
    if s != "" && Gap(s[0]) then SkipGaps(s[1..]) else s
  }

  /** How many backticks a text starts with. */
  function Ticks(s: string): (n: nat)
    ensures n <= |s|
  {
    if s != "" && s[0] == '`' then 1 + Ticks(s[1..]) else 0
  }

  /** `\r?\n?` */
  function SkipLineBreak(s: string): (r: string)
    ensures |r| <= |s|
  {
    var t := if s != "" && s[0] == '\r' then s[1..] else s;
    if t != "" && t[0] == '\n' then t[1..] else t
  }

  /** `$` */
  predicate AtLineEnd(s: string) {
    s == "" || LineEnd(s[0])
  }

  /** `^([ \t]*)(`{3,})[ \t]*dwtd[ \t]*\r?\n`: the length of the fence and what follows. */
  function OpenAt(s: string): (r: Option<(nat, string)>)
    ensures r.Some? ==> |r.value.1| < |s|
  {
    var t := SkipGaps(s);
    var n := Ticks(t);
    if n < 3 then None
    else
      var u := SkipGaps(t[n..]);
      if !("dwtd" <= u) then None
      else
        var w := SkipGaps(u[4..]);
        if w != "" && w[0] == '\n' then Some((n, w[1..]))
        else if |w| > 1 && w[0] == '\r' && w[1] == '\n' then Some((n, w[2..]))
        else None
  }

  /** `\r?\n?[ \t]*\2[ \t]*$`: what follows the match. */
  function CloseAt(s: string, n: nat): (r: Option<string>)
    ensures r.Some? ==> |r.value| <= |s|
  {
    var t := SkipGaps(SkipLineBreak(s));
    if Ticks(t) != n then None
    else
      var u := SkipGaps(t[n..]);
      if AtLineEnd(u) then Some(u) else None
  }

  /** The shortest body that a closing fence follows, and what follows the fence. */
  function FindClose(s: string, n: nat): (r: Option<(string, string)>)
    ensures r.Some? ==> |r.value.1| <= |s|
  {
    if CloseAt(s, n).Some? then Some(("", CloseAt(s, n).value))
    else if s == "" then None
    else
      match FindClose(s[1..], n)
      case None => None
      case Some(r) => Some(([s[0]] + r.0, r.1))
  }

  /** A match of the pattern: all of it, and its third group. */
  datatype Found = Found(text: string, body: string)

  function MatchAt(s: string): (r: Option<(Found, string)>)
    ensures r.Some? ==> |r.value.1| < |s|
  {
    match OpenAt(s)
    case None => None
    case Some(open) =>
      match FindClose(open.1, open.0)
      case None => None
      case Some(close) => Some((Found(s[..|s| - |close.1|], close.0), close.1))
  }

  /** `message.matchAll(BLOCK_PATTERN)`, from a place that may be the start of a line. */
  function MatchAll(s: string, lineStart: bool): seq<Found>
    decreases |s|
  {
    if s == "" then []
    else if lineStart && MatchAt(s).Some? then [MatchAt(s).value.0] + MatchAll(MatchAt(s).value.1, false)
    else MatchAll(s[1..], LineEnd(s[0]))
  }

  // ---------------------------------------------------------- reading a block

  datatype Reason =
    | TooManyBlocks
    | TooLarge
    | NotJson
    | NotAnObject
    | UnsupportedVersion
    | BadId
    | BadTool
    | BadOk
    | UnknownType

  datatype Validated = Valid(block: ChatBlock) | Invalid(reason: Reason)

  /** A property of a parsed object: the last field of that name decides. */
  function Property(fields: Fields, key: string): Option<Json> {
    match fields
    case NoFields => None
    case Field(k, v, others) =>
      if Property(others, key).Some? then Property(others, key) else if k == key then Some(v) else None
  }

  predicate NonEmptyString(v: Option<Json>) {
    v.Some? && v.value.Str? && v.value.s != ""
  }

  /** `validateBlock`. A result's `error` is not carried over. */
  function ValidateBlock(v: Json): Validated {
    if !v.Obj? then Invalid(NotAnObject)
    else
      var f := v.fields;
      if Property(f, "v") != Some(Number("1")) then Invalid(UnsupportedVersion)
      else if !NonEmptyString(Property(f, "id")) then Invalid(BadId)
      else
        var id := Property(f, "id").value.s;
        if Property(f, "type") == Some(Str("tool.call")) then
          if !NonEmptyString(Property(f, "tool")) then Invalid(BadTool)
          else Valid(ToolCall(id, Property(f, "tool").value.s, Property(f, "args")))
        else if Property(f, "type") == Some(Str("tool.result")) then
          if Property(f, "ok").None? || !Property(f, "ok").value.Bool? then Invalid(BadOk)
          else Valid(ToolResult(id, Property(f, "ok").value.b, Property(f, "result"), None))
        else Invalid(UnknownType)
  }

  // ---------------------------------------------------------- extracting

  datatype Problem = Problem(index: nat, reason: Reason)

  datatype Extraction = Extraction(prose: string, blocks: seq<ChatBlock>, problems: seq<Problem>)

  /** `prose.replace(text, "")`: takes out the first occurrence. */
  function RemoveFirst(s: string, text: string): string {
    if text <= s then s[|text|..]
    else if s == "" then ""
    else [s[0]] + RemoveFirst(s[1..], text)
  }

  /** What becomes of one match: left in the prose, taken out as unusable, or accepted. */
  datatype Verdict = Leave(reason: Reason) | Discard(reason: Reason) | Accept(block: ChatBlock)

  function Judge(index: nat, m: Found): Verdict {
    if index > MAX_BLOCKS_PER_MESSAGE then Leave(TooManyBlocks)
    else if |m.body| > MAX_BLOCK_CHARACTERS then Leave(TooLarge)
    else
      match Parse(m.body)
      case None => Discard(NotJson)
      case Some(v) =>
        match ValidateBlock(v)
        case Invalid(reason) => Discard(reason)
        case Valid(block) => Accept(block)
  }

  /** Verdicts on matches, the first of which is number `index + 1`. */
  function JudgeAll(index: nat, found: seq<Found>): seq<Verdict>
    decreases |found|
  {
    if found == [] then [] else [Judge(index + 1, found[0])] + JudgeAll(index + 1, found[1..])
  }

  function TextsOf(found: seq<Found>): seq<string> {
    if found == [] then [] else [found[0].text] + TextsOf(found[1..])
  }

  /** One turn of the loop. */
  function Take(e: Extraction, index: nat, text: string, v: Verdict): Extraction {
    match v
    case Leave(reason) => e.(problems := e.problems + [Problem(index, reason)])
    case Discard(reason) => e.(prose := RemoveFirst(e.prose, text), problems := e.problems + [Problem(index, reason)])
    case Accept(block) => e.(prose := RemoveFirst(e.prose, text), blocks := e.blocks + [block])
  }

  function TakeAll(e: Extraction, index: nat, texts: seq<string>, verdicts: seq<Verdict>): Extraction
    decreases |texts|
  {
    if texts == [] || verdicts == [] then e
    else TakeAll(Take(e, index + 1, texts[0], verdicts[0]), index + 1, texts[1..], verdicts[1..])
  }

  /** How many newlines a text starts with. */
  function Newlines(s: string): (n: nat)
    ensures n <= |s|
  {
    if s != "" && s[0] == '\n' then 1 + Newlines(s[1..]) else 0
  }

  /** `prose.replace(/\n{3,}/g, "\n\n")` */
  function Collapse(s: string): string
    decreases |s|
  {
    if s == "" then ""
    else if Newlines(s) >= 3 then "\n\n" + Collapse(s[Newlines(s)..])
    else [s[0]] + Collapse(s[1..])
  }

  function TrimStart(s: string): string {
    if s != "" && IsSpace(s[0]) then TrimStart(s[1..]) else s
  }

  function TrimEnd(s: string): string {
    if s != "" && IsSpace(s[|s| - 1]) then TrimEnd(s[..|s| - 1]) else s
  }

  function Tidy(prose: string): string {
    TrimEnd(TrimStart(Collapse(prose)))
  }

  /** The loop over the matches that are left. */
  function Loop(e: Extraction, index: nat, found: seq<Found>): Extraction {
    TakeAll(e, index, TextsOf(found), JudgeAll(index, found))
  }

  /** `extractChatBlocks`. */
  function Extract(message: string): Extraction {
    var e := Loop(Extraction(message, [], []), 0, MatchAll(message, true));
    e.(prose := Tidy(e.prose))
  }

  /** The body of the loop, for match number `index`. */
  method TakeMatch(e: Extraction, index: nat, m: Found) returns (after: Extraction)
    ensures after == Take(e, index, m.text, Judge(index, m))
  {
    var raw := m.body;
    if index > MAX_BLOCKS_PER_MESSAGE {
      return e.(problems := e.problems + [Problem(index, TooManyBlocks)]);
    }
    if |raw| > MAX_BLOCK_CHARACTERS {
      return e.(problems := e.problems + [Problem(index, TooLarge)]);
    }
    var prose := RemoveFirst(e.prose, m.text);
    var parsed := Parse(raw);
    if parsed.None? {
      return Extraction(prose, e.blocks, e.problems + [Problem(index, NotJson)]);
    }
    var block := ValidateBlock(parsed.value);
    if block.Invalid? {
      return Extraction(prose, e.blocks, e.problems + [Problem(index, block.reason)]);
    }
    return Extraction(prose, e.blocks + [block.block], e.problems);
  }

  method ExtractChatBlocks(message: string) returns (e: Extraction)
    ensures e == Extract(message)
  {
    var matches := MatchAll(message, true);
    e := Extraction(message, [], []);
    for index := 0 to |matches|
      invariant Loop(e, index, matches[index..]) == Loop(Extraction(message, [], []), 0, matches)
    {
      assert matches[index..][1..] == matches[index + 1..];
      e := TakeMatch(e, index + 1, matches[index]);
    }
    assert matches[|matches|..] == [];
    e := e.(prose := Tidy(e.prose));
  }
}
