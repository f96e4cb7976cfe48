/** What becomes of every match in any message at all, usable or not. */
module ChatVerdicts {
  import opened Options
  import opened Sequences
  import opened Json
  import opened ChatBlocks
  import opened ChatRoundTrip

  // ---------------------------------------------------------- which bodies are blocks

  /** The fields of an object, in the order they are written. */
  function Pairs(fields: Fields): seq<(string, Json)> {
    match fields
    case NoFields => []
    case Field(key, value, others) => [(key, value)] + Pairs(others)
  }

  /** The value is that of the last field with this key. */
  ghost predicate IsLast(pairs: seq<(string, Json)>, key: string, value: Json) {
    exists i :: 0 <= i < |pairs| && pairs[i] == (key, value) && forall j :: i < j < |pairs| ==> pairs[j].0 != key
  }

  lemma {:induction false} PropertyIsLast(fields: Fields, key: string, value: Json)
    ensures Property(fields, key) == Some(value) <==> IsLast(Pairs(fields), key, value)
    ensures Property(fields, key).None? <==> forall i :: 0 <= i < |Pairs(fields)| ==> Pairs(fields)[i].0 != key
  {
    if fields.Field? {
      var rest := Pairs(fields.others);
      PropertyIsLast(fields.others, key, value);
      DropFirst((fields.key, fields.value), rest);
      LastOfMore((fields.key, fields.value), rest, key, value);
      assert forall i :: 0 <= i < |rest| ==> rest[i] == Pairs(fields)[i + 1];
    }
  }

  lemma {:induction false} LastOfRest(first: (string, Json), rest: seq<(string, Json)>, key: string, value: Json)
    requires IsLast(rest, key, value)
    ensures IsLast([first] + rest, key, value)
  {
    var all := [first] + rest;
    var i :| 0 <= i < |rest| && rest[i] == (key, value) && forall j :: i < j < |rest| ==> rest[j].0 != key;
    assert all[i + 1] == (key, value) && forall j :: i + 1 < j < |all| ==> all[j] == rest[j - 1];
  }

  lemma {:induction false} LastOfMore(first: (string, Json), rest: seq<(string, Json)>, key: string, value: Json)
    ensures IsLast([first] + rest, key, value)
       <==> IsLast(rest, key, value) || (first == (key, value) && forall j :: 0 <= j < |rest| ==> rest[j].0 != key)
  {
    var all := [first] + rest;
    assert forall j :: 0 <= j < |rest| ==> rest[j] == all[j + 1];
    if IsLast(rest, key, value) {
      LastOfRest(first, rest, key, value);
    }
    if first == (key, value) && forall j :: 0 <= j < |rest| ==> rest[j].0 != key {
      assert all[0] == (key, value) && forall j :: 0 < j < |all| ==> all[j] == rest[j - 1];
    }
    if IsLast(all, key, value) {
      var i :| 0 <= i < |all| && all[i] == (key, value) && forall j :: i < j < |all| ==> all[j].0 != key;
      assert i > 0 ==> rest[i - 1] == (key, value);
    }
  }

  /** The object has the last value under this key that the block is written with. */
  predicate SameUnder(key: string, fields: Fields, b: ChatBlock) {
    Property(fields, key) == Property(ToJson(b).fields, key)
  }

  /** The object says what the block says; whatever else it holds does not matter. */
  predicate Says(fields: Fields, b: ChatBlock) {
    && b.id != "" && SameUnder("v", fields, b) && SameUnder("type", fields, b) && SameUnder("id", fields, b)
    && match b
       case ToolCall(_, tool, _) => tool != "" && SameUnder("tool", fields, b) && SameUnder("args", fields, b)
       case ToolResult(_, _, _, error) => SameUnder("ok", fields, b) && SameUnder("result", fields, b) && error.None?
  }

  predicate Spells(body: string, b: ChatBlock) {
    Parse(body).Some? && Parse(body).value.Obj? && Says(Parse(body).value.fields, b)
  }

  lemma {:induction false} WrittenFields(b: ChatBlock)
    ensures var f := ToJson(b).fields;
      && Property(f, "v") == Some(Number("1")) && Property(f, "id") == Some(Str(b.id))
      && Property(f, "type") == Some(Str(if b.ToolCall? then "tool.call" else "tool.result"))
      && (b.ToolCall? ==> Property(f, "tool") == Some(Str(b.tool)) && Property(f, "args") == b.args)
      && (b.ToolResult? ==> Property(f, "ok") == Some(Bool(b.ok)) && Property(f, "result") == b.result)
  {
    var f := ToJson(b).fields;
    match b
    case ToolCall(id, tool, args) =>
      FourFields(f, Number("1"), Str("tool.call"), Str(id), "tool", Str(tool), "args", args, NoFields);
    case ToolResult(id, ok, result, error) =>
      var more := OptionalField("error", ErrorJson(error), NoFields);
      FourFields(f, Number("1"), Str("tool.result"), Str(id), "ok", Bool(ok), "result", result, more);
  }

  /** Validation accepts exactly what an object says, as the one block it says. */
  lemma {:induction false} ValidIsSaid(fields: Fields, b: ChatBlock)
    ensures ValidateBlock(Obj(fields)) == Valid(b) <==> Says(fields, b)
  {
    WrittenFields(b);
  }

  // ---------------------------------------------------------- what becomes of a match

  datatype Fate = Read(block: ChatBlock) | Refused(reason: Reason)

  /** One of the first eight, and not too long. */
  predicate WithinLimits(index: nat, body: string) {
    index <= 8 && |body| <= 65536
  }

  predicate IsText(v: Option<Json>) {
    v.Some? && v.value.Str? && v.value.s != ""
  }

  predicate IsFlag(v: Option<Json>) {
    v.Some? && v.value.Bool?
  }

  /** The reason that is given for refusing a match is true of it. */
  predicate ReasonHolds(index: nat, body: string, reason: Reason) {
    match reason
    case TooManyBlocks => index > 8
    case TooLarge => index <= 8 && |body| > 65536
    case NotJson => WithinLimits(index, body) && Parse(body).None?
    case NotAnObject => WithinLimits(index, body) && Parse(body).Some? && !Parse(body).value.Obj?
    case other =>
      && WithinLimits(index, body) && Parse(body).Some? && Parse(body).value.Obj?
      && var f := Parse(body).value.fields;
         match other
         case UnsupportedVersion => Property(f, "v") != Some(Number("1"))
         case BadId => !IsText(Property(f, "id"))
         case BadTool => Property(f, "type") == Some(Str("tool.call")) && !IsText(Property(f, "tool"))
         case BadOk => Property(f, "type") == Some(Str("tool.result")) && !IsFlag(Property(f, "ok"))
         case _ => Property(f, "type") != Some(Str("tool.call")) && Property(f, "type") != Some(Str("tool.result"))
  }

  /** A match is read as the block it spells, when it is within the limits and spells one; and
      otherwise it is refused, for a reason that holds. */
  ghost predicate Fits(index: nat, body: string, fate: Fate) {
    match fate
    case Read(b) => WithinLimits(index, body) && Spells(body, b)
    case Refused(reason) =>
      (WithinLimits(index, body) ==> forall b :: !Spells(body, b)) && ReasonHolds(index, body, reason)
  }

  function FateOf(v: Verdict): Fate {
    match v
    case Accept(block) => Read(block)
    case Discard(reason) => Refused(reason)
    case Leave(reason) => Refused(reason)
  }

  lemma {:induction false} ReasonIsTrue(index: nat, body: string, fields: Fields)
    requires WithinLimits(index, body) && Parse(body) == Some(Obj(fields)) && ValidateBlock(Obj(fields)).Invalid?
    ensures ReasonHolds(index, body, ValidateBlock(Obj(fields)).reason)
  {
  }

  lemma {:induction false} ObjectFits(index: nat, m: Found, fields: Fields)
    requires WithinLimits(index, m.body) && Parse(m.body) == Some(Obj(fields))
    ensures Fits(index, m.body, FateOf(Judge(index, m)))
  {
    match ValidateBlock(Obj(fields))
    case Valid(b) => ValidIsSaid(fields, b);
    case Invalid(_) =>
      ReasonIsTrue(index, m.body, fields);
      forall b ensures !Spells(m.body, b) {
        ValidIsSaid(fields, b);
      }
  }

  lemma {:induction false} JudgedFits(index: nat, m: Found)
    ensures Fits(index, m.body, FateOf(Judge(index, m)))
  {
    if WithinLimits(index, m.body) && Parse(m.body).Some? && Parse(m.body).value.Obj? {
      ObjectFits(index, m, Parse(m.body).value.fields);
    }
  }

  // ---------------------------------------------------------- whole messages

  function BlocksAmong(fates: seq<Fate>): seq<ChatBlock> {
    if fates == [] then [] else (if fates[0].Read? then [fates[0].block] else []) + BlocksAmong(fates[1..])
  }

  /** The refusals, each under the number of its match. */
  function ProblemsAmong(index: nat, fates: seq<Fate>): seq<Problem>
    decreases |fates|
  {
    if fates == [] then []
    else (if fates[0].Refused? then [Problem(index + 1, fates[0].reason)] else []) + ProblemsAmong(index + 1, fates[1..])
  }

  /** The texts of the matches within the limits, usable or not. */
  function TextsWithin(index: nat, found: seq<Found>): seq<string>
    decreases |found|
  {
    if found == [] then []
    else (if WithinLimits(index + 1, found[0].body) then [found[0].text] else []) + TextsWithin(index + 1, found[1..])
  }

  /** Each text taken out where it first occurs. */
  function WithoutEach(s: string, texts: seq<string>): string
    decreases |texts|
  {
    if texts == [] then s else WithoutEach(RemoveFirst(s, texts[0]), texts[1..])
  }

  function Fates(index: nat, found: seq<Found>): seq<Fate>
    decreases |found|
  {
    if found == [] then [] else [FateOf(Judge(index + 1, found[0]))] + Fates(index + 1, found[1..])
  }

  lemma {:induction false} FatesFit(index: nat, found: seq<Found>)
    ensures |Fates(index, found)| == |found|
    ensures forall i :: 0 <= i < |found| ==> Fits(index + 1 + i, found[i].body, Fates(index, found)[i])
    decreases |found|
  {
    if found != [] {
      FatesFit(index + 1, found[1..]);
      JudgedFits(index + 1, found[0]);
      forall i | 0 <= i < |found| ensures Fits(index + 1 + i, found[i].body, Fates(index, found)[i]) {
        if i > 0 {
          assert Fits(index + 1 + 1 + (i - 1), found[1..][i - 1].body, Fates(index + 1, found[1..])[i - 1]);
        }
      }
    }
  }

  lemma {:induction false} TakenOne(e: Extraction, index: nat, m: Found)
    ensures var after, fate := Take(e, index, m.text, Judge(index, m)), FateOf(Judge(index, m));
      && after.blocks == e.blocks + (if fate.Read? then [fate.block] else [])
      && after.problems == e.problems + (if fate.Refused? then [Problem(index, fate.reason)] else [])
      && after.prose == if WithinLimits(index, m.body) then RemoveFirst(e.prose, m.text) else e.prose
  {
    assert e.blocks + [] == e.blocks && e.problems + [] == e.problems;
  }

  lemma {:induction false} LoopStep(e: Extraction, index: nat, found: seq<Found>)
    requires found != []
    ensures Loop(e, index, found) == Loop(Take(e, index + 1, found[0].text, Judge(index + 1, found[0])), index + 1, found[1..])
  {
  }

  lemma {:induction false} WithoutOneMore(s: string, text: string, within: bool, others: seq<string>)
    ensures WithoutEach(s, (if within then [text] else []) + others) == WithoutEach(if within then RemoveFirst(s, text) else s, others)
  {
    if within {
      DropFirst(text, others);
    } else {
      assert [] + others == others;
    }
  }

  lemma {:induction false} LoopOutcome(e: Extraction, index: nat, found: seq<Found>)
    ensures var t, fates := Loop(e, index, found), Fates(index, found);
      && t.blocks == e.blocks + BlocksAmong(fates)
      && t.problems == e.problems + ProblemsAmong(index, fates)
      && t.prose == WithoutEach(e.prose, TextsWithin(index, found))
    decreases |found|
  {
    if found == [] {
      assert e.blocks + [] == e.blocks && e.problems + [] == e.problems;
    } else {
      var after, fate := Take(e, index + 1, found[0].text, Judge(index + 1, found[0])), FateOf(Judge(index + 1, found[0]));
      var fates := Fates(index + 1, found[1..]);
      LoopStep(e, index, found);
      TakenOne(e, index + 1, found[0]);
      LoopOutcome(after, index + 1, found[1..]);
      DropFirst(fate, fates);
      Associative(e.blocks, if fate.Read? then [fate.block] else [], BlocksAmong(fates));
      Associative(e.problems, if fate.Refused? then [Problem(index + 1, fate.reason)] else [], ProblemsAmong(index + 1, fates));
      WithoutOneMore(e.prose, found[0].text, WithinLimits(index + 1, found[0].body), TextsWithin(index + 1, found[1..]));
    }
  }

  /** For every message: each match of the pattern is either read as the block it spells or
      refused under its own number, never both; and whatever is within the limits, read or
      not, is taken out of the prose. */
  lemma {:induction false} EveryMatchIsJudged(message: string) returns (fates: seq<Fate>)
    ensures var found, e := MatchAll(message, true), Extract(message);
      && |fates| == |found| && (forall i :: 0 <= i < |found| ==> Fits(i + 1, found[i].body, fates[i]))
      && e.blocks == BlocksAmong(fates) && e.problems == ProblemsAmong(0, fates)
      && e.prose == Tidy(WithoutEach(message, TextsWithin(0, found)))
  {
    var found := MatchAll(message, true);
    fates := Fates(0, found);
    FatesFit(0, found);
    forall i | 0 <= i < |found| ensures Fits(i + 1, found[i].body, fates[i]) {
      assert Fits(0 + 1 + i, found[i].body, fates[i]);
    }
    LoopOutcome(Extraction(message, [], []), 0, found);
    assert [] + BlocksAmong(fates) == BlocksAmong(fates) && [] + ProblemsAmong(0, fates) == ProblemsAmong(0, fates);
  }
}
