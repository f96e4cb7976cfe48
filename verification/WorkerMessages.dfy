/** The text of a follow-up message, and what the chat reads in it. */
module WorkerMessages {
  import opened Options
  import opened ChatBlocks
  import opened ChatRoundTrip
  import opened ChatSurvivors
  import opened Sequences
  import opened Text
  import opened Worker
  import opened WorkerLanes
  import opened WorkerOthers
  import opened WorkerBatches

  function Preface(n: nat): string {
    if n == 1 then "Here is what my editor said:"
    else "Here is what my editor said for all " + (Decimal(n) + ":")
  }

  function BlockParts(blocks: seq<ChatBlock>): seq<Part> {
    if blocks == [] then [] else [Block(blocks[0])] + BlockParts(blocks[1..])
  }

  /** The preface and the rendered blocks, separated by blank lines. */
  function FollowUp(blocks: seq<ChatBlock>): string {
    Preface(|blocks|) + ("\n\n" + Message(BlockParts(blocks)))
  }

  /** What is typed into the composer. */
  function TypedText(content: Content): string {
    match content
    case Question(text) => text
    case Results(blocks) => FollowUp(blocks)
  }

  lemma {:induction false} PrefaceIsProse(n: nat)
    ensures FenceFree(Preface(n))
  {
    var opening := "Here is what my editor said for all ";
    assert NoTicks(opening) && NoTicks(Decimal(n)) && NoTicks("Here is what my editor said:");
    if n != 1 {
      NoTicksUnbroken(opening + (Decimal(n) + ":"));
    } else {
      NoTicksUnbroken("Here is what my editor said:");
    }
  }

  lemma {:induction false} PartsOfBlocks(blocks: seq<ChatBlock>)
    requires forall b :: b in blocks ==> InLimits(b)
    ensures Sendable(BlockParts(blocks)) && Blocks(BlockParts(blocks)) == blocks && |BlockParts(blocks)| == |blocks|
    ensures AllIntact(blocks) ==> Legal(BlockParts(blocks))
  {
    if blocks != [] {
      PartsOfBlocks(blocks[1..]);
      DropFirst(Block(blocks[0]), BlockParts(blocks[1..]));
      assert [blocks[0]] + blocks[1..] == blocks;
    }
  }

  /** A chat that reads a follow-up finds exactly the intact blocks, in order, and nothing
      wrong when all are; only the errors of results are not carried over. */
  lemma {:induction false} FollowUpReadsBack(blocks: seq<ChatBlock>)
    requires blocks != [] && |blocks| <= MAX_BLOCKS_PER_MESSAGE && forall b :: b in blocks ==> InLimits(b)
    ensures Extract(FollowUp(blocks)).blocks == ReadEach(IntactOnes(blocks))
    ensures AllIntact(blocks) ==> Extract(FollowUp(blocks)).problems == []
  {
    var preface := Prose(Preface(|blocks|));
    var parts := [preface] + BlockParts(blocks);
    PartsOfBlocks(blocks);
    PrefaceIsProse(|blocks|);
    DropFirst(preface, BlockParts(blocks));
    BlocksOfMore(preface, BlockParts(blocks));
    SendableMore(preface, BlockParts(blocks));
    IntactBlocksComeBack(parts);
    if AllIntact(blocks) {
      ExtractMessage(parts);
    }
  }

  lemma {:induction false} SendableMore(part: Part, rest: seq<Part>)
    requires part.Prose? && FenceFree(part.text)
    ensures Sendable(rest) ==> Sendable([part] + rest)
    ensures Legal(rest) ==> Legal([part] + rest)
  {
    if Sendable(rest) {
      forall i | 0 <= i < |[part] + rest|
        ensures match ([part] + rest)[i] case Prose(text) => FenceFree(text) case Block(b) => InLimits(b)
      {
        assert i > 0 ==> ([part] + rest)[i] == rest[i - 1];
      }
    }
    if Legal(rest) {
      forall i | 0 <= i < |[part] + rest| ensures LegalPart(([part] + rest)[i]) {
        assert i > 0 ==> ([part] + rest)[i] == rest[i - 1];
      }
    }
  }

  /** What the chat reads when its batch ends: the text that is typed into its tab holds,
      block by block, the answers to the calls it made, under its own ids and in its order.
      Only an answer that breaks its own fence is lost. */
  lemma {:induction false} ChatReadsItsAnswers(before: seq<Event>, request: string, text: string, middle: seq<Event>, last: Event)
    requires Fresh(before + [Observed(request, Some(text))] + middle + [last])
    requires InTurn(Run(before), request, Observing) && request in Run(before).registered
    requires !Run(before).operations[request].settled && Accepted(text) != []
    requires Untimed(middle, request) && !Complete(middle, Numbered(Accepted(text), Run(before).nextId))
    requires last == Deadline(request) || Complete(middle + [last], Numbered(Accepted(text), Run(before).nextId))
    requires forall b :: b in Answers(Numbered(Accepted(text), Run(before).nextId), middle + [last]) ==> InLimits(b)
    ensures var typed := Run(before + [Observed(request, Some(text))] + middle + [last]).typed;
      var answers := Answers(Numbered(Accepted(text), Run(before).nextId), middle + [last]);
      typed != []
      && var message := typed[|typed| - 1];
         message.tab == Run(before).operations[request].tab
         && Extract(TypedText(message.content)).blocks == ReadEach(IntactOnes(answers))
         && (AllIntact(answers) ==>
               ReadsAs(Extract(TypedText(message.content)), CallsIn(Extract(text).blocks)))
  {
    EachBatchIsAnsweredOnce(before, request, text, middle, last);
    ReadsAnswers(Answers(Numbered(Accepted(text), Run(before).nextId), middle + [last]), CallsIn(Extract(text).blocks));
  }

  /** One block for each of the first six calls, with the call's id, and nothing amiss. */
  predicate ReadsAs(read: Extraction, calls: seq<ChatBlock>) {
    read.problems == []
    && |read.blocks| == (if |calls| <= 6 then |calls| else 6)
    && forall k :: 0 <= k < |read.blocks| ==> read.blocks[k].ToolResult? && read.blocks[k].id == calls[k].id
  }

  lemma {:induction false} ReadsAnswers(answers: seq<ChatBlock>, calls: seq<ChatBlock>)
    requires Answering(answers, calls) && answers != [] && forall b :: b in answers ==> InLimits(b)
    ensures Extract(TypedText(Results(answers))).blocks == ReadEach(IntactOnes(answers))
    ensures AllIntact(answers) ==> ReadsAs(Extract(TypedText(Results(answers))), calls)
  {
    FollowUpReadsBack(answers);
    IntactCount(answers);
    AllRead(answers, Extract(FollowUp(answers)), calls);
  }

  lemma {:induction false} AllRead(answers: seq<ChatBlock>, read: Extraction, calls: seq<ChatBlock>)
    requires Answering(answers, calls)
    ensures read.blocks == ReadEach(answers) && read.problems == [] ==> ReadsAs(read, calls)
  {
    ReadEachAt(answers);
  }

  lemma {:induction false} ReadEachAt(blocks: seq<ChatBlock>)
    ensures |ReadEach(blocks)| == |blocks| && forall k :: 0 <= k < |blocks| ==> ReadEach(blocks)[k] == AsRead(blocks[k])
  {
    if blocks != [] {
      ReadEachAt(blocks[1..]);
    }
  }

  /** There is a reply that asks for tools. */
  lemma {:induction false} SomeReplyAsks() returns (reply: string)
    ensures Accepted(reply) != []
  {
    var id, tool := ['a'], ['t'];
    PlainCall(id, tool);
    reply := AskingReply(ToolCall(id, tool, None));
  }

  lemma {:induction false} AskingReply(b: ChatBlock) returns (reply: string)
    requires InLimits(b) && Intact(b) && b.ToolCall?
    ensures Accepted(reply) != []
  {
    var parts := [Block(b)];
    reply := Message(parts);
    OnlyBlock(b);
    IntactBlocksComeBack(parts);
    assert IntactOnes([b])[..] == [b] by {
      assert [b][1..] == [];
    }
    ReadEachAt([b]);
    assert ReadEach([b])[0] == b;
  }

  lemma {:induction false} OnlyBlock(b: ChatBlock)
    requires InLimits(b)
    ensures Sendable([Block(b)]) && Blocks([Block(b)]) == [b]
  {
    BlocksOfMore(Block(b), []);
    assert [Block(b)] + [] == [Block(b)] && Blocks([]) == [];
  }
}
