/** What the worker says: the text of every answer, error and question. */
module WorkerAnswers {
  import opened Options
  import opened Sequences
  import opened Text
  import opened ChatBlocks
  import opened ChatRoundTrip
  import opened ChatSurvivors
  import opened ChatProse
  import opened Worker
  import opened WorkerLanes
  import opened WorkerOthers
  import opened WorkerStrays
  import opened WorkerReplies

  // ---------------------------------------------------------- the final answer

  /** The answer to a reply that asks for nothing: the prose around its blocks, or the reply as
      it stands when there is none. */
  predicate Answers(text: string, answer: string) {
    CallsIn(Extract(text).blocks) == [] && answer == if Extract(text).prose != "" then Extract(text).prose else text
  }

  lemma {:induction false} NothingAccepted(text: string)
    ensures Accepted(text) == [] <==> CallsIn(Extract(text).blocks) == []
  {
  }

  lemma {:induction false} DeliverSays(s: State, r: string, op: Operation, text: string, answer: string)
    requires Answers(text, answer)
    ensures DeliverReply(s, r, op, text) == Say(s, Final(r, answer))
  {
    NothingAccepted(text);
  }

  lemma {:induction false} EndTurnIsSilent(s: State, r: string, op: Operation)
    ensures var t := EndTurn(s, r, op);
      t.frames == s.frames && t.typed == s.typed && r in t.operations && t.operations[r].turn.None?
  {
  }

  /** A reply that asks for nothing is answered at once, with its own text and nothing else, and
      the operation's turn is over. */
  lemma {:induction false} ReplyIsTheAnswer(s: State, r: string, text: string, answer: string)
    requires InTurn(s, r, Observing) && Answers(text, answer)
    ensures var t := OnObserved(s, r, Some(text));
      t.frames == s.frames + [Final(r, answer)] && t.typed == s.typed && r in t.operations && t.operations[r].turn.None?
  {
    DeliverSays(s, r, s.operations[r], text, answer);
    EndTurnIsSilent(Say(s, Final(r, answer)), r, s.operations[r]);
  }

  /** Over runs: the one frame that a reply without calls adds is its prose, in whichever way
      the reply mixes paragraphs with blocks that are no calls. */
  lemma {:induction false} MessageIsTheAnswer(events: seq<Event>, r: string, parts: seq<Part>)
    requires Fresh(events) && InTurn(Run(events), r, Observing)
    requires Legal(parts) && |Blocks(parts)| <= 8 && AllNeat(parts) && forall b :: b in Blocks(parts) ==> !b.ToolCall?
    ensures var s, t := Run(events), Run(events + [Observed(r, Some(Message(parts)))]);
      t.frames == s.frames + [Final(r, if Paragraphs(parts) != [] then Spaced(Paragraphs(parts)) else Message(parts))]
  {
    var answer := if Paragraphs(parts) != [] then Spaced(Paragraphs(parts)) else Message(parts);
    RunMore(events, Observed(r, Some(Message(parts))));
    OnlyTheProseIsLeft(parts);
    ExtractMessage(parts);
    NoCallsRead(Blocks(parts));
    if Paragraphs(parts) != [] {
      ParagraphsAreNeat(parts);
      SpacedEnds(Paragraphs(parts));
    }
    ReplyIsTheAnswer(Run(events), r, Message(parts), answer);
  }

  lemma {:induction false} NoCallsRead(blocks: seq<ChatBlock>)
    requires forall b :: b in blocks ==> !b.ToolCall?
    ensures CallsIn(ReadEach(blocks)) == []
  {
    if blocks != [] {
      NoCallsRead(blocks[1..]);
      DropFirst(AsRead(blocks[0]), ReadEach(blocks[1..]));
    }
  }

  lemma {:induction false} PlainText(text: string)
    requires FenceFree(text)
    ensures Extract(text) == Extraction(Tidy(text), [], [])
  {
    var parts := [Prose(text)];
    assert LegalPart(parts[0]);
    ExtractMessage(parts);
    assert parts[1..] == [];
  }

  /** A reply in which no three backticks stand together is answered with its own text: the
      white space at its ends is gone, no three newlines are left in a row, and every other
      character is in its place. Without runs of three newlines only the ends are trimmed. */
  lemma {:induction false} PlainReplyIsTheAnswer(events: seq<Event>, r: string, text: string) returns (answer: string)
    requires Fresh(events) && InTurn(Run(events), r, Observing) && FenceFree(text)
    ensures Run(events + [Observed(r, Some(text))]).frames == Run(events).frames + [Final(r, answer)]
    ensures if AllSpace(text) then answer == text
            else Bounded(answer) && NoTripleBreak(answer) && Ink(answer) == Ink(text)
    ensures NoTripleBreak(text) && !AllSpace(text) ==> IsTrimmed(text, answer)
  {
    RunMore(events, Observed(r, Some(text)));
    PlainText(text);
    TidyKeepsInk(text);
    NoInkNoText(text);
    NoInkNoText(Tidy(text));
    answer := if Tidy(text) != "" then Tidy(text) else text;
    NoInkIsEmpty(Tidy(text));
    ReplyIsTheAnswer(Run(events), r, text, answer);
  }

  // ---------------------------------------------------------- errors and progress

  /** Every failure is reported once, in its own words: a request that found no chat, a message
      that could not be typed, a reply that could not be read, a turn that took too long. */
  lemma {:induction false} FailuresAreReported(events: seq<Event>, r: string, reason: string)
    ensures var s := Run(events);
      && Step(s, Arrive(r, None, reason)) == s.(frames := s.frames + [Failure(r, reason)])
      && (InTurn(s, r, Delivering) ==> Step(s, Delivered(r, Some(reason))).frames == s.frames + [Failure(r, reason)])
      && (InTurn(s, r, Observing) ==> Step(s, Observed(r, None)).frames == s.frames + [Failure(r, NOT_READ)])
      && (r in s.registered && r in s.operations && !s.operations[r].settled ==>
            Step(s, Ceiling(r)).frames == s.frames + [Failure(r, NEVER_FINISHED)])
  {
  }

  lemma {:induction false} TrimStartFindsInk(text: string)
    ensures TrimStart(text) != "" <==> exists i :: 0 <= i < |text| && !IsSpace(text[i])
  {
    var i := TrimStartCut(text);
    if i < |text| {
      assert !IsSpace(text[i]);
    } else {
      assert text[..i] == text;
    }
  }

  predicate HasInk(text: string) {
    exists i :: 0 <= i < |text| && !IsSpace(text[i])
  }

  /** A step sends a partial if and only if it is a progress frame with something in it, from the
      tab of a registered request and under that request's current observation. */
  lemma {:induction false} PartialsExactlyWhenCurrent(events: seq<Event>, e: Event, r: string, text: string)
    ensures var s := Run(events);
      Step(s, e).frames == s.frames + [Partial(r, text)]
      <==> HasInk(text) && r in s.registered && r in s.operations
           && e == Progress(s.operations[r].tab, r, s.operations[r].observation, text)
  {
    var s := Run(events);
    TrimStartFindsInk(text);
    if Step(s, e).frames == s.frames + [Partial(r, text)] {
      PartialsAreCurrent(s, e, r, text);
      assert Step(s, e).frames != s.frames;
    }
  }

  // ---------------------------------------------------------- questions

  /** The operation is the one that this request asked for. */
  predicate AskedAs(events: seq<Event>, s: State, r: string) {
    r in s.operations ==> Arrive(r, Some(s.operations[r].tab), s.operations[r].question) in events
  }

  lemma {:induction false} ObservedKeepsQuestion(s: State, r: string, reply: Option<string>)
    requires r in s.operations
    ensures var t := OnObserved(s, r, reply);
      r in t.operations && t.operations[r].question == s.operations[r].question && t.operations[r].tab == s.operations[r].tab
  {
    if InTurn(s, r, Observing) && reply.Some? {
      var told := DeliverReply(s, r, s.operations[r], reply.value);
      assert r in told.operations && told.operations[r].question == s.operations[r].question;
    }
  }

  lemma {:induction false} StepKeepsQuestion(s: State, e: Event, r: string)
    requires Shaped(s) && r in s.operations && (e.Arrive? ==> e.request != r)
    ensures var t := Step(s, e);
      r in t.operations && t.operations[r].question == s.operations[r].question && t.operations[r].tab == s.operations[r].tab
  {
    if !About(s, e, r) {
      OthersAreLeftAlone(s, e, r);
    } else {
      match e
      case Observed(_, reply) => ObservedKeepsQuestion(s, r, reply);
      case Arrived(wireId, outcome) => OwnerExpects(s.registered, s.operations, wireId);
      case _ =>
    }
  }

  lemma {:induction false} OnlyArrivalsMake(s: State, e: Event, r: string)
    requires Shaped(s) && r !in s.operations
    ensures r in Step(s, e).operations ==>
              e.Arrive? && e.request == r && e.target.Some?
              && Step(s, e).operations[r].tab == e.target.value && Step(s, e).operations[r].question == e.text
  {
    if !About(s, e, r) {
      OthersAreLeftAlone(s, e, r);
    } else {
      match e
      case Arrived(wireId, outcome) => OwnerExpects(s.registered, s.operations, wireId);
      case _ =>
    }
  }

  lemma {:induction false} RunAskedAs(events: seq<Event>, r: string)
    requires Fresh(events)
    ensures AskedAs(events, Run(events), r)
  {
    if events != [] {
      var before, last := events[..|events| - 1], events[|events| - 1];
      RunAskedAs(before, r);
      RunShape(before);
      assert events == before + [last];
      if r in Run(before).operations {
        SeenIfMade(before, r);
        StepKeepsQuestion(Run(before), last, r);
      } else {
        OnlyArrivalsMake(Run(before), last, r);
      }
    }
  }

  lemma {:induction false} SeenIfMade(events: seq<Event>, r: string)
    requires Fresh(events) && r in Run(events).operations
    ensures Seen(events, r)
  {
    RunShape(events);
  }

  lemma {:induction false} NewQuestion(s: State, e: Event, one: Typed)
    requires Shaped(s) && Step(s, e).typed == s.typed + [one] && one.content.Question?
    ensures one.request in s.operations && one.tab == s.operations[one.request].tab
    ensures one.content == Question(s.operations[one.request].question)
  {
    assert Step(s, e).typed[|s.typed|] == one;
    match e
    case Start(tab) =>
      assert Lane(s, tab)[0] in LaneIn(s.lanes, tab) && Waits(s.operations, Lane(s, tab)[0], tab);
    case Observed(r, reply) => ObservedTypes(s, r, reply);
    case Arrived(wireId, outcome) => OwnerExpects(s.registered, s.operations, wireId);
    case _ =>
  }

  predicate CameAs(events: seq<Event>, one: Typed) {
    one.content.Question? ==> Arrive(one.request, Some(one.tab), one.content.text) in events
  }

  lemma {:induction false} NewQuestionCame(events: seq<Event>, e: Event, one: Typed)
    requires Fresh(events) && Step(Run(events), e).typed == Run(events).typed + [one]
    ensures CameAs(events, one)
  {
    if one.content.Question? {
      RunShape(events);
      NewQuestion(Run(events), e, one);
      RunAskedAs(events, one.request);
    }
  }

  lemma {:induction false} OneMoreTyped(s: State, e: Event)
    ensures var t := Step(s, e);
      t.typed == s.typed || (t.typed != [] && t.typed == s.typed + [t.typed[|t.typed| - 1]])
  {
    StepTypes(s, e);
    var t := Step(s, e);
    assert |t.typed| == |s.typed| ==> t.typed[..|s.typed|] == t.typed;
  }

  /** Every question that is typed is one that came for that tab, under the request's own name
      and in its own words. */
  lemma {:induction false} QuestionsAreTheirs(events: seq<Event>)
    requires Fresh(events)
    ensures forall i :: 0 <= i < |Run(events).typed| ==> CameAs(events, Run(events).typed[i])
  {
    if events != [] {
      var before, last := events[..|events| - 1], events[|events| - 1];
      var typed, after := Run(before).typed, Run(events).typed;
      QuestionsAreTheirs(before);
      OneMoreTyped(Run(before), last);
      if after != typed {
        NewQuestionCame(before, last, after[|after| - 1]);
      }
      assert events == before + [last];
      forall i | 0 <= i < |after| ensures CameAs(events, after[i]) {
        assert i < |typed| ==> after[i] == typed[i] && CameAs(before, typed[i]);
      }
    }
  }

  predicate Holds(s: State, r: string, tab: nat) {
    r in s.registered && r in s.operations && s.operations[r].tab == tab
  }

  lemma {:induction false} HolderHolds(s: State, tab: nat)
    requires Shaped(s)
    ensures Holder(s, tab).Some? <==> exists r :: Holds(s, r, tab)
  {
    if Holder(s, tab).Some? {
      var r := Holder(s, tab).value;
      assert r in LaneIn(s.lanes, tab) && Waits(s.operations, r, tab);
      assert Holds(s, r, tab);
    }
    forall r | Holds(s, r, tab) ensures Holder(s, tab).Some? {
      assert Fronts(s.operations, s.lanes, r);
    }
  }

  /** When a tab runs its next piece of work: if no operation holds it and somebody is waiting,
      the question typed is that of the earliest request not yet typed, in its own words;
      otherwise nothing happens. */
  lemma {:induction false} NextInLineIsTyped(events: seq<Event>, tab: nat) returns (text: string)
    requires Fresh(events)
    ensures var s, arrived := Run(events), ArrivedOn(events, tab);
      var n := |Questions(s.typed, tab)|;
      if n < |arrived| && !exists r :: Holds(s, r, tab) then
        && Step(s, Start(tab)).typed == s.typed + [Typed(tab, arrived[n], Question(text))]
        && Arrive(arrived[n], Some(tab), text) in events
      else Step(s, Start(tab)) == s
  {
    var s, arrived := Run(events), ArrivedOn(events, tab);
    RunShape(events);
    StartsInOrder(events, tab);
    HolderHolds(s, tab);
    StartWaiting(s, tab, tab);
    text := "";
    if Holder(s, tab).None? && Lane(s, tab) != [] {
      var r := Lane(s, tab)[0];
      assert r in LaneIn(s.lanes, tab) && Waits(s.operations, r, tab);
      RunAskedAs(events, r);
      text := s.operations[r].question;
      assert arrived[|Questions(s.typed, tab)|] == Waiting(s, tab)[0];
    }
  }
}
