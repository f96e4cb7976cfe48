/** What a ceiling costs a tab: exactly when its conversations stay apart. */
module WorkerStrays {
  import opened Options
  import opened ChatBlocks
  import opened Worker
  import opened WorkerLanes
  import opened WorkerOthers
  import opened WorkerTurns
  import opened WorkerMessages
  import opened Sequences

  // ---------------------------------------------------------- who has typed

  /** The operation has had a message typed into its tab. */
  predicate HasTyped(s: State, r: string) {
    r in s.operations && r in Conversations(s.typed, s.operations[r].tab)
  }

  lemma {:induction false} ObservedTypes(s: State, r: string, reply: Option<string>)
    ensures OnObserved(s, r, reply).typed == s.typed
  {
    if InTurn(s, r, Observing) && reply.Some? {
      assert DeliverReply(s, r, s.operations[r], reply.value).typed == s.typed;
    }
  }

  /** A step types one message at most, and takes none back. */
  lemma {:induction false} StepTypes(s: State, e: Event)
    ensures s.typed <= Step(s, e).typed && |Step(s, e).typed| <= |s.typed| + 1
  {
    match e
    case Observed(r, reply) => ObservedTypes(s, r, reply);
    case Arrived(wireId, outcome) => OwnerExpects(s.registered, s.operations, wireId);
    case _ =>
  }

  lemma {:induction false} StaysTyped(typed: seq<Typed>, more: seq<Typed>, tab: nat, r: string)
    requires r in Conversations(typed, tab) && typed <= more && |more| <= |typed| + 1
    ensures r in Conversations(more, tab)
  {
    if more != typed {
      assert more == typed + [more[|typed|]];
      ConversationsAppend(typed, more[|typed|], tab);
    }
  }

  lemma {:induction false} StepHasTyped(s: State, e: Event, r: string)
    requires Shaped(s) && HasTyped(s, r) && (e.Arrive? ==> e.request !in s.operations)
    ensures HasTyped(Step(s, e), r)
  {
    StepTypes(s, e);
    StepKeepsTab(s, e, r);
    StaysTyped(s.typed, Step(s, e).typed, s.operations[r].tab, r);
  }

  lemma {:induction false} StartHasTyped(s: State, tab: nat, r: string)
    requires Shaped(s) && r !in s.registered && r in OnStart(s, tab).registered
    ensures HasTyped(OnStart(s, tab), r)
  {
    StartWaiting(s, tab, tab);
    assert Lane(s, tab)[0] in LaneIn(s.lanes, tab) && Waits(s.operations, Lane(s, tab)[0], tab);
    ConversationsAppend(s.typed, Typed(tab, r, Question(s.operations[r].question)), tab);
  }

  lemma {:induction false} OnlyStartRegisters(s: State, e: Event, r: string)
    requires Shaped(s) && r !in s.registered && !e.Start?
    ensures r !in Step(s, e).registered
  {
    if !About(s, e, r) {
      OthersAreLeftAlone(s, e, r);
    } else {
      match e
      case Observed(_, reply) => ObservedRegistersNone(s, r, reply);
      case Arrived(wireId, _) => OwnerExpects(s.registered, s.operations, wireId);
      case _ =>
    }
  }

  lemma {:induction false} ObservedRegistersNone(s: State, r: string, reply: Option<string>)
    requires r !in s.registered
    ensures r !in OnObserved(s, r, reply).registered
  {
    if InTurn(s, r, Observing) && reply.Some? {
      assert DeliverReply(s, r, s.operations[r], reply.value).registered == s.registered;
    }
  }

  lemma {:induction false} RegisteredHasTyped(events: seq<Event>, r: string)
    requires Fresh(events) && r in Run(events).registered
    ensures HasTyped(Run(events), r)
  {
    var before, last := events[..|events| - 1], events[|events| - 1];
    RunShape(before);
    if r in Run(before).registered {
      RegisteredHasTyped(before, r);
      StepHasTyped(Run(before), last, r);
    } else if last.Start? {
      StartHasTyped(Run(before), last.tab, r);
    } else {
      OnlyStartRegisters(Run(before), last, r);
    }
  }

  // ---------------------------------------------------------- what a ceiling leaves behind

  /** Given up on its tab, with a message or a batch still under way: either its question is
      still holding the tab, or the tab is free and it has left the lane. */
  predicate Leftover(s: State, r: string, tab: nat) {
    HasTyped(s, r)
    && var op := s.operations[r];
       op.tab == tab && op.settled && (op.turn.Some? <==> op.batch.None?)
       && if r in s.registered then op.turn.Some? && op.turn.value.first else r !in Lane(s, tab) && Holder(s, tab).None?
  }

  lemma {:induction false} ReleaseLeaves(s: State, r: string, tab: nat)
    requires Shaped(s) && r in s.registered && r in s.operations && s.operations[r].tab == tab
    ensures var t := Release(s, r, tab); r !in t.registered && r !in Lane(t, tab) && Holder(t, tab).None?
  {
    assert Fronts(s.operations, s.lanes, r);
    RemoveOneSpec(s.registered, r);
    assert Distinct(LaneIn(s.lanes, tab));
    ReleaseWaiting(s, r, tab, tab);
  }

  lemma {:induction false} SettleLeaves(s: State, r: string, op: Operation)
    requires Shaped(s) && r in s.operations && op.tab == s.operations[r].tab
    requires r in s.registered || (r !in Lane(s, op.tab) && Holder(s, op.tab).None?)
    ensures var t := Settle(s, r, op);
      r in t.operations && t.operations[r] == op.(settled := true)
      && if r in t.registered then op.turn.Some? && op.turn.value.first else r !in Lane(t, op.tab) && Holder(t, op.tab).None?
  {
    PutShape(s, r, op.(settled := true));
    if r in s.registered && !(op.turn.Some? && op.turn.value.first) {
      ReleaseLeaves(Put(s, r, op.(settled := true)), r, op.tab);
    }
  }

  lemma {:induction false} CeilingLeaves(s: State, r: string)
    requires Shaped(s) && Steady(s, r) && GivesUp(s, Ceiling(r), r) && HasTyped(s, r)
    ensures Leftover(OnCeiling(s, r), r, s.operations[r].tab)
  {
    SettleLeaves(Say(s, Failure(r, NEVER_FINISHED)), r, s.operations[r]);
  }

  lemma {:induction false} DeliveredLeaves(s: State, r: string, tab: nat)
    requires Leftover(s, r, tab) && InTurn(s, r, Delivering)
    ensures Leftover(OnDelivered(s, r, None), r, tab) && InTurn(OnDelivered(s, r, None), r, Observing)
  {
  }

  lemma {:induction false} OpenedLeaves(s: State, r: string, tab: nat, calls: seq<ChatBlock>)
    requires Shaped(s) && Leftover(s, r, tab) && InTurn(s, r, Observing) && forall b :: b in calls ==> b.ToolCall?
    ensures var told := OpenBatch(s, r, s.operations[r], calls);
      r in told.operations
      && var t := EndTurn(told, r, told.operations[r]);
         Leftover(t, r, tab) && t.operations[r].batch.Some?
  {
    var told := OpenBatch(s, r, s.operations[r], calls);
    PutShape(s, r, told.operations[r]);
    SettleLeaves(told, r, told.operations[r].(turn := None));
  }

  lemma {:induction false} ObservedLeaves(s: State, r: string, tab: nat, reply: string)
    requires Shaped(s) && Leftover(s, r, tab) && InTurn(s, r, Observing) && Accepted(reply) != []
    ensures Leftover(OnObserved(s, r, Some(reply)), r, tab) && OnObserved(s, r, Some(reply)).operations[r].batch.Some?
  {
    CallsAreCalls(Extract(reply).blocks);
    OpenedLeaves(s, r, tab, Accepted(reply));
  }

  /** What is left can always be led to a batch that waits for its deadline on a free tab. */
  lemma {:induction false} LeftWithBatch(events: seq<Event>, r: string, tab: nat, reply: string) returns (more: seq<Event>)
    requires Fresh(events) && Leftover(Run(events), r, tab) && Accepted(reply) != []
    ensures Fresh(events + more) && forall e :: e in more ==> !e.Ceiling?
    ensures Leftover(Run(events + more), r, tab) && Run(events + more).operations[r].batch.Some?
  {
    if Run(events).operations[r].batch.Some? {
      more := [];
      assert events + more == events;
    } else if InTurn(Run(events), r, Observing) {
      more := [Observed(r, Some(reply))];
      LeftObserving(events, r, tab, reply);
    } else {
      more := [Delivered(r, None), Observed(r, Some(reply))];
      RunMore(events, Delivered(r, None));
      DeliveredLeaves(Run(events), r, tab);
      LeftObserving(events + [Delivered(r, None)], r, tab, reply);
      assert events + more == events + [Delivered(r, None)] + [Observed(r, Some(reply))];
    }
  }

  lemma {:induction false} LeftObserving(events: seq<Event>, r: string, tab: nat, reply: string)
    requires Fresh(events) && Leftover(Run(events), r, tab) && InTurn(Run(events), r, Observing) && Accepted(reply) != []
    ensures var after := events + [Observed(r, Some(reply))];
      Fresh(after) && Leftover(Run(after), r, tab) && Run(after).operations[r].batch.Some?
  {
    RunShape(events);
    RunMore(events, Observed(r, Some(reply)));
    ObservedLeaves(Run(events), r, tab, reply);
  }

  // ---------------------------------------------------------- how it breaks in

  function Longest(events: seq<Event>): nat {
    if events == [] then 0
    else
      var others, last := Longest(events[..|events| - 1]), events[|events| - 1];
      if last.Arrive? && |last.request| > others then |last.request| else others
  }

  lemma {:induction false} SeenIsShorter(events: seq<Event>, r: string)
    requires Seen(events, r)
    ensures |r| <= Longest(events)
  {
    var before, last := events[..|events| - 1], events[|events| - 1];
    if !(last.Arrive? && last.request == r) {
      SeenIsShorter(before, r);
    }
  }

  function FreshName(events: seq<Event>): string {
    seq(Longest(events) + 1, _ => 'x')
  }

  lemma {:induction false} DistinctPrefix(c: seq<string>, all: seq<string>)
    requires c <= all && Distinct(all)
    ensures Distinct(c)
  {
    if c != [] {
      assert c[1..] <= all[1..];
      DistinctPrefix(c[1..], all[1..]);
    }
  }

  lemma {:induction false} TwiceIsNotDistinct(c: seq<string>, r: string)
    requires r in c
    ensures !Distinct(c + [r])
  {
    if Distinct(c + [r]) {
      assert c + [r] == c + ([r] + []);
      DistinctMiddle(c, r, []);
    }
  }

  /** A newcomer's question and then the stray follow-up, in one composer. */
  lemma {:induction false} StrayBreaksIn(s: State, r: string, tab: nat, b: string)
    requires Shaped(s) && Leftover(s, r, tab) && s.operations[r].batch.Some? && b !in s.operations && b != r
    ensures var t := OnDeadline(OnStart(OnArrive(s, b, Some(tab), ""), tab), r);
      !Distinct(Conversations(t.typed, tab))
  {
    ArriveShape(s, b, Some(tab), "");
    ArriveWaiting(s, b, Some(tab), "", tab);
    var joined := OnArrive(s, b, Some(tab), "");
    StartWaiting(joined, tab, tab);
    var begun := OnStart(joined, tab);
    var next := Lane(joined, tab)[0];
    assert next in Lane(s, tab) || next == b;
    NextIsTyped(joined, tab, next, r);
    StrayFollows(begun, r, tab, next);
  }

  lemma {:induction false} NextIsTyped(s: State, tab: nat, next: string, r: string)
    requires Shaped(s) && Lane(s, tab) != [] && Lane(s, tab)[0] == next && Holder(s, tab).None? && next != r
    requires r in s.operations && r in Conversations(s.typed, tab)
    ensures var t := OnStart(s, tab);
      var c := Conversations(t.typed, tab);
      r in c && c[|c| - 1] == next && r in t.operations && t.operations[r] == s.operations[r]
  {
    StartWaiting(s, tab, tab);
    ConversationsAppend(s.typed, Typed(tab, next, Question(s.operations[next].question)), tab);
  }

  lemma {:induction false} StrayFollows(s: State, r: string, tab: nat, next: string)
    requires r in s.operations && s.operations[r].tab == tab && s.operations[r].batch.Some?
    requires var c := Conversations(s.typed, tab); r in c && c[|c| - 1] == next && next != r
    ensures !Distinct(Conversations(OnDeadline(s, r).typed, tab))
  {
    var op := s.operations[r];
    ConversationsAppend(s.typed, Typed(tab, r, Results(ResultBlocks(op.batch.value.order, op.batch.value.results))), tab);
    TwiceIsNotDistinct(Conversations(s.typed, tab), r);
  }

  lemma {:induction false} LeftoverBreaksIn(events: seq<Event>, r: string, tab: nat) returns (more: seq<Event>)
    requires Fresh(events) && Leftover(Run(events), r, tab) && Run(events).operations[r].batch.Some?
    ensures Fresh(events + more) && forall e :: e in more ==> !e.Ceiling?
    ensures !Distinct(Conversations(Run(events + more).typed, tab))
  {
    var b := FreshName(events);
    if Seen(events, b) {
      SeenIsShorter(events, b);
    }
    RunShape(events);
    StrayBreaksIn(Run(events), r, tab, b);
    more := [Arrive(b, Some(tab), ""), Start(tab), Deadline(r)];
    RunThree(events, Arrive(b, Some(tab), ""), Start(tab), Deadline(r));
    ThreeSteps(Run(events), r, tab, b);
  }

  lemma {:induction false} ThreeSteps(s: State, r: string, tab: nat, b: string)
    ensures Step(Step(Step(s, Arrive(b, Some(tab), "")), Start(tab)), Deadline(r))
         == OnDeadline(OnStart(OnArrive(s, b, Some(tab), ""), tab), r)
  {
  }

  lemma {:induction false} RunThree(events: seq<Event>, a: Event, b: Event, c: Event)
    requires Fresh(events) && (a.Arrive? ==> !Seen(events, a.request)) && !b.Arrive? && !c.Arrive?
    ensures Fresh(events + [a, b, c]) && Run(events + [a, b, c]) == Step(Step(Step(Run(events), a), b), c)
  {
    RunMore(events, a);
    RunMore(events + [a], b);
    RunMore(events + [a] + [b], c);
    assert events + [a, b, c] == events + [a] + [b] + [c];
  }

  lemma {:induction false} CeilingLeavesOne(events: seq<Event>, r: string)
    requires Fresh(events) && GivesUp(Run(events), Ceiling(r), r)
    ensures Fresh(events + [Ceiling(r)])
    ensures Leftover(Run(events + [Ceiling(r)]), r, Run(events).operations[r].tab)
  {
    RunShape(events);
    NotSettledYet(events, r);
    RunSteady(events, r);
    RegisteredHasTyped(events, r);
    RunMore(events, Ceiling(r));
    CeilingLeaves(Run(events), r);
  }

  lemma {:induction false} TwiceIsNotApart(events: seq<Event>, tab: nat)
    requires Fresh(events) && !Distinct(Conversations(Run(events).typed, tab))
    ensures !(Conversations(Run(events).typed, tab) <= ArrivedOn(events, tab))
  {
    ArrivalsDistinct(events, tab);
    if Conversations(Run(events).typed, tab) <= ArrivedOn(events, tab) {
      DistinctPrefix(Conversations(Run(events).typed, tab), ArrivedOn(events, tab));
    }
  }

  lemma {:induction false} LeftoverInterleaves(events: seq<Event>, r: string, tab: nat, reply: string) returns (more: seq<Event>)
    requires Fresh(events) && Leftover(Run(events), r, tab) && Accepted(reply) != []
    ensures Fresh(events + more) && forall e :: e in more ==> !e.Ceiling?
    ensures !(Conversations(Run(events + more).typed, tab) <= ArrivedOn(events + more, tab))
  {
    var led := LeftWithBatch(events, r, tab, reply);
    var strays := LeftoverBreaksIn(events + led, r, tab);
    more := led + strays;
    Associative(events, led, strays);
    TwiceIsNotApart(events + more, tab);
  }

  /** Whichever ceiling fires on a tab, there is a continuation in which the operation it gave
      up types into another one's conversation. */
  lemma {:induction false} CeilingMayInterleave(events: seq<Event>, r: string, reply: string) returns (more: seq<Event>)
    requires Fresh(events) && GivesUp(Run(events), Ceiling(r), r) && Accepted(reply) != []
    ensures Fresh(events + [Ceiling(r)] + more) && forall e :: e in more ==> !e.Ceiling?
    ensures var tab := Run(events).operations[r].tab;
      !(Conversations(Run(events + [Ceiling(r)] + more).typed, tab) <= ArrivedOn(events + [Ceiling(r)] + more, tab))
  {
    CeilingLeavesOne(events, r);
    more := LeftoverInterleaves(events + [Ceiling(r)], r, Run(events).operations[r].tab, reply);
  }

  lemma {:induction false} NotSettledYet(events: seq<Event>, r: string)
    requires Fresh(events) && r in Run(events).operations && !Run(events).operations[r].settled
    ensures !GaveUp(events, r)
  {
    if GaveUp(events, r) {
      GivenUpIsSettled(events, r);
    }
  }

  lemma {:induction false} GivenUpIsSettled(events: seq<Event>, r: string)
    requires Fresh(events) && GaveUp(events, r)
    ensures r in Run(events).operations && Run(events).operations[r].settled
  {
    var before, last := events[..|events| - 1], events[|events| - 1];
    RunShape(before);
    if GaveUp(before, r) {
      GivenUpIsSettled(before, r);
      StaysSettled(Run(before), last, r);
    }
  }

  lemma {:induction false} StaysSettled(s: State, e: Event, r: string)
    requires Shaped(s) && r in s.operations && s.operations[r].settled && (e.Arrive? ==> e.request != r)
    ensures r in Step(s, e).operations && Step(s, e).operations[r].settled
  {
    if !About(s, e, r) {
      OthersAreLeftAlone(s, e, r);
    } else {
      match e
      case Observed(_, reply) => ObservedStaysSettled(s, r, reply);
      case Arrived(wireId, _) => OwnerExpects(s.registered, s.operations, wireId);
      case _ =>
    }
  }

  lemma {:induction false} ObservedStaysSettled(s: State, r: string, reply: Option<string>)
    requires r in s.operations && s.operations[r].settled
    ensures r in OnObserved(s, r, reply).operations && OnObserved(s, r, reply).operations[r].settled
  {
    if InTurn(s, r, Observing) && reply.Some? {
      var told := DeliverReply(s, r, s.operations[r], reply.value);
      assert r in told.operations && told.operations[r].settled;
    }
  }

  // ---------------------------------------------------------- exactly until a ceiling

  lemma {:induction false} NotGivenUpOnLater(events: seq<Event>, more: seq<Event>, tab: nat)
    requires !GaveUpOn(events, tab) && forall e :: e in more ==> !e.Ceiling?
    ensures !GaveUpOn(events + more, tab)
    decreases |more|
  {
    if more == [] {
      assert events + more == events;
    } else {
      assert (events + more)[..|events + more| - 1] == events + more[..|more| - 1];
      NotGivenUpOnLater(events, more[..|more| - 1], tab);
    }
  }

  /** However the run goes on without further ceilings, the messages typed into the tab make
      up the first conversations that were asked for, each in one piece. */
  ghost predicate ApartFrom(events: seq<Event>, tab: nat) {
    forall more :: Fresh(events + more) && (forall e :: e in more ==> !e.Ceiling?) ==>
      Conversations(Run(events + more).typed, tab) <= ArrivedOn(events + more, tab)
  }

  /** The next event costs a tab its guarantee exactly when it is a ceiling that gives up an
      operation on that tab. Ceilings on other tabs never do. */
  lemma {:induction false} ApartExactlyUntilGivenUp(events: seq<Event>, e: Event, tab: nat)
    requires Fresh(events + [e]) && !GaveUpOn(events, tab)
    ensures ApartFrom(events + [e], tab) <==> !GivesUpOn(Run(events), e, tab)
  {
    var given := events + [e];
    RunMore(events, e);
    assert given[..|given| - 1] == events;
    if !GivesUpOn(Run(events), e, tab) {
      forall more | Fresh(given + more) && (forall x :: x in more ==> !x.Ceiling?)
        ensures Conversations(Run(given + more).typed, tab) <= ArrivedOn(given + more, tab)
      {
        NotGivenUpOnLater(given, more, tab);
        NoInterleaving(given + more, tab);
      }
    } else {
      var reply := SomeReplyAsks();
      var more := CeilingMayInterleave(events, e.request, reply);
      assert given + more == events + [Ceiling(e.request)] + more;
    }
  }
}
