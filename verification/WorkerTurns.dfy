/** One turn at a time: what an operation may have under way, and conversations in a tab.
    Both hold until a ceiling gives an operation up; what is then left of it may still type. */
module WorkerTurns {
  import opened Options
  import opened Worker
  import opened WorkerLanes
  import opened WorkerOthers
  import opened Sequences

  /** The event is a ceiling that fires: its operation is registered and not settled. */
  predicate GivesUp(s: State, e: Event, r: string) {
    e == Ceiling(r) && r in s.registered && r in s.operations && !s.operations[r].settled
  }

  /** At some point of the run a ceiling gave this operation up. */
  predicate GaveUp(events: seq<Event>, r: string) {
    events != []
    && var before := events[..|events| - 1];
       GaveUp(before, r) || GivesUp(Run(before), events[|events| - 1], r)
  }

  // ---------------------------------------------------------- the state of one operation

  /** While registered, an operation is either typing and watching or waiting for a batch,
      never both; once it leaves its lane it is settled, with nothing outstanding. */
  predicate Steady(s: State, r: string) {
    r in s.operations ==>
      var op := s.operations[r];
      if r in s.registered then !op.settled && (op.turn.Some? <==> op.batch.None?)
      else op.turn.None? && op.batch.None? && (op.settled <==> r !in Lane(s, op.tab))
  }

  lemma {:induction false} ReleaseSteady(s: State, r: string, tab: nat)
    requires Shaped(s) && r in s.registered && r in s.operations && s.operations[r].tab == tab
    requires s.operations[r].settled && s.operations[r].turn.None? && s.operations[r].batch.None?
    ensures Steady(Release(s, r, tab), r)
  {
    assert Fronts(s.operations, s.lanes, r);
    RemoveOneSpec(s.registered, r);
    assert Distinct(LaneIn(s.lanes, tab));
  }

  /** An operation that is registered and unsettled, when its message has been dealt with. */
  lemma {:induction false} EndTurnSteady(s: State, r: string, op: Operation)
    requires Shaped(s) && r in s.registered && r in s.operations && op.tab == s.operations[r].tab && !op.settled
    ensures Steady(EndTurn(s, r, op), r)
  {
    if op.batch.None? {
      PutShape(s, r, op.(turn := None, settled := true));
      ReleaseSteady(Put(s, r, op.(turn := None, settled := true)), r, op.tab);
    }
  }

  lemma {:induction false} ObservedSteady(s: State, r: string, reply: Option<string>)
    requires Shaped(s) && Steady(s, r)
    ensures Steady(OnObserved(s, r, reply), r)
  {
    if InTurn(s, r, Observing) {
      var op := s.operations[r];
      match reply
      case None => EndTurnSteady(Say(s, Failure(r, NOT_READ)), r, op);
      case Some(text) =>
        var told := DeliverReply(s, r, op, text);
        DeliverShape(s, r, op, text);
        assert told.registered == s.registered && told.lanes == s.lanes;
        EndTurnSteady(told, r, told.operations[r]);
    }
  }

  lemma {:induction false} DeliveredSteady(s: State, r: string, failure: Option<string>)
    requires Shaped(s) && Steady(s, r)
    ensures Steady(OnDelivered(s, r, failure), r)
  {
    if InTurn(s, r, Delivering) && failure.Some? {
      EndTurnSteady(Say(s, Failure(r, failure.value)), r, s.operations[r]);
    }
  }

  lemma {:induction false} ResultSteady(s: State, wireId: nat, outcome: Outcome, r: string)
    requires Steady(s, r) && OwnerAmong(s.registered, s.operations, wireId) == Some(r)
    ensures Steady(OnResult(s, wireId, outcome), r)
  {
    OwnerExpects(s.registered, s.operations, wireId);
  }

  lemma {:induction false} StartSteady(s: State, tab: nat, r: string)
    requires Shaped(s) && Steady(s, r) && Lane(s, tab) != [] && Lane(s, tab)[0] == r
    ensures Steady(OnStart(s, tab), r)
  {
    assert r in LaneIn(s.lanes, tab) && Waits(s.operations, r, tab);
  }

  lemma {:induction false} ArriveSteady(s: State, r: string, target: Option<nat>, text: string)
    requires Shaped(s) && r !in s.operations
    ensures Steady(OnArrive(s, r, target, text), r)
  {
    assert r in s.registered ==> Fronts(s.operations, s.lanes, r);
  }

  lemma {:induction false} StepSteady(s: State, e: Event, r: string)
    requires Shaped(s) && Steady(s, r) && !GivesUp(s, e, r) && (e.Arrive? ==> e.request !in s.operations)
    ensures Steady(Step(s, e), r)
  {
    if !About(s, e, r) {
      OthersAreLeftAlone(s, e, r);
    } else {
      match e
      case Arrive(_, target, text) => ArriveSteady(s, r, target, text);
      case Start(tab) => StartSteady(s, tab, r);
      case Delivered(_, failure) => DeliveredSteady(s, r, failure);
      case Observed(_, reply) => ObservedSteady(s, r, reply);
      case Arrived(wireId, outcome) => ResultSteady(s, wireId, outcome, r);
      case Deadline(_) =>
      case Ceiling(_) =>
      case Progress(_, _, _, _) =>
    }
  }

  /** As long as no ceiling has given an operation up, it is steady, whatever has happened to
      others. */
  lemma {:induction false} RunSteady(events: seq<Event>, r: string)
    requires Fresh(events) && !GaveUp(events, r)
    ensures Steady(Run(events), r)
  {
    if events != [] {
      var before, last := events[..|events| - 1], events[|events| - 1];
      RunSteady(before, r);
      RunShape(before);
      StepSteady(Run(before), last, r);
    }
  }

  // ---------------------------------------------------------- tabs

  lemma {:induction false} EndTurnKeepsTab(s: State, q: string, op: Operation, r: string)
    requires r in s.operations && q in s.operations && op.tab == s.operations[q].tab
    ensures r in EndTurn(s, q, op).operations && EndTurn(s, q, op).operations[r].tab == s.operations[r].tab
  {
  }

  lemma {:induction false} ObservedKeepsTab(s: State, r: string, reply: Option<string>)
    requires r in s.operations
    ensures r in OnObserved(s, r, reply).operations && OnObserved(s, r, reply).operations[r].tab == s.operations[r].tab
  {
    if InTurn(s, r, Observing) {
      var op := s.operations[r];
      match reply
      case None => EndTurnKeepsTab(Say(s, Failure(r, NOT_READ)), r, op, r);
      case Some(text) =>
        var told := DeliverReply(s, r, op, text);
        assert r in told.operations && told.operations[r].tab == op.tab;
        EndTurnKeepsTab(told, r, told.operations[r], r);
    }
  }

  lemma {:induction false} StepKeepsTab(s: State, e: Event, r: string)
    requires Shaped(s) && r in s.operations && (e.Arrive? ==> e.request != r)
    ensures r in Step(s, e).operations && Step(s, e).operations[r].tab == s.operations[r].tab
  {
    if !About(s, e, r) {
      OthersAreLeftAlone(s, e, r);
    } else {
      match e
      case Observed(_, reply) => ObservedKeepsTab(s, r, reply);
      case Arrived(wireId, outcome) => OwnerExpects(s.registered, s.operations, wireId);
      case _ =>
    }
  }

  predicate GivesUpOn(s: State, e: Event, tab: nat) {
    e.Ceiling? && GivesUp(s, e, e.request) && s.operations[e.request].tab == tab
  }

  /** At some point of the run a ceiling gave up an operation on this tab. */
  predicate GaveUpOn(events: seq<Event>, tab: nat) {
    events != []
    && var before := events[..|events| - 1];
       GaveUpOn(before, tab) || GivesUpOn(Run(before), events[|events| - 1], tab)
  }

  lemma {:induction false} GaveUpOnItsTab(events: seq<Event>, r: string)
    requires Fresh(events) && r in Run(events).operations && GaveUp(events, r)
    ensures GaveUpOn(events, Run(events).operations[r].tab)
  {
    var before, last := events[..|events| - 1], events[|events| - 1];
    RunShape(before);
    if GaveUp(before, r) {
      GaveUpWasThere(before, r);
      GaveUpOnItsTab(before, r);
    }
    StepKeepsTab(Run(before), last, r);
  }

  lemma {:induction false} GaveUpWasThere(events: seq<Event>, r: string)
    requires Fresh(events) && GaveUp(events, r)
    ensures r in Run(events).operations
  {
    var before, last := events[..|events| - 1], events[|events| - 1];
    if GaveUp(before, r) {
      GaveUpWasThere(before, r);
    }
    RunShape(before);
    StepKeepsTab(Run(before), last, r);
  }

  /** Every operation on the tab is steady. */
  ghost predicate SteadyOn(s: State, tab: nat) {
    forall r :: r in s.operations && s.operations[r].tab == tab ==> Steady(s, r)
  }

  lemma {:induction false} RunSteadyOn(events: seq<Event>, tab: nat)
    requires Fresh(events) && !GaveUpOn(events, tab)
    ensures SteadyOn(Run(events), tab)
  {
    forall r | r in Run(events).operations && Run(events).operations[r].tab == tab ensures Steady(Run(events), r) {
      if GaveUp(events, r) {
        GaveUpOnItsTab(events, r);
      }
      RunSteady(events, r);
    }
  }

  // ---------------------------------------------------------- one conversation at a time

  /** Whose messages were typed into a tab: each run of messages for one request once. */
  function Conversations(typed: seq<Typed>, tab: nat): seq<string> {
    if typed == [] then []
    else
      var earlier, last := Conversations(typed[..|typed| - 1], tab), typed[|typed| - 1];
      if last.tab != tab || (earlier != [] && earlier[|earlier| - 1] == last.request) then earlier
      else earlier + [last.request]
  }

  /** The conversations so far and the work waiting make up the arrivals, and the last
      conversation is that of the tab's holder. */
  predicate Contiguous(s: State, tab: nat, arrived: seq<string>) {
    var c := Conversations(s.typed, tab);
    c + Waiting(s, tab) == arrived
    && (Holder(s, tab).Some? ==> c != [] && c[|c| - 1] == Holder(s, tab).value)
  }

  lemma {:induction false} ConversationsAppend(typed: seq<Typed>, one: Typed, tab: nat)
    ensures var earlier := Conversations(typed, tab);
      Conversations(typed + [one], tab)
      == if one.tab != tab || (earlier != [] && earlier[|earlier| - 1] == one.request) then earlier
         else earlier + [one.request]
  {
    assert (typed + [one])[..|typed|] == typed;
  }

  lemma {:induction false} FinishContiguous(s: State, request: string, op: Operation, tab: nat, arrived: seq<string>)
    requires Shaped(s) && request in s.registered && request in s.operations && op.tab == s.operations[request].tab
    requires Contiguous(s, tab, arrived)
    ensures Contiguous(FinishBatch(s, request, op), tab, arrived)
  {
    assert Fronts(s.operations, s.lanes, request);
    if op.batch.Some? {
      ConversationsAppend(s.typed, Typed(op.tab, request, Results(ResultBlocks(op.batch.value.order, op.batch.value.results))), tab);
    }
  }

  lemma {:induction false} SettleContiguous(s: State, request: string, op: Operation, tab: nat, arrived: seq<string>)
    requires Shaped(s) && request in s.operations && op.tab == s.operations[request].tab
    requires Contiguous(s, tab, arrived)
    ensures Contiguous(Settle(s, request, op), tab, arrived)
  {
    PutShape(s, request, op.(settled := true));
    var after := Put(s, request, op.(settled := true));
    if request in s.registered && !(op.turn.Some? && op.turn.value.first) {
      ReleaseWaiting(after, request, op.tab, tab);
    }
  }

  lemma {:induction false} EndTurnContiguous(s: State, request: string, op: Operation, tab: nat, arrived: seq<string>)
    requires Shaped(s) && request in s.operations && op.tab == s.operations[request].tab
    requires Contiguous(s, tab, arrived)
    ensures Contiguous(EndTurn(s, request, op), tab, arrived)
  {
    SettleContiguous(s, request, op.(turn := None), tab, arrived);
  }

  lemma {:induction false} ObservedContiguous(s: State, request: string, reply: Option<string>, tab: nat, arrived: seq<string>)
    requires Shaped(s) && Contiguous(s, tab, arrived)
    ensures Contiguous(OnObserved(s, request, reply), tab, arrived)
  {
    if InTurn(s, request, Observing) {
      var op := s.operations[request];
      match reply
      case None => EndTurnContiguous(Say(s, Failure(request, NOT_READ)), request, op, tab, arrived);
      case Some(text) =>
        var told := DeliverReply(s, request, op, text);
        DeliverContiguous(s, request, op, text, tab, arrived);
        EndTurnContiguous(told, request, told.operations[request], tab, arrived);
    }
  }

  lemma {:induction false} DeliverContiguous(s: State, request: string, op: Operation, text: string, tab: nat, arrived: seq<string>)
    requires Shaped(s) && request in s.operations && op == s.operations[request] && Contiguous(s, tab, arrived)
    ensures var told := DeliverReply(s, request, op, text);
      Shaped(told) && Contiguous(told, tab, arrived) && request in told.operations && told.operations[request].tab == op.tab
  {
    DeliverShape(s, request, op, text);
  }

  lemma {:induction false} DistinctMiddle(c: seq<string>, one: string, rest: seq<string>)
    requires Distinct(c + ([one] + rest))
    ensures one !in c
  {
    if c != [] {
      assert (c + ([one] + rest))[1..] == c[1..] + ([one] + rest);
      DistinctMiddle(c[1..], one, rest);
      assert one in c[1..] + ([one] + rest);
    }
  }

  lemma {:induction false} NextConversation(c: seq<string>, lane: seq<string>)
    requires Distinct(c + lane) && lane != []
    ensures lane[0] !in c && (c + [lane[0]]) + lane[1..] == c + lane
  {
    assert lane == [lane[0]] + lane[1..];
    DistinctMiddle(c, lane[0], lane[1..]);
  }

  lemma {:induction false} StartContiguous(s: State, tab: nat, arrived: seq<string>)
    requires Shaped(s) && Contiguous(s, tab, arrived) && Distinct(arrived)
    ensures Contiguous(OnStart(s, tab), tab, arrived)
  {
    StartWaiting(s, tab, tab);
    var lane, c := Lane(s, tab), Conversations(s.typed, tab);
    if Holder(s, tab).None? && lane != [] {
      ConversationsAppend(s.typed, Typed(tab, lane[0], Question(s.operations[lane[0]].question)), tab);
      NextConversation(c, lane);
    }
  }

  lemma {:induction false} StartElsewhere(s: State, of: nat, tab: nat, arrived: seq<string>)
    requires Shaped(s) && Contiguous(s, tab, arrived) && of != tab
    ensures Contiguous(OnStart(s, of), tab, arrived)
  {
    StartWaiting(s, of, tab);
    StartWaiting(s, of, of);
    var lane := Lane(s, of);
    if Holder(s, of).None? && lane != [] {
      ConversationsAppend(s.typed, Typed(of, lane[0], Question(s.operations[lane[0]].question)), tab);
    }
  }

  lemma {:induction false} ArriveContiguous(s: State, request: string, target: Option<nat>, text: string, tab: nat,
                                            arrived: seq<string>)
    requires Shaped(s) && request !in s.operations && Contiguous(s, tab, arrived)
    ensures Contiguous(OnArrive(s, request, target, text), tab, arrived + if target == Some(tab) then [request] else [])
  {
    ArriveWaiting(s, request, target, text, tab);
    Associative(Conversations(s.typed, tab), Waiting(s, tab), if target == Some(tab) then [request] else []);
  }

  lemma {:induction false} ResultContiguous(s: State, wireId: nat, outcome: Outcome, tab: nat, arrived: seq<string>)
    requires Shaped(s) && Contiguous(s, tab, arrived)
    ensures Contiguous(OnResult(s, wireId, outcome), tab, arrived)
  {
    OwnerExpects(s.registered, s.operations, wireId);
    var owner := OwnerAmong(s.registered, s.operations, wireId);
    if owner.Some? {
      FinishContiguous(s, owner.value, Recorded(s.operations[owner.value], wireId, outcome), tab, arrived);
    }
  }

  lemma {:induction false} DeliveredContiguous(s: State, request: string, failure: Option<string>, tab: nat, arrived: seq<string>)
    requires Shaped(s) && Contiguous(s, tab, arrived)
    ensures Contiguous(OnDelivered(s, request, failure), tab, arrived)
  {
    if InTurn(s, request, Delivering) && failure.Some? {
      EndTurnContiguous(Say(s, Failure(request, failure.value)), request, s.operations[request], tab, arrived);
    }
  }

  lemma {:induction false} DeadlineContiguous(s: State, request: string, tab: nat, arrived: seq<string>)
    requires Shaped(s) && SteadyOn(s, tab) && Contiguous(s, tab, arrived)
    ensures Contiguous(OnDeadline(s, request), tab, arrived)
  {
    if request in s.operations && s.operations[request].batch.Some? {
      var op := s.operations[request];
      if op.tab == tab {
        assert Steady(s, request);
        FinishContiguous(s, request, op, tab, arrived);
      } else {
        ConversationsAppend(s.typed, Typed(op.tab, request, Results(ResultBlocks(op.batch.value.order, op.batch.value.results))), tab);
      }
    }
  }

  lemma {:induction false} OtherContiguous(s: State, e: Event, tab: nat, arrived: seq<string>)
    requires Shaped(s) && SteadyOn(s, tab) && !e.Arrive?
    requires Contiguous(s, tab, arrived) && Distinct(arrived)
    ensures Contiguous(Step(s, e), tab, arrived)
  {
    match e
    case Start(of) =>
      if of == tab {
        StartContiguous(s, tab, arrived);
      } else {
        StartElsewhere(s, of, tab, arrived);
      }
    case Delivered(request, failure) => DeliveredContiguous(s, request, failure, tab, arrived);
    case Observed(request, reply) => ObservedContiguous(s, request, reply, tab, arrived);
    case Arrived(wireId, outcome) => ResultContiguous(s, wireId, outcome, tab, arrived);
    case Deadline(request) => DeadlineContiguous(s, request, tab, arrived);
    case Ceiling(request) => CeilingContiguous(s, request, tab, arrived);
    case Progress(_, request, observation, text) =>
  }

  lemma {:induction false} CeilingContiguous(s: State, request: string, tab: nat, arrived: seq<string>)
    requires Shaped(s) && Contiguous(s, tab, arrived)
    ensures Contiguous(OnCeiling(s, request), tab, arrived)
  {
    if request in s.operations {
      SettleContiguous(Say(s, Failure(request, NEVER_FINISHED)), request, s.operations[request], tab, arrived);
    }
  }

  lemma {:induction false} ArrivalsDistinct(events: seq<Event>, tab: nat)
    requires Fresh(events)
    ensures Distinct(ArrivedOn(events, tab))
    ensures forall r :: r in ArrivedOn(events, tab) ==> Seen(events, r)
  {
    if events != [] {
      var before, last := events[..|events| - 1], events[|events| - 1];
      ArrivalsDistinct(before, tab);
      if last.Arrive? && last.target == Some(tab) {
        DistinctAppend(ArrivedOn(before, tab), last.request);
      } else {
        assert ArrivedOn(before, tab) + [] == ArrivedOn(before, tab);
      }
    }
  }

  lemma {:induction false} RunContiguous(events: seq<Event>, tab: nat)
    requires Fresh(events) && !GaveUpOn(events, tab)
    ensures Contiguous(Run(events), tab, ArrivedOn(events, tab))
  {
    if events != [] {
      var before, last := events[..|events| - 1], events[|events| - 1];
      RunContiguous(before, tab);
      RunShape(before);
      RunSteadyOn(before, tab);
      ArrivalsDistinct(before, tab);
      if last.Arrive? {
        ArriveContiguous(Run(before), last.request, last.target, last.text, tab, ArrivedOn(before, tab));
      } else {
        OtherContiguous(Run(before), last, tab, ArrivedOn(before, tab));
        assert ArrivedOn(before, tab) + [] == ArrivedOn(before, tab);
      }
    }
  }

  /** As long as no ceiling has given up an operation on a tab, the messages typed into it,
      follow-ups of tool loops included, never interleave: taken in runs, they are the first
      requests that came for the tab, each once and in order, and the last run is that of the
      operation now registered for the tab. */
  lemma {:induction false} NoInterleaving(events: seq<Event>, tab: nat)
    requires Fresh(events) && !GaveUpOn(events, tab)
    ensures Conversations(Run(events).typed, tab) <= ArrivedOn(events, tab)
    ensures Distinct(ArrivedOn(events, tab))
    ensures forall r :: r in Run(events).registered && r in Run(events).operations && Run(events).operations[r].tab == tab ==>
              var c := Conversations(Run(events).typed, tab); c != [] && c[|c| - 1] == r
  {
    RunContiguous(events, tab);
    RunShape(events);
    ArrivalsDistinct(events, tab);
    var s := Run(events);
    forall r | r in s.registered && r in s.operations && s.operations[r].tab == tab
      ensures var c := Conversations(s.typed, tab); c != [] && c[|c| - 1] == r
    {
      assert Fronts(s.operations, s.lanes, r);
    }
  }
}
