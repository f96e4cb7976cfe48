/** Who holds a tab, and in what order: over any sequence of events. */
module WorkerLanes {
  import opened Options
  import opened Worker
  import opened Sequences

  function Run(events: seq<Event>): State {
    if events == [] then EMPTY else Step(Run(events[..|events| - 1]), events[|events| - 1])
  }

  predicate Seen(events: seq<Event>, request: string) {
    events != []
    && ((events[|events| - 1].Arrive? && events[|events| - 1].request == request) || Seen(events[..|events| - 1], request))
  }

  /** Request ids are not used twice. */
  predicate Fresh(events: seq<Event>) {
    events == []
    || (Fresh(events[..|events| - 1])
        && (events[|events| - 1].Arrive? ==> !Seen(events[..|events| - 1], events[|events| - 1].request)))
  }

  /** The requests that were given this tab, in the order they came. */
  function ArrivedOn(events: seq<Event>, tab: nat): seq<string> {
    if events == [] then []
    else
      var last := events[|events| - 1];
      ArrivedOn(events[..|events| - 1], tab) + if last.Arrive? && last.target == Some(tab) then [last.request] else []
  }

  lemma {:induction false} RunMore(events: seq<Event>, e: Event)
    ensures Run(events + [e]) == Step(Run(events), e)
    ensures Fresh(events + [e]) <==> Fresh(events) && (e.Arrive? ==> !Seen(events, e.request))
  {
    assert (events + [e])[..|events|] == events;
  }

  // ---------------------------------------------------------- the shape of the table

  type Operations = map<string, Operation>
  type Lanes = map<nat, seq<string>>

  predicate Distinct(list: seq<string>) {
    list == [] || (list[0] !in list[1..] && Distinct(list[1..]))
  }

  /** A registered operation is at the front of its tab's lane. */
  predicate Fronts(operations: Operations, lanes: Lanes, request: string) {
    request in operations
    && LaneIn(lanes, operations[request].tab) != [] && LaneIn(lanes, operations[request].tab)[0] == request
  }

  ghost predicate AllFront(operations: Operations, registered: seq<string>, lanes: Lanes) {
    forall r :: r in registered ==> Fronts(operations, lanes, r)
  }

  predicate Waits(operations: Operations, request: string, tab: nat) {
    request in operations && operations[request].tab == tab
  }

  ghost predicate AllWait(operations: Operations, lanes: Lanes) {
    forall tab, r :: r in LaneIn(lanes, tab) ==> Waits(operations, r, tab)
  }

  ghost predicate LanesDistinct(lanes: Lanes) {
    forall tab :: Distinct(LaneIn(lanes, tab))
  }

  ghost predicate Shape(operations: Operations, registered: seq<string>, lanes: Lanes) {
    AllFront(operations, registered, lanes) && AllWait(operations, lanes) && LanesDistinct(lanes) && Distinct(registered)
  }

  ghost predicate Shaped(s: State) {
    Shape(s.operations, s.registered, s.lanes)
  }

  lemma {:induction false} DistinctAppend(list: seq<string>, one: string)
    requires Distinct(list) && one !in list
    ensures Distinct(list + [one])
  {
    if list == [] {
      assert [one][1..] == [];
    } else {
      DistinctAppend(list[1..], one);
      assert (list + [one])[1..] == list[1..] + [one];
    }
  }

  lemma {:induction false} RemoveOneSpec(list: seq<string>, one: string)
    requires Distinct(list)
    ensures forall r :: r in RemoveOne(list, one) <==> r in list && r != one
    ensures Distinct(RemoveOne(list, one))
  {
    if list != [] {
      if list[0] != one {
        RemoveOneSpec(list[1..], one);
        DropFirst(list[0], RemoveOne(list[1..], one));
      }
    }
  }

  lemma {:induction false} PutShape(s: State, request: string, op: Operation)
    requires Shaped(s) && request in s.operations && op.tab == s.operations[request].tab
    ensures Shaped(Put(s, request, op))
  {
    var after := s.operations[request := op];
    forall r | r in s.registered ensures Fronts(after, s.lanes, r) {
      assert Fronts(s.operations, s.lanes, r);
    }
    forall tab, r | r in LaneIn(s.lanes, tab) ensures Waits(after, r, tab) {
      assert Waits(s.operations, r, tab);
    }
  }

  lemma {:induction false} ReleaseShape(s: State, request: string, tab: nat)
    requires Shaped(s) && request in s.registered && s.operations[request].tab == tab
    ensures Shaped(Release(s, request, tab))
  {
    assert Fronts(s.operations, s.lanes, request);
    var after := Release(s, request, tab);
    RemoveOneSpec(s.registered, request);
    forall t ensures Distinct(LaneIn(after.lanes, t)) {
      assert Distinct(LaneIn(s.lanes, t));
    }
    forall r | r in after.registered ensures Fronts(s.operations, after.lanes, r) {
      assert Fronts(s.operations, s.lanes, r);
    }
    forall t, r | r in LaneIn(after.lanes, t) ensures Waits(s.operations, r, t) {
      assert r in LaneIn(s.lanes, t);
      assert Waits(s.operations, r, t);
    }
  }

  lemma {:induction false} SettleShape(s: State, request: string, op: Operation)
    requires Shaped(s) && request in s.operations && op.tab == s.operations[request].tab
    ensures Shaped(Settle(s, request, op))
  {
    PutShape(s, request, op.(settled := true));
    var after := Put(s, request, op.(settled := true));
    if request in s.registered && !(op.turn.Some? && op.turn.value.first) {
      ReleaseShape(after, request, op.tab);
    }
  }

  lemma {:induction false} EndTurnShape(s: State, request: string, op: Operation)
    requires Shaped(s) && request in s.operations && op.tab == s.operations[request].tab
    ensures Shaped(EndTurn(s, request, op))
  {
    PutShape(s, request, op.(turn := None));
    SettleShape(s, request, op.(turn := None));
  }

  lemma {:induction false} FinishShape(s: State, request: string, op: Operation)
    requires Shaped(s) && request in s.operations && op.tab == s.operations[request].tab
    ensures Shaped(FinishBatch(s, request, op))
  {
    if op.batch.Some? {
      PutShape(s, request, op.(batch := None, observation := s.nextId, turn := Some(Turn(false, Delivering))));
    }
  }

  lemma {:induction false} ArriveShape(s: State, request: string, target: Option<nat>, text: string)
    requires Shaped(s) && request !in s.operations
    ensures Shaped(OnArrive(s, request, target, text))
  {
    if target.Some? {
      var tab, after := target.value, OnArrive(s, request, target, text);
      assert request !in Lane(s, tab) by {
        assert request in LaneIn(s.lanes, tab) ==> Waits(s.operations, request, tab);
      }
      DistinctAppend(Lane(s, tab), request);
      forall t ensures Distinct(LaneIn(after.lanes, t)) {
        assert Distinct(LaneIn(s.lanes, t));
      }
      forall r | r in after.registered ensures Fronts(after.operations, after.lanes, r) {
        assert Fronts(s.operations, s.lanes, r);
      }
      forall t, r | r in LaneIn(after.lanes, t) ensures Waits(after.operations, r, t) {
        if r != request || t != tab {
          assert r in LaneIn(s.lanes, t);
          assert Waits(s.operations, r, t);
        }
      }
    }
  }

  lemma {:induction false} StartShape(s: State, tab: nat)
    requires Shaped(s)
    ensures Shaped(OnStart(s, tab))
  {
    if Lane(s, tab) != [] && Lane(s, tab)[0] !in s.registered && Lane(s, tab)[0] in s.operations {
      var request := Lane(s, tab)[0];
      assert Waits(s.operations, request, tab);
      var after := Put(s, request, s.operations[request].(turn := Some(Turn(true, Delivering))));
      PutShape(s, request, s.operations[request].(turn := Some(Turn(true, Delivering))));
      DistinctAppend(s.registered, request);
      forall r | r in s.registered + [request] ensures Fronts(after.operations, after.lanes, r) {
        if r != request {
          assert r in s.registered;
        }
      }
    }
  }

  lemma {:induction false} ObservedShape(s: State, request: string, reply: Option<string>)
    requires Shaped(s)
    ensures Shaped(OnObserved(s, request, reply))
  {
    if InTurn(s, request, Observing) {
      var op := s.operations[request];
      match reply
      case None => EndTurnShape(Say(s, Failure(request, NOT_READ)), request, op);
      case Some(text) =>
        var told := DeliverReply(s, request, op, text);
        DeliverShape(s, request, op, text);
        EndTurnShape(told, request, told.operations[request]);
    }
  }

  lemma {:induction false} DeliverShape(s: State, request: string, op: Operation, text: string)
    requires Shaped(s) && request in s.operations && op == s.operations[request]
    ensures Shaped(DeliverReply(s, request, op, text))
    ensures request in DeliverReply(s, request, op, text).operations
  {
    var calls := Accepted(text);
    if calls != [] {
      var order := Numbered(calls, s.nextId);
      PutShape(s, request, op.(batch := Some(Batch(WireIds(order), map[], order))));
    }
  }

  lemma {:induction false} ResultShape(s: State, wireId: nat, outcome: Outcome)
    requires Shaped(s)
    ensures Shaped(OnResult(s, wireId, outcome))
  {
    OwnerExpects(s.registered, s.operations, wireId);
    var owner := OwnerAmong(s.registered, s.operations, wireId);
    if owner.Some? {
      var op := Recorded(s.operations[owner.value], wireId, outcome);
      PutShape(s, owner.value, op);
      FinishShape(s, owner.value, op);
    }
  }

  lemma {:induction false} StepShape(s: State, e: Event)
    requires Shaped(s) && (e.Arrive? ==> e.request !in s.operations)
    ensures Shaped(Step(s, e))
  {
    match e
    case Arrive(request, target, text) => ArriveShape(s, request, target, text);
    case Start(tab) => StartShape(s, tab);
    case Delivered(request, failure) =>
      if InTurn(s, request, Delivering) {
        var op := s.operations[request];
        match failure
        case Some(reason) => EndTurnShape(Say(s, Failure(request, reason)), request, op);
        case None => PutShape(s, request, op.(turn := Some(op.turn.value.(stage := Observing))));
      }
    case Observed(request, reply) => ObservedShape(s, request, reply);
    case Arrived(wireId, outcome) => ResultShape(s, wireId, outcome);
    case Deadline(request) =>
      if request in s.operations {
        FinishShape(s, request, s.operations[request]);
      }
    case Ceiling(request) =>
      if request in s.operations {
        SettleShape(Say(s, Failure(request, NEVER_FINISHED)), request, s.operations[request]);
      }
    case Progress(tab, request, observation, text) =>
  }

  lemma {:induction false} ObservedKeys(s: State, request: string, reply: Option<string>)
    ensures OnObserved(s, request, reply).operations.Keys == s.operations.Keys
  {
    if InTurn(s, request, Observing) {
      var op := s.operations[request];
      match reply
      case None =>
      case Some(text) =>
        var told := DeliverReply(s, request, op, text);
        assert told.operations.Keys == s.operations.Keys;
    }
  }

  lemma {:induction false} ResultKeys(s: State, wireId: nat, outcome: Outcome)
    ensures OnResult(s, wireId, outcome).operations.Keys == s.operations.Keys
  {
    OwnerExpects(s.registered, s.operations, wireId);
  }

  lemma {:induction false} StepKeys(s: State, e: Event)
    ensures !e.Arrive? ==> Step(s, e).operations.Keys == s.operations.Keys
    ensures e.Arrive? ==> Step(s, e).operations.Keys <= s.operations.Keys + {e.request}
  {
    match e
    case Arrive(request, target, text) =>
    case Start(tab) =>
    case Delivered(request, failure) =>
    case Observed(request, reply) => ObservedKeys(s, request, reply);
    case Arrived(wireId, outcome) => ResultKeys(s, wireId, outcome);
    case Deadline(request) =>
    case Ceiling(request) =>
    case Progress(tab, request, observation, text) =>
  }

  lemma {:induction false} RunShape(events: seq<Event>)
    requires Fresh(events)
    ensures Shaped(Run(events))
    ensures forall r :: r in Run(events).operations ==> Seen(events, r)
  {
    if events != [] {
      var before, last := events[..|events| - 1], events[|events| - 1];
      RunShape(before);
      StepShape(Run(before), last);
      StepKeys(Run(before), last);
    }
  }

  /** At most one registered operation targets a tab, whatever has happened. */
  lemma {:induction false} OneHolderPerTab(events: seq<Event>, r: string, q: string)
    requires Fresh(events)
    requires r in Run(events).registered && q in Run(events).registered
    requires r in Run(events).operations && q in Run(events).operations
    requires Run(events).operations[r].tab == Run(events).operations[q].tab
    ensures r == q
  {
    RunShape(events);
    var s := Run(events);
    assert Fronts(s.operations, s.lanes, r) && Fronts(s.operations, s.lanes, q);
  }

  // ---------------------------------------------------------- first come, first typed

  /** Whose work the tab is doing. */
  function Holder(s: State, tab: nat): Option<string> {
    if Lane(s, tab) != [] && Lane(s, tab)[0] in s.registered then Some(Lane(s, tab)[0]) else None
  }

  /** The work on a tab that has not begun. */
  function Waiting(s: State, tab: nat): seq<string> {
    if Holder(s, tab).Some? then Lane(s, tab)[1..] else Lane(s, tab)
  }

  /** Whose questions were typed into a tab, in order. */
  function Questions(typed: seq<Typed>, tab: nat): seq<string> {
    if typed == [] then []
    else
      var last := typed[|typed| - 1];
      Questions(typed[..|typed| - 1], tab) + if last.tab == tab && last.content.Question? then [last.request] else []
  }

  lemma {:induction false} QuestionsAppend(typed: seq<Typed>, one: Typed, tab: nat)
    ensures Questions(typed + [one], tab)
         == Questions(typed, tab) + if one.tab == tab && one.content.Question? then [one.request] else []
  {
    assert (typed + [one])[..|typed|] == typed;
  }

  /** Nothing begins or joins the queue of this tab. */
  predicate SameQueue(s: State, t: State, tab: nat) {
    Waiting(s, tab) == Waiting(t, tab) && Questions(s.typed, tab) == Questions(t.typed, tab)
  }

  lemma {:induction false} SecondIsNotRegistered(s: State, tab: nat)
    requires Shaped(s) && |Lane(s, tab)| > 1
    ensures Lane(s, tab)[1] !in s.registered
  {
    var second := Lane(s, tab)[1];
    assert second in LaneIn(s.lanes, tab) && Waits(s.operations, second, tab);
    assert Distinct(LaneIn(s.lanes, tab));
    assert second in s.registered ==> Fronts(s.operations, s.lanes, second);
    assert second in Lane(s, tab)[1..];
  }

  lemma {:induction false} ReleaseWaiting(s: State, request: string, of: nat, tab: nat)
    requires Shaped(s) && request in s.registered && request in s.operations && s.operations[request].tab == of
    ensures SameQueue(s, Release(s, request, of), tab)
    ensures Holder(Release(s, request, of), tab) == if of == tab then None else Holder(s, tab)
  {
    assert Fronts(s.operations, s.lanes, request);
    RemoveOneSpec(s.registered, request);
    assert Distinct(LaneIn(s.lanes, tab));
    if tab == of {
      if |Lane(s, tab)| > 1 {
        SecondIsNotRegistered(s, tab);
      }
    } else if Lane(s, tab) != [] {
      assert Lane(s, tab)[0] in LaneIn(s.lanes, tab) && Waits(s.operations, Lane(s, tab)[0], tab);
    }
  }

  lemma {:induction false} SettleWaiting(s: State, request: string, op: Operation, tab: nat)
    requires Shaped(s) && request in s.operations && op.tab == s.operations[request].tab
    ensures SameQueue(s, Settle(s, request, op), tab)
  {
    PutShape(s, request, op.(settled := true));
    var after := Put(s, request, op.(settled := true));
    if request in s.registered && !(op.turn.Some? && op.turn.value.first) {
      ReleaseWaiting(after, request, op.tab, tab);
    }
  }

  lemma {:induction false} EndTurnWaiting(s: State, request: string, op: Operation, tab: nat)
    requires Shaped(s) && request in s.operations && op.tab == s.operations[request].tab
    ensures SameQueue(s, EndTurn(s, request, op), tab)
  {
    SettleWaiting(s, request, op.(turn := None), tab);
  }

  lemma {:induction false} FinishWaiting(s: State, request: string, op: Operation, tab: nat)
    ensures SameQueue(s, FinishBatch(s, request, op), tab)
  {
    if op.batch.Some? {
      QuestionsAppend(s.typed, Typed(op.tab, request, Results(ResultBlocks(op.batch.value.order, op.batch.value.results))), tab);
    }
  }

  lemma {:induction false} ObservedWaiting(s: State, request: string, reply: Option<string>, tab: nat)
    requires Shaped(s)
    ensures SameQueue(s, OnObserved(s, request, reply), tab)
  {
    if InTurn(s, request, Observing) {
      var op := s.operations[request];
      match reply
      case None => EndTurnWaiting(Say(s, Failure(request, NOT_READ)), request, op, tab);
      case Some(text) =>
        var told := DeliverReply(s, request, op, text);
        DeliverShape(s, request, op, text);
        assert SameQueue(s, told, tab);
        EndTurnWaiting(told, request, told.operations[request], tab);
    }
  }

  lemma {:induction false} OtherWaiting(s: State, e: Event, tab: nat)
    requires Shaped(s) && !e.Arrive? && !e.Start?
    ensures SameQueue(s, Step(s, e), tab)
  {
    match e
    case Delivered(request, failure) =>
      if InTurn(s, request, Delivering) && failure.Some? {
        EndTurnWaiting(Say(s, Failure(request, failure.value)), request, s.operations[request], tab);
      }
    case Observed(request, reply) =>
      ObservedWaiting(s, request, reply, tab);
    case Arrived(wireId, outcome) =>
      OwnerExpects(s.registered, s.operations, wireId);
      var owner := OwnerAmong(s.registered, s.operations, wireId);
      if owner.Some? {
        FinishWaiting(s, owner.value, Recorded(s.operations[owner.value], wireId, outcome), tab);
      }
    case Deadline(request) =>
      if request in s.operations {
        FinishWaiting(s, request, s.operations[request], tab);
      }
    case Ceiling(request) =>
      if request in s.operations {
        SettleWaiting(Say(s, Failure(request, NEVER_FINISHED)), request, s.operations[request], tab);
      }
    case Progress(_, request, observation, text) =>
  }

  lemma {:induction false} ArriveWaiting(s: State, request: string, target: Option<nat>, text: string, tab: nat)
    requires Shaped(s) && request !in s.operations
    ensures Questions(OnArrive(s, request, target, text).typed, tab) == Questions(s.typed, tab)
    ensures Holder(OnArrive(s, request, target, text), tab) == Holder(s, tab)
    ensures Waiting(OnArrive(s, request, target, text), tab)
         == Waiting(s, tab) + if target == Some(tab) then [request] else []
  {
    if target == Some(tab) {
      if Lane(s, tab) == [] {
        assert request in s.registered ==> Fronts(s.operations, s.lanes, request);
      } else {
        assert (Lane(s, tab) + [request])[1..] == Lane(s, tab)[1..] + [request];
      }
    }
  }

  lemma {:induction false} StartWaiting(s: State, of: nat, tab: nat)
    requires Shaped(s)
    ensures var t := OnStart(s, of);
      if of == tab && Holder(s, tab).None? && Lane(s, tab) != [] then
        Holder(t, tab) == Some(Lane(s, tab)[0]) && Lane(t, tab) == Lane(s, tab)
        && t.typed == s.typed + [Typed(tab, Lane(s, tab)[0], Question(s.operations[Lane(s, tab)[0]].question))]
      else SameQueue(s, t, tab) && Holder(t, tab) == Holder(s, tab)
  {
    var lane := Lane(s, of);
    if lane != [] && lane[0] !in s.registered {
      assert lane[0] in LaneIn(s.lanes, of) && Waits(s.operations, lane[0], of);
      QuestionsAppend(s.typed, Typed(of, lane[0], Question(s.operations[lane[0]].question)), tab);
      if of != tab && Lane(s, tab) != [] {
        assert Lane(s, tab)[0] in LaneIn(s.lanes, tab) && Waits(s.operations, Lane(s, tab)[0], tab);
      }
    }
  }

  lemma {:induction false} OneMoved(done: seq<string>, lane: seq<string>)
    requires lane != []
    ensures (done + [lane[0]]) + lane[1..] == done + lane
  {
  }

  lemma {:induction false} StepInOrder(s: State, e: Event, tab: nat, arrived: seq<string>)
    requires Shaped(s) && (e.Arrive? ==> e.request !in s.operations)
    requires Questions(s.typed, tab) + Waiting(s, tab) == arrived
    ensures Questions(Step(s, e).typed, tab) + Waiting(Step(s, e), tab)
         == arrived + if e.Arrive? && e.target == Some(tab) then [e.request] else []
  {
    match e
    case Arrive(request, target, text) =>
      ArriveWaiting(s, request, target, text, tab);
      Associative(Questions(s.typed, tab), Waiting(s, tab), if target == Some(tab) then [request] else []);
    case Start(of) =>
      StartWaiting(s, of, tab);
      var lane := Lane(s, tab);
      if of == tab && Holder(s, tab).None? && lane != [] {
        QuestionsAppend(s.typed, Typed(tab, lane[0], Question(s.operations[lane[0]].question)), tab);
        OneMoved(Questions(s.typed, tab), lane);
      }
      assert arrived + [] == arrived;
    case _ =>
      OtherWaiting(s, e, tab);
      assert arrived + [] == arrived;
  }

  /** Whatever happens, ceilings included, questions are typed into a tab in the order their
      requests came, none skipped and none twice; the rest are waiting, in that order too. */
  lemma {:induction false} StartsInOrder(events: seq<Event>, tab: nat)
    requires Fresh(events)
    ensures Questions(Run(events).typed, tab) + Waiting(Run(events), tab) == ArrivedOn(events, tab)
  {
    if events != [] {
      var before, last := events[..|events| - 1], events[|events| - 1];
      StartsInOrder(before, tab);
      RunShape(before);
      StepInOrder(Run(before), last, tab, ArrivedOn(before, tab));
    }
  }
}
