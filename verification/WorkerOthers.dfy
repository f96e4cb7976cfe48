/** An event about one operation leaves every other operation alone. */
module WorkerOthers {
  import opened Options
  import opened ChatBlocks
  import opened Worker
  import opened WorkerLanes

  // ---------------------------------------------------------- what is said and typed for a request

  predicate Reply(f: Frame, r: string) {
    !f.Call? && f.request == r
  }

  /** The replies sent for one request, in order: whether each was partial. */
  function Stream(frames: seq<Frame>, r: string): seq<bool> {
    if frames == [] then []
    else
      var last := frames[|frames| - 1];
      Stream(frames[..|frames| - 1], r) + if Reply(last, r) then [last.Partial?] else []
  }

  lemma {:induction false} StreamAppend(frames: seq<Frame>, one: Frame, r: string)
    ensures Stream(frames + [one], r) == Stream(frames, r) + if Reply(one, r) then [one.Partial?] else []
  {
    assert (frames + [one])[..|frames|] == frames;
  }

  lemma {:induction false} StreamCalls(frames: seq<Frame>, calls: seq<Frame>, r: string)
    requires forall f :: f in calls ==> f.Call?
    ensures Stream(frames + calls, r) == Stream(frames, r)
    decreases |calls|
  {
    if calls == [] {
      assert frames + calls == frames;
    } else {
      var init, last := calls[..|calls| - 1], calls[|calls| - 1];
      StreamCalls(frames, init, r);
      assert frames + calls == (frames + init) + [last];
      StreamAppend(frames + init, last, r);
    }
  }

  /** The messages typed for one request, in order. */
  function MessagesFor(typed: seq<Typed>, request: string): seq<Content> {
    if typed == [] then []
    else
      var last := typed[|typed| - 1];
      MessagesFor(typed[..|typed| - 1], request) + if last.request == request then [last.content] else []
  }

  lemma {:induction false} MessagesAppend(typed: seq<Typed>, one: Typed, request: string)
    ensures MessagesFor(typed + [one], request)
         == MessagesFor(typed, request) + if one.request == request then [one.content] else []
  {
    assert (typed + [one])[..|typed|] == typed;
  }

  // ---------------------------------------------------------- the others

  /** Which operation an event is about. */
  predicate About(s: State, e: Event, r: string) {
    match e
    case Arrive(q, _, _) => q == r
    case Start(tab) => Lane(s, tab) != [] && Lane(s, tab)[0] == r
    case Delivered(q, _) => q == r
    case Observed(q, _) => q == r
    case Arrived(wireId, _) => OwnerAmong(s.registered, s.operations, wireId) == Some(r)
    case Deadline(q) => q == r
    case Ceiling(q) => q == r
    case Progress(_, q, _, _) => q == r
  }

  predicate InLane(s: State, r: string) {
    r in s.operations && r in Lane(s, s.operations[r].tab)
  }

  predicate SameRecord(s: State, t: State, r: string) {
    && (r in s.operations <==> r in t.operations)
    && (r in s.operations ==> t.operations[r] == s.operations[r])
    && (r in s.registered <==> r in t.registered)
    && (InLane(s, r) <==> InLane(t, r))
  }

  /** Its record and place are the same, nothing is sent or typed for it. */
  predicate LeftAlone(s: State, t: State, r: string) {
    SameRecord(s, t, r) && Stream(t.frames, r) == Stream(s.frames, r) && MessagesFor(t.typed, r) == MessagesFor(s.typed, r)
  }

  lemma {:induction false} SayAlone(s: State, frame: Frame, r: string)
    requires frame.request != r
    ensures LeftAlone(s, Say(s, frame), r)
  {
    StreamAppend(s.frames, frame, r);
  }

  lemma {:induction false} ReleaseAlone(s: State, q: string, tab: nat, r: string)
    requires Shaped(s) && q in s.registered && q in s.operations && s.operations[q].tab == tab && q != r
    ensures LeftAlone(s, Release(s, q, tab), r)
  {
    assert Fronts(s.operations, s.lanes, q);
    RemoveOneSpec(s.registered, q);
    var lane := Lane(s, tab);
    assert forall x :: x in lane <==> x == lane[0] || x in lane[1..];
  }

  lemma {:induction false} SettleAlone(s: State, q: string, op: Operation, r: string)
    requires Shaped(s) && q in s.operations && op.tab == s.operations[q].tab && q != r
    ensures LeftAlone(s, Settle(s, q, op), r)
  {
    PutShape(s, q, op.(settled := true));
    if q in s.registered && !(op.turn.Some? && op.turn.value.first) {
      ReleaseAlone(Put(s, q, op.(settled := true)), q, op.tab, r);
    }
  }

  lemma {:induction false} EndTurnAlone(s: State, q: string, op: Operation, r: string)
    requires Shaped(s) && q in s.operations && op.tab == s.operations[q].tab && q != r
    ensures LeftAlone(s, EndTurn(s, q, op), r)
  {
    SettleAlone(s, q, op.(turn := None), r);
  }

  lemma {:induction false} FinishAlone(s: State, q: string, op: Operation, r: string)
    requires q != r
    ensures LeftAlone(s, FinishBatch(s, q, op), r)
  {
    if op.batch.Some? {
      MessagesAppend(s.typed, Typed(op.tab, q, Results(ResultBlocks(op.batch.value.order, op.batch.value.results))), r);
    }
  }

  lemma {:induction false} OpenAlone(s: State, q: string, op: Operation, calls: seq<ChatBlock>, r: string)
    requires q != r && forall b :: b in calls ==> b.ToolCall?
    ensures LeftAlone(s, OpenBatch(s, q, op, calls), r)
  {
    var frames := CallFrames(q, calls, s.nextId);
    assert forall f :: f in frames ==> f.Call?;
    StreamCalls(s.frames, frames, r);
  }

  lemma {:induction false} DeliverAlone(s: State, q: string, op: Operation, text: string, r: string)
    requires q != r
    ensures LeftAlone(s, DeliverReply(s, q, op, text), r)
  {
    CallsAreCalls(Extract(text).blocks);
    if Accepted(text) != [] {
      OpenAlone(s, q, op, Accepted(text), r);
    } else {
      SayAlone(s, Final(q, if Extract(text).prose != "" then Extract(text).prose else text), r);
    }
  }

  lemma {:induction false} ObservedAlone(s: State, q: string, reply: Option<string>, r: string)
    requires Shaped(s) && q != r
    ensures LeftAlone(s, OnObserved(s, q, reply), r)
  {
    if InTurn(s, q, Observing) {
      var op := s.operations[q];
      match reply
      case None =>
        SayAlone(s, Failure(q, NOT_READ), r);
        EndTurnAlone(Say(s, Failure(q, NOT_READ)), q, op, r);
      case Some(text) =>
        DeliverAlone(s, q, op, text, r);
        DeliverShape(s, q, op, text);
        var told := DeliverReply(s, q, op, text);
        EndTurnAlone(told, q, told.operations[q], r);
    }
  }

  lemma {:induction false} DeliveredAlone(s: State, q: string, failure: Option<string>, r: string)
    requires Shaped(s) && q != r
    ensures LeftAlone(s, OnDelivered(s, q, failure), r)
  {
    if InTurn(s, q, Delivering) && failure.Some? {
      SayAlone(s, Failure(q, failure.value), r);
      EndTurnAlone(Say(s, Failure(q, failure.value)), q, s.operations[q], r);
    }
  }

  lemma {:induction false} CeilingAlone(s: State, q: string, r: string)
    requires Shaped(s) && q != r
    ensures LeftAlone(s, OnCeiling(s, q), r)
  {
    if q in s.registered && q in s.operations && !s.operations[q].settled {
      SayAlone(s, Failure(q, NEVER_FINISHED), r);
      SettleAlone(Say(s, Failure(q, NEVER_FINISHED)), q, s.operations[q], r);
    }
  }

  lemma {:induction false} ResultAlone(s: State, wireId: nat, outcome: Outcome, r: string)
    requires OwnerAmong(s.registered, s.operations, wireId) != Some(r)
    ensures LeftAlone(s, OnResult(s, wireId, outcome), r)
  {
    OwnerExpects(s.registered, s.operations, wireId);
    var owner := OwnerAmong(s.registered, s.operations, wireId);
    if owner.Some? {
      FinishAlone(s, owner.value, Recorded(s.operations[owner.value], wireId, outcome), r);
    }
  }

  lemma {:induction false} StartAlone(s: State, tab: nat, r: string)
    requires Lane(s, tab) != [] ==> Lane(s, tab)[0] != r
    ensures LeftAlone(s, OnStart(s, tab), r)
  {
    if Lane(s, tab) != [] && Lane(s, tab)[0] !in s.registered && Lane(s, tab)[0] in s.operations {
      var q := Lane(s, tab)[0];
      MessagesAppend(s.typed, Typed(s.operations[q].tab, q, Question(s.operations[q].question)), r);
    }
  }

  lemma {:induction false} ArriveAlone(s: State, q: string, target: Option<nat>, text: string, r: string)
    requires q != r
    ensures LeftAlone(s, OnArrive(s, q, target, text), r)
  {
    if target.None? {
      SayAlone(s, Failure(q, text), r);
    }
  }

  lemma {:induction false} OthersAreLeftAlone(s: State, e: Event, r: string)
    requires Shaped(s) && !About(s, e, r)
    ensures LeftAlone(s, Step(s, e), r)
  {
    match e
    case Arrive(q, target, text) => ArriveAlone(s, q, target, text, r);
    case Start(tab) => StartAlone(s, tab, r);
    case Delivered(q, failure) => DeliveredAlone(s, q, failure, r);
    case Observed(q, reply) => ObservedAlone(s, q, reply, r);
    case Arrived(wireId, outcome) => ResultAlone(s, wireId, outcome, r);
    case Deadline(q) =>
      if q in s.operations {
        FinishAlone(s, q, s.operations[q], r);
      }
    case Ceiling(q) => CeilingAlone(s, q, r);
    case Progress(_, q, _, text) => SayAlone(s, Partial(q, text), r);
  }
}
