/** What the relay is told about each request. */
module WorkerReplies {
  import opened Options
  import opened ChatBlocks
  import opened Worker
  import opened WorkerLanes
  import opened WorkerOthers
  import opened WorkerTurns
  import opened ReplyStreams

  /** Not asked: nothing. Refused: one failure. Otherwise partials, and a terminal reply once
      the operation is settled; nothing before it begins. */
  predicate Thread(s: State, seen: bool, r: string) {
    var flags := Stream(s.frames, r);
    if r !in s.operations then flags == if seen then [false] else []
    else
      && Orderly(flags)
      && (Over(flags) <==> s.operations[r].settled)
      && (r !in s.registered && !s.operations[r].settled ==> flags == [])
  }

  lemma {:induction false} TerminalThread(s: State, r: string, frame: Frame, seen: bool)
    requires Shaped(s) && Steady(s, r) && r in s.registered && r in s.operations && s.operations[r].batch.None?
    requires Reply(frame, r) && !frame.Partial? && Thread(s, seen, r)
    ensures Thread(EndTurn(Say(s, frame), r, s.operations[r]), seen, r)
  {
    RemoveOneSpec(s.registered, r);
    StreamAppend(s.frames, frame, r);
    NotOver(Stream(s.frames, r));
    LastFlag(Stream(s.frames, r), false);
  }

  lemma {:induction false} CallsThread(s: State, r: string, calls: seq<ChatBlock>, seen: bool)
    requires Steady(s, r) && r in s.registered && r in s.operations && Thread(s, seen, r)
    requires forall b :: b in calls ==> b.ToolCall?
    ensures var told := OpenBatch(s, r, s.operations[r], calls);
      r in told.operations && Thread(EndTurn(told, r, told.operations[r]), seen, r)
  {
    var frames := CallFrames(r, calls, s.nextId);
    assert forall f :: f in frames ==> f.Call?;
    StreamCalls(s.frames, frames, r);
  }

  lemma {:induction false} ObservedThread(s: State, r: string, reply: Option<string>, seen: bool)
    requires Shaped(s) && Steady(s, r) && Thread(s, seen, r)
    ensures Thread(OnObserved(s, r, reply), seen, r)
  {
    if InTurn(s, r, Observing) {
      match reply
      case None => TerminalThread(s, r, Failure(r, NOT_READ), seen);
      case Some(text) =>
        if Accepted(text) != [] {
          CallsAreCalls(Extract(text).blocks);
          CallsThread(s, r, Accepted(text), seen);
        } else {
          TerminalThread(s, r, Final(r, if Extract(text).prose != "" then Extract(text).prose else text), seen);
        }
    }
  }

  lemma {:induction false} DeliveredThread(s: State, r: string, failure: Option<string>, seen: bool)
    requires Shaped(s) && Steady(s, r) && Thread(s, seen, r)
    ensures Thread(OnDelivered(s, r, failure), seen, r)
  {
    if InTurn(s, r, Delivering) && failure.Some? {
      TerminalThread(s, r, Failure(r, failure.value), seen);
    }
  }

  lemma {:induction false} ArriveThread(s: State, r: string, target: Option<nat>, text: string)
    requires Shaped(s) && r !in s.operations && Thread(s, false, r)
    ensures Thread(OnArrive(s, r, target, text), true, r)
  {
    if target.None? {
      StreamAppend(s.frames, Failure(r, text), r);
    }
  }

  lemma {:induction false} ProgressThread(s: State, tab: nat, r: string, observation: nat, text: string, seen: bool)
    requires Steady(s, r) && Thread(s, seen, r)
    ensures Thread(OnProgress(s, tab, r, observation, text), seen, r)
  {
    StreamAppend(s.frames, Partial(r, text), r);
    if r in s.operations && r in s.registered {
      NotOver(Stream(s.frames, r));
      LastFlag(Stream(s.frames, r), true);
    }
  }

  lemma {:induction false} ResultThread(s: State, wireId: nat, outcome: Outcome, seen: bool, r: string)
    requires Thread(s, seen, r)
    ensures Thread(OnResult(s, wireId, outcome), seen, r)
  {
    OwnerExpects(s.registered, s.operations, wireId);
  }

  lemma {:induction false} StepThread(s: State, e: Event, seen: bool, r: string)
    requires Shaped(s) && Steady(s, r) && !GivesUp(s, e, r) && Thread(s, seen, r)
    requires e.Arrive? ==> e.request !in s.operations && (e.request == r ==> !seen)
    ensures Thread(Step(s, e), seen || (e.Arrive? && e.request == r), r)
  {
    if !About(s, e, r) {
      OthersAreLeftAlone(s, e, r);
    } else {
      match e
      case Arrive(_, target, text) => ArriveThread(s, r, target, text);
      case Start(_) =>
      case Delivered(_, failure) => DeliveredThread(s, r, failure, seen);
      case Observed(_, reply) => ObservedThread(s, r, reply, seen);
      case Arrived(wireId, outcome) => ResultThread(s, wireId, outcome, seen, r);
      case Deadline(_) =>
      case Ceiling(_) =>
      case Progress(tab, _, observation, text) => ProgressThread(s, tab, r, observation, text, seen);
    }
  }

  lemma {:induction false} RunThread(events: seq<Event>, r: string)
    requires Fresh(events) && !GaveUp(events, r)
    ensures Thread(Run(events), Seen(events, r), r)
  {
    if events != [] {
      var before, last := events[..|events| - 1], events[|events| - 1];
      RunThread(before, r);
      RunShape(before);
      RunSteady(before, r);
      StepThread(Run(before), last, Seen(before, r), r);
    }
  }

  /** The request was refused, or its turn on the tab is over. */
  predicate Ended(events: seq<Event>, r: string) {
    var s := Run(events);
    Seen(events, r)
    && (r in s.operations ==> r !in s.registered && r !in Lane(s, s.operations[r].tab))
  }

  /** As long as no ceiling has given it up, a request is answered by some partials and then,
      exactly when it has ended, one terminal reply and nothing more. */
  lemma {:induction false} EachRequestEndsOnce(events: seq<Event>, r: string)
    requires Fresh(events) && !GaveUp(events, r)
    ensures Orderly(Stream(Run(events).frames, r))
    ensures Over(Stream(Run(events).frames, r)) <==> Ended(events, r)
  {
    RunThread(events, r);
    RunSteady(events, r);
    RunShape(events);
  }

  // ---------------------------------------------------------- partials

  predicate EndsInPartial(frames: seq<Frame>) {
    frames != [] && frames[|frames| - 1].Partial?
  }

  lemma {:induction false} EndTurnFrames(s: State, request: string, op: Operation)
    ensures EndTurn(s, request, op).frames == s.frames
  {
  }

  lemma {:induction false} OpenSendsNoPartial(s: State, request: string, op: Operation, calls: seq<ChatBlock>)
    requires calls != [] && forall b :: b in calls ==> b.ToolCall?
    ensures !EndsInPartial(OpenBatch(s, request, op, calls).frames)
  {
    var frames := CallFrames(request, calls, s.nextId);
    assert frames[|frames| - 1].Call?;
  }

  lemma {:induction false} DeliverSendsNoPartial(s: State, request: string, op: Operation, text: string)
    ensures !EndsInPartial(DeliverReply(s, request, op, text).frames)
  {
    CallsAreCalls(Extract(text).blocks);
    if Accepted(text) != [] {
      OpenSendsNoPartial(s, request, op, Accepted(text));
    }
  }

  lemma {:induction false} ObservedSendsNoPartial(s: State, request: string, reply: Option<string>)
    ensures OnObserved(s, request, reply).frames == s.frames || !EndsInPartial(OnObserved(s, request, reply).frames)
  {
    if InTurn(s, request, Observing) {
      var op := s.operations[request];
      match reply
      case None => EndTurnFrames(Say(s, Failure(request, NOT_READ)), request, op);
      case Some(text) =>
        var told := DeliverReply(s, request, op, text);
        DeliverShapeKept(s, request, op, text);
        EndTurnFrames(told, request, told.operations[request]);
        DeliverSendsNoPartial(s, request, op, text);
    }
  }

  lemma {:induction false} DeliverShapeKept(s: State, request: string, op: Operation, text: string)
    requires request in s.operations
    ensures request in DeliverReply(s, request, op, text).operations
  {
  }

  /** A partial is only ever sent for a progress frame from the tab of the request it names,
      under that request's current observation, while the request holds the tab. */
  lemma {:induction false} PartialsAreCurrent(s: State, e: Event, r: string, text: string)
    requires Step(s, e).frames == s.frames + [Partial(r, text)]
    ensures r in s.registered && r in s.operations
    ensures e == Progress(s.operations[r].tab, r, s.operations[r].observation, text)
  {
    var after := s.frames + [Partial(r, text)];
    assert EndsInPartial(after) && after != s.frames;
    if e.Observed? {
      ObservedSendsNoPartial(s, e.request, e.reply);
    }
    assert e.Progress? && Step(s, e).frames != s.frames ==> Step(s, e).frames[|s.frames|] == Partial(e.request, e.text);
    assert after[|s.frames|] == Partial(r, text);
  }

  /** Observations are handed out in order, and an operation never goes back to one. */
  lemma {:induction false} ObservationsAdvance(s: State, e: Event, r: string)
    requires r in s.operations && s.operations[r].observation < s.nextId && (e.Arrive? ==> e.request != r)
    ensures r in Step(s, e).operations
    ensures s.operations[r].observation <= Step(s, e).operations[r].observation < Step(s, e).nextId
    ensures Step(s, e).operations[r].tab == s.operations[r].tab
  {
    match e
    case Observed(request, reply) => ObservedKeeps(s, request, reply, r);
    case Arrived(wireId, outcome) => ResultAdvances(s, wireId, outcome, r);
    case Delivered(request, failure) => DeliveredKeeps(s, request, failure, r);
    case Deadline(request) =>
      if request in s.operations {
        FinishAdvances(s, request, s.operations[request], r);
      }
    case _ =>
  }

  lemma {:induction false} FinishAdvances(s: State, request: string, op: Operation, r: string)
    requires r in s.operations && request in s.operations && s.operations[r].observation < s.nextId
    requires op.tab == s.operations[request].tab
    ensures var t := FinishBatch(s, request, op);
      r in t.operations && s.operations[r].observation <= t.operations[r].observation < t.nextId
      && t.operations[r].tab == s.operations[r].tab
  {
  }

  lemma {:induction false} ResultAdvances(s: State, wireId: nat, outcome: Outcome, r: string)
    requires r in s.operations && s.operations[r].observation < s.nextId
    ensures var t := OnResult(s, wireId, outcome);
      r in t.operations && s.operations[r].observation <= t.operations[r].observation < t.nextId
      && t.operations[r].tab == s.operations[r].tab
  {
    OwnerExpects(s.registered, s.operations, wireId);
    var owner := OwnerAmong(s.registered, s.operations, wireId);
    if owner.Some? {
      FinishAdvances(s, owner.value, Recorded(s.operations[owner.value], wireId, outcome), r);
    }
  }

  lemma {:induction false} DeliveredKeeps(s: State, request: string, failure: Option<string>, r: string)
    requires r in s.operations
    ensures var t := OnDelivered(s, request, failure);
      r in t.operations && t.operations[r].observation == s.operations[r].observation
      && t.operations[r].tab == s.operations[r].tab && t.nextId == s.nextId
  {
    if InTurn(s, request, Delivering) && failure.Some? {
      EndTurnKeeps(Say(s, Failure(request, failure.value)), request, s.operations[request], r);
    }
  }

  lemma {:induction false} EndTurnKeeps(s: State, request: string, op: Operation, r: string)
    requires r in s.operations && request in s.operations
    requires op.observation == s.operations[request].observation && op.tab == s.operations[request].tab
    ensures var t := EndTurn(s, request, op);
      r in t.operations && t.operations[r].observation == s.operations[r].observation
      && t.operations[r].tab == s.operations[r].tab && t.nextId == s.nextId
  {
  }

  lemma {:induction false} DeliverKeeps(s: State, request: string, op: Operation, text: string, r: string)
    requires r in s.operations && request in s.operations && op == s.operations[request]
    ensures var t := DeliverReply(s, request, op, text);
      r in t.operations && request in t.operations && t.operations[r].observation == s.operations[r].observation
      && t.operations[r].tab == s.operations[r].tab && t.nextId >= s.nextId
  {
  }

  lemma {:induction false} ObservedKeeps(s: State, request: string, reply: Option<string>, r: string)
    requires r in s.operations
    ensures var t := OnObserved(s, request, reply);
      r in t.operations && t.operations[r].observation == s.operations[r].observation
      && t.operations[r].tab == s.operations[r].tab && t.nextId >= s.nextId
  {
    if InTurn(s, request, Observing) {
      var op := s.operations[request];
      match reply
      case None => EndTurnKeeps(Say(s, Failure(request, NOT_READ)), request, op, r);
      case Some(text) =>
        DeliverKeeps(s, request, op, text, r);
        var told := DeliverReply(s, request, op, text);
        EndTurnKeeps(told, request, told.operations[request], r);
    }
  }

  lemma {:induction false} ObservationsAreOld(events: seq<Event>, r: string)
    requires Fresh(events) && r in Run(events).operations
    ensures Run(events).operations[r].observation < Run(events).nextId
  {
    if events != [] {
      var before, last := events[..|events| - 1], events[|events| - 1];
      RunShape(before);
      if r in Run(before).operations {
        ObservationsAreOld(before, r);
        ObservationsAdvance(Run(before), last, r);
      } else {
        StepKeys(Run(before), last);
      }
    }
  }

  lemma {:induction false} ObservationsNeverReturn(events: seq<Event>, more: seq<Event>, r: string)
    requires Fresh(events + more) && r in Run(events).operations
    ensures r in Run(events + more).operations
    ensures Run(events).operations[r].observation <= Run(events + more).operations[r].observation
    decreases |more|
  {
    if more == [] {
      assert events + more == events;
    } else {
      var before, last := events + more[..|more| - 1], more[|more| - 1];
      assert (events + more)[..|events + more| - 1] == before && (events + more)[|events + more| - 1] == last;
      ObservationsNeverReturn(events, more[..|more| - 1], r);
      ObservationsAreOld(before, r);
      RunShape(before);
      ObservationsAdvance(Run(before), last, r);
    }
  }

  /** Once an operation has moved on to a newer observation, progress under the old one is
      ignored for good. */
  lemma {:induction false} StaleProgressIsIgnored(events: seq<Event>, more: seq<Event>, tab: nat, r: string, stale: nat, text: string)
    requires Fresh(events + more) && r in Run(events).operations && stale < Run(events).operations[r].observation
    ensures Step(Run(events + more), Progress(tab, r, stale, text)) == Run(events + more)
  {
    ObservationsNeverReturn(events, more, r);
  }
}
