/** What a ceiling costs a request: exactly when it keeps its single terminal reply. */
module WorkerCeilings {
  import opened Options
  import opened ChatBlocks
  import opened Worker
  import opened WorkerLanes
  import opened WorkerOthers
  import opened WorkerTurns
  import opened WorkerReplies
  import opened ReplyStreams

  // ---------------------------------------------------------- one terminal reply

  /** Given up with something still under way that can answer again, or that already has. */
  predicate Abandoned(s: State, r: string) {
    r in s.operations && s.operations[r].settled
    && var flags := Stream(s.frames, r);
       !Orderly(flags) || (Over(flags) && (s.operations[r].turn.Some? || s.operations[r].batch.Some?))
  }

  lemma {:induction false} CeilingAbandons(s: State, r: string)
    requires Steady(s, r) && Thread(s, true, r) && GivesUp(s, Ceiling(r), r)
    ensures Abandoned(OnCeiling(s, r), r)
  {
    var flags := Stream(s.frames, r);
    StreamAppend(s.frames, Failure(r, NEVER_FINISHED), r);
    NotOver(flags);
    LastFlag(flags, false);
  }

  lemma {:induction false} EndTurnAbandoned(s: State, r: string, frame: Frame)
    requires Abandoned(s, r) && Reply(frame, r)
    ensures Abandoned(EndTurn(Say(s, frame), r, s.operations[r]), r)
  {
    StreamAppend(s.frames, frame, r);
    OneTooMany(Stream(s.frames, r), frame.Partial?);
  }

  lemma {:induction false} ObservedAbandoned(s: State, r: string, reply: Option<string>)
    requires Abandoned(s, r)
    ensures Abandoned(OnObserved(s, r, reply), r)
  {
    if InTurn(s, r, Observing) {
      match reply
      case None => EndTurnAbandoned(s, r, Failure(r, NOT_READ));
      case Some(text) =>
        if Accepted(text) != [] {
          CallsAreCalls(Extract(text).blocks);
          BatchAbandoned(s, r, Accepted(text));
        } else {
          EndTurnAbandoned(s, r, Final(r, if Extract(text).prose != "" then Extract(text).prose else text));
        }
    }
  }

  lemma {:induction false} BatchAbandoned(s: State, r: string, calls: seq<ChatBlock>)
    requires Abandoned(s, r) && forall b :: b in calls ==> b.ToolCall?
    ensures var told := OpenBatch(s, r, s.operations[r], calls);
      r in told.operations && Abandoned(EndTurn(told, r, told.operations[r]), r)
  {
    var frames := CallFrames(r, calls, s.nextId);
    assert forall f :: f in frames ==> f.Call?;
    StreamCalls(s.frames, frames, r);
  }

  lemma {:induction false} DeliveredAbandoned(s: State, r: string, failure: Option<string>)
    requires Abandoned(s, r)
    ensures Abandoned(OnDelivered(s, r, failure), r)
  {
    if InTurn(s, r, Delivering) && failure.Some? {
      EndTurnAbandoned(s, r, Failure(r, failure.value));
    }
  }

  lemma {:induction false} ProgressAbandoned(s: State, tab: nat, r: string, observation: nat, text: string)
    requires Abandoned(s, r)
    ensures Abandoned(OnProgress(s, tab, r, observation, text), r)
  {
    StreamAppend(s.frames, Partial(r, text), r);
    OneTooMany(Stream(s.frames, r), true);
  }

  lemma {:induction false} StepAbandoned(s: State, e: Event, r: string)
    requires Shaped(s) && Abandoned(s, r) && (e.Arrive? ==> e.request !in s.operations)
    ensures Abandoned(Step(s, e), r)
  {
    if !About(s, e, r) {
      OthersAreLeftAlone(s, e, r);
    } else {
      match e
      case Start(_) =>
      case Delivered(_, failure) => DeliveredAbandoned(s, r, failure);
      case Observed(_, reply) => ObservedAbandoned(s, r, reply);
      case Arrived(wireId, outcome) => OwnerExpects(s.registered, s.operations, wireId);
      case Deadline(_) =>
      case Ceiling(_) =>
      case Progress(tab, _, observation, text) => ProgressAbandoned(s, tab, r, observation, text);
    }
  }

  lemma {:induction false} RunAbandoned(events: seq<Event>, r: string)
    requires Fresh(events) && GaveUp(events, r)
    ensures Abandoned(Run(events), r)
  {
    var before, last := events[..|events| - 1], events[|events| - 1];
    RunShape(before);
    if GaveUp(before, r) {
      RunAbandoned(before, r);
      StepAbandoned(Run(before), last, r);
    } else {
      RunThread(before, r);
      RunSteady(before, r);
      CeilingAbandons(Run(before), r);
    }
  }

  lemma {:induction false} LateFailure(events: seq<Event>, r: string)
    requires Fresh(events) && InTurn(Run(events), r, Delivering)
    ensures Fresh(events + [Delivered(r, Some(""))])
    ensures Stream(Run(events + [Delivered(r, Some(""))]).frames, r) == Stream(Run(events).frames, r) + [false]
  {
    RunMore(events, Delivered(r, Some("")));
    StreamAppend(Run(events).frames, Failure(r, ""), r);
  }

  lemma {:induction false} LateObservation(events: seq<Event>, r: string)
    requires Fresh(events) && InTurn(Run(events), r, Observing)
    ensures Fresh(events + [Observed(r, None)])
    ensures Stream(Run(events + [Observed(r, None)]).frames, r) == Stream(Run(events).frames, r) + [false]
  {
    RunMore(events, Observed(r, None));
    StreamAppend(Run(events).frames, Failure(r, NOT_READ), r);
  }

  lemma {:induction false} LateBatch(events: seq<Event>, r: string)
    requires Fresh(events) && r in Run(events).operations && Run(events).operations[r].batch.Some?
    ensures Fresh(events + [Deadline(r)] + [Delivered(r, Some(""))])
    ensures Stream(Run(events + [Deadline(r)] + [Delivered(r, Some(""))]).frames, r) == Stream(Run(events).frames, r) + [false]
  {
    RunMore(events, Deadline(r));
    LateFailure(events + [Deadline(r)], r);
  }

  /** What is left over when a ceiling gives up on an operation can fail in its turn. */
  lemma {:induction false} LateReply(events: seq<Event>, r: string) returns (more: seq<Event>)
    requires Fresh(events) && r in Run(events).operations
    requires Run(events).operations[r].turn.Some? || Run(events).operations[r].batch.Some?
    ensures Fresh(events + more) && Ceiling(r) !in more
    ensures Stream(Run(events + more).frames, r) == Stream(Run(events).frames, r) + [false]
  {
    if Run(events).operations[r].batch.Some? {
      more := [Deadline(r), Delivered(r, Some(""))];
      LateBatch(events, r);
      assert events + more == events + [Deadline(r)] + [Delivered(r, Some(""))];
    } else if InTurn(Run(events), r, Delivering) {
      more := [Delivered(r, Some(""))];
      LateFailure(events, r);
    } else {
      more := [Observed(r, None)];
      LateObservation(events, r);
    }
  }

  lemma {:induction false} NotGivenUpLater(events: seq<Event>, more: seq<Event>, r: string)
    requires !GaveUp(events, r) && Ceiling(r) !in more
    ensures !GaveUp(events + more, r)
    decreases |more|
  {
    if more == [] {
      assert events + more == events;
    } else {
      assert (events + more)[..|events + more| - 1] == events + more[..|more| - 1];
      NotGivenUpLater(events, more[..|more| - 1], r);
    }
  }

  /** However the run goes on, as long as no further ceiling fires for the request, its replies
      are some partials and then at most one terminal reply. */
  ghost predicate OrderlyFrom(events: seq<Event>, r: string) {
    forall more :: Fresh(events + more) && Ceiling(r) !in more ==> Orderly(Stream(Run(events + more).frames, r))
  }

  /** A request keeps its single terminal reply exactly as long as no ceiling has given it up.
      Ceilings of other requests never cost it anything. */
  lemma {:induction false} OrderlyExactlyUntilGivenUp(events: seq<Event>, r: string)
    requires Fresh(events)
    ensures OrderlyFrom(events, r) <==> !GaveUp(events, r)
  {
    if !GaveUp(events, r) {
      forall more | Fresh(events + more) && Ceiling(r) !in more ensures Orderly(Stream(Run(events + more).frames, r)) {
        NotGivenUpLater(events, more, r);
        EachRequestEndsOnce(events + more, r);
      }
    } else {
      RunAbandoned(events, r);
      assert events + [] == events;
      if Orderly(Stream(Run(events).frames, r)) {
        var more := LateReply(events, r);
        OneTooMany(Stream(Run(events).frames, r), false);
        assert !Orderly(Stream(Run(events + more).frames, r));
      }
    }
  }

  /** Whichever ceiling fires, there is a continuation in which the request gets a second
      terminal reply. */
  lemma {:induction false} CeilingMayAnswerTwice(events: seq<Event>, r: string) returns (more: seq<Event>)
    requires Fresh(events) && GivesUp(Run(events), Ceiling(r), r)
    ensures Fresh(events + [Ceiling(r)] + more) && Ceiling(r) !in more
    ensures !Orderly(Stream(Run(events + [Ceiling(r)] + more).frames, r))
  {
    var given := events + [Ceiling(r)];
    RunMore(events, Ceiling(r));
    assert given[..|given| - 1] == events;
    OrderlyExactlyUntilGivenUp(given, r);
    more :| Fresh(given + more) && Ceiling(r) !in more && !Orderly(Stream(Run(given + more).frames, r));
  }
}
