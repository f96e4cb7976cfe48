/** Batches of tool calls: every call that was accepted is answered, once, in the tab that
    asked for it. */
module WorkerBatches {
  import opened Options
  import opened ChatBlocks
  import opened Json
  import opened Worker
  import opened WorkerLanes
  import opened WorkerOthers
  import opened Text

  // ---------------------------------------------------------- ids

  predicate Below(order: seq<BatchedCall>, n: nat) {
    forall c :: c in order ==> c.wireId < n
  }

  ghost predicate OnePerCall(order: seq<BatchedCall>) {
    forall j, k :: 0 <= j < k < |order| ==> order[j].wireId != order[k].wireId
  }

  /** An open batch: something is still missing, and its ids are its own. */
  ghost predicate BatchOk(b: Batch, n: nat) {
    && b.expected == WireIds(b.order) && Below(b.order, n) && OnePerCall(b.order)
    && b.results.Keys <= b.expected && |b.results| < |b.expected|
  }

  ghost predicate BatchFits(s: State, r: string) {
    r in s.operations && s.operations[r].batch.Some? ==> BatchOk(s.operations[r].batch.value, s.nextId)
  }

  predicate Expects(s: State, r: string, w: nat) {
    r in s.operations && s.operations[r].batch.Some? && w in s.operations[r].batch.value.expected
  }

  ghost predicate OneOwner(s: State) {
    forall r, q, w: nat :: Expects(s, r, w) && Expects(s, q, w) ==> r == q
  }

  ghost predicate Batched(s: State) {
    (forall r :: BatchFits(s, r)) && OneOwner(s)
  }

  lemma {:induction false} ExpectedBelow(s: State, r: string, w: nat)
    requires BatchFits(s, r) && Expects(s, r, w)
    ensures w < s.nextId
  {
  }

  lemma {:induction false} KeysCount(m: map<nat, Outcome>)
    ensures |m| == |m.Keys|
  {
  }

  lemma {:induction false} SubsetCount(a: set<nat>, b: set<nat>)
    requires a <= b
    ensures |a| <= |b| && (|a| == |b| ==> a == b)
  {
    if a != {} {
      var x :| x in a;
      SubsetCount(a - {x}, b - {x});
    }
  }

  lemma {:induction false} NumberedOk(calls: seq<ChatBlock>, n: nat)
    requires calls != []
    ensures var order := Numbered(calls, n);
      BatchOk(Batch(WireIds(order), map[], order), n + |calls|)
      && forall w :: w in WireIds(order) ==> w >= n
  {
    var order := Numbered(calls, n);
    assert order[0] in order && order[0].wireId in WireIds(order);
    SubsetCount({order[0].wireId}, WireIds(order));
  }

  /** One operation changes: what it expects shrinks or is new. */
  lemma {:induction false} OneChanged(s: State, t: State, request: string)
    requires Batched(s) && s.nextId <= t.nextId
    requires forall r :: r != request ==> (r in t.operations <==> r in s.operations)
                                          && (r in s.operations ==> t.operations[r].batch == s.operations[r].batch)
    requires BatchFits(t, request)
    requires forall w: nat :: Expects(t, request, w) ==> Expects(s, request, w) || w >= s.nextId
    ensures Batched(t)
  {
    forall r ensures BatchFits(t, r) {
      assert BatchFits(s, r);
    }
    forall r, q, w: nat | Expects(t, r, w) && Expects(t, q, w) ensures r == q {
      assert r != request ==> Expects(s, r, w);
      assert q != request ==> Expects(s, q, w);
      if r != request {
        ExpectedBelow(s, r, w);
      }
      if q != request {
        ExpectedBelow(s, q, w);
      }
    }
  }

  lemma {:induction false} ObservedBatched(s: State, request: string, reply: Option<string>)
    requires Batched(s)
    ensures Batched(OnObserved(s, request, reply))
  {
    if InTurn(s, request, Observing) {
      var op, t := s.operations[request], OnObserved(s, request, reply);
      assert BatchFits(s, request);
      if reply.Some? && Accepted(reply.value) != [] {
        NumberedOk(Accepted(reply.value), s.nextId);
      } else {
        ObservedCloses(s, request, reply);
      }
      OneChanged(s, t, request);
    }
  }

  lemma {:induction false} ObservedCloses(s: State, request: string, reply: Option<string>)
    requires InTurn(s, request, Observing) && (reply.Some? ==> Accepted(reply.value) == [])
    ensures var t := OnObserved(s, request, reply);
      && t.operations.Keys == s.operations.Keys
      && (forall r :: r in s.operations ==> t.operations[r].batch == s.operations[r].batch)
      && t.nextId == s.nextId
  {
  }

  lemma {:induction false} ResultBatched(s: State, wireId: nat, outcome: Outcome)
    requires Batched(s)
    ensures Batched(OnResult(s, wireId, outcome))
  {
    OwnerExpects(s.registered, s.operations, wireId);
    var owner := OwnerAmong(s.registered, s.operations, wireId);
    if owner.Some? {
      assert BatchFits(s, owner.value);
      OneChanged(s, OnResult(s, wireId, outcome), owner.value);
    }
  }

  lemma {:induction false} ArriveBatched(s: State, request: string, target: Option<nat>, text: string)
    requires Batched(s) && request !in s.operations
    ensures Batched(OnArrive(s, request, target, text))
  {
    OneChanged(s, OnArrive(s, request, target, text), request);
  }

  lemma {:induction false} StartBatched(s: State, tab: nat)
    requires Batched(s)
    ensures Batched(OnStart(s, tab))
  {
    if Lane(s, tab) != [] {
      assert BatchFits(s, Lane(s, tab)[0]);
      OneChanged(s, OnStart(s, tab), Lane(s, tab)[0]);
    }
  }

  lemma {:induction false} DeliveredBatched(s: State, request: string, failure: Option<string>)
    requires Batched(s)
    ensures Batched(OnDelivered(s, request, failure))
  {
    assert BatchFits(s, request);
    OneChanged(s, OnDelivered(s, request, failure), request);
  }

  lemma {:induction false} DeadlineBatched(s: State, request: string)
    requires Batched(s)
    ensures Batched(OnDeadline(s, request))
  {
    assert BatchFits(s, request);
    OneChanged(s, OnDeadline(s, request), request);
  }

  lemma {:induction false} CeilingBatched(s: State, request: string)
    requires Batched(s)
    ensures Batched(OnCeiling(s, request))
  {
    assert BatchFits(s, request);
    OneChanged(s, OnCeiling(s, request), request);
  }

  lemma {:induction false} ProgressBatched(s: State, tab: nat, request: string, observation: nat, text: string)
    requires Batched(s)
    ensures Batched(OnProgress(s, tab, request, observation, text))
  {
    assert BatchFits(s, request);
    OneChanged(s, OnProgress(s, tab, request, observation, text), request);
  }

  lemma {:induction false} StepBatched(s: State, e: Event)
    requires Batched(s) && (e.Arrive? ==> e.request !in s.operations)
    ensures Batched(Step(s, e))
  {
    match e
    case Arrive(request, target, text) => ArriveBatched(s, request, target, text);
    case Start(tab) => StartBatched(s, tab);
    case Delivered(request, failure) => DeliveredBatched(s, request, failure);
    case Observed(request, reply) => ObservedBatched(s, request, reply);
    case Arrived(wireId, outcome) => ResultBatched(s, wireId, outcome);
    case Deadline(request) => DeadlineBatched(s, request);
    case Ceiling(request) => CeilingBatched(s, request);
    case Progress(tab, request, observation, text) => ProgressBatched(s, tab, request, observation, text);
  }

  lemma {:induction false} RunBatched(events: seq<Event>)
    requires Fresh(events)
    ensures Batched(Run(events))
  {
    if events != [] {
      var before, last := events[..|events| - 1], events[|events| - 1];
      RunBatched(before);
      RunShape(before);
      StepBatched(Run(before), last);
    }
  }

  // ---------------------------------------------------------- while a batch is open

  /** The last result that came back for a call. */
  function LastOutcome(history: seq<Event>, w: nat): Option<Outcome> {
    if history == [] then None
    else
      var last := history[|history| - 1];
      if last.Arrived? && last.wireId == w then Some(last.outcome) else LastOutcome(history[..|history| - 1], w)
  }

  predicate Complete(history: seq<Event>, order: seq<BatchedCall>) {
    forall c :: c in order ==> LastOutcome(history, c.wireId).Some?
  }

  lemma {:induction false} LastOutcomeAppend(history: seq<Event>, e: Event, w: nat)
    ensures LastOutcome(history + [e], w)
         == if e.Arrived? && e.wireId == w then Some(e.outcome) else LastOutcome(history, w)
  {
    assert (history + [e])[..|history|] == history;
  }

  /** The results recorded are those of the history. */
  ghost predicate Holds(results: map<nat, Outcome>, order: seq<BatchedCall>, history: seq<Event>) {
    && results.Keys <= WireIds(order)
    && forall w: nat :: w in WireIds(order) ==>
         if w in results then LastOutcome(history, w) == Some(results[w]) else LastOutcome(history, w).None?
  }

  ghost predicate Open(s: State, request: string, tab: nat, order: seq<BatchedCall>, history: seq<Event>) {
    && request in s.registered && request in s.operations
    && var op := s.operations[request];
       !op.settled && op.turn.None? && op.tab == tab && op.batch.Some?
       && op.batch.value.expected == WireIds(order) && op.batch.value.order == order
       && Holds(op.batch.value.results, order, history)
  }

  lemma {:induction false} OwnerIs(s: State, registered: seq<string>, request: string, w: nat)
    requires OneOwner(s) && request in registered && Expects(s, request, w)
    ensures OwnerAmong(registered, s.operations, w) == Some(request)
  {
    if registered[0] != request {
      assert !Expects(s, registered[0], w);
      OwnerIs(s, registered[1..], request, w);
    }
  }

  /** Events that are about neither the batch's calls nor its timers leave it alone. */
  lemma {:induction false} OtherEvents(s: State, e: Event, request: string)
    requires Shaped(s) && (e.Arrive? ==> e.request !in s.operations)
    requires request in s.registered && request in s.operations && s.operations[request].turn.None?
    requires e != Deadline(request) && e != Ceiling(request) && !(e.Arrived? && Expects(s, request, e.wireId))
    ensures SameRecord(s, Step(s, e), request) && MessagesFor(Step(s, e).typed, request) == MessagesFor(s.typed, request)
  {
    if e.Arrived? {
      OwnerExpects(s.registered, s.operations, e.wireId);
    }
    if !About(s, e, request) {
      OthersAreLeftAlone(s, e, request);
    }
  }

  lemma {:induction false} HoldsMore(results: map<nat, Outcome>, order: seq<BatchedCall>, history: seq<Event>, w: nat, outcome: Outcome)
    requires Holds(results, order, history) && w in WireIds(order)
    ensures Holds(results[w := outcome], order, history + [Arrived(w, outcome)])
  {
    forall v: nat | v in WireIds(order)
      ensures if v in results[w := outcome] then LastOutcome(history + [Arrived(w, outcome)], v) == Some(results[w := outcome][v])
              else LastOutcome(history + [Arrived(w, outcome)], v).None?
    {
      LastOutcomeAppend(history, Arrived(w, outcome), v);
    }
  }

  /** Fewer results than calls means that some result has not come, and the other way round. */
  lemma {:induction false} CompleteByCount(results: map<nat, Outcome>, order: seq<BatchedCall>, history: seq<Event>)
    requires Holds(results, order, history)
    ensures |results| < |WireIds(order)| <==> !Complete(history, order)
  {
    KeysCount(results);
    SubsetCount(results.Keys, WireIds(order));
    if Complete(history, order) {
      forall w | w in WireIds(order) ensures w in results.Keys {
        var c :| c in order && c.wireId == w;
        assert LastOutcome(history, c.wireId).Some?;
      }
      assert results.Keys == WireIds(order);
    } else {
      var c :| c in order && LastOutcome(history, c.wireId).None?;
      assert c.wireId in WireIds(order) && c.wireId !in results.Keys;
    }
  }

  lemma {:induction false} OpenStays(s: State, e: Event, request: string, tab: nat, order: seq<BatchedCall>, history: seq<Event>)
    requires Shaped(s) && Batched(s) && (e.Arrive? ==> e.request !in s.operations)
    requires Open(s, request, tab, order, history)
    requires e != Deadline(request) && e != Ceiling(request) && !Complete(history + [e], order)
    ensures Open(Step(s, e), request, tab, order, history + [e])
    ensures MessagesFor(Step(s, e).typed, request) == MessagesFor(s.typed, request)
  {
    var b := s.operations[request].batch.value;
    if e.Arrived? && e.wireId in WireIds(order) {
      OwnerIs(s, s.registered, request, e.wireId);
      HoldsMore(b.results, order, history, e.wireId, e.outcome);
      CompleteByCount(b.results[e.wireId := e.outcome], order, history + [e]);
    } else {
      OtherEvents(s, e, request);
      forall w: nat | w in WireIds(order) ensures LastOutcome(history + [e], w) == LastOutcome(history, w) {
        LastOutcomeAppend(history, e, w);
      }
    }
  }

  // ---------------------------------------------------------- how a batch ends

  /** The answer to one call, from what came back since the batch was opened. */
  function Answer(call: BatchedCall, history: seq<Event>): ChatBlock {
    match LastOutcome(history, call.wireId)
    case None => ToolResult(call.chatId, false, None, Some(TIMEOUT))
    case Some(r) => ToolResult(call.chatId, r.ok, if r.ok then r.body else None, r.error)
  }

  function Answers(order: seq<BatchedCall>, history: seq<Event>): seq<ChatBlock> {
    seq(|order|, k requires 0 <= k < |order| => Answer(order[k], history))
  }

  lemma {:induction false} BlocksAreAnswers(results: map<nat, Outcome>, order: seq<BatchedCall>, history: seq<Event>)
    requires Holds(results, order, history)
    ensures ResultBlocks(order, results) == Answers(order, history)
  {
    forall k | 0 <= k < |order| ensures ResultBlocks(order, results)[k] == Answers(order, history)[k] {
      assert order[k] in order && order[k].wireId in WireIds(order);
    }
  }

  /** After a batch has ended nobody expects its calls. */
  ghost predicate Retired(s: State, order: seq<BatchedCall>) {
    forall r, c :: c in order ==> !Expects(s, r, c.wireId)
  }

  lemma {:induction false} FinishRetires(s: State, request: string, op: Operation, order: seq<BatchedCall>)
    requires OneOwner(s) && request in s.operations && s.operations[request].batch.Some? && op.batch.Some?
    requires s.operations[request].batch.value.expected == WireIds(order)
    ensures Retired(FinishBatch(s, request, op), order)
  {
    var t := FinishBatch(s, request, op);
    forall r, c | c in order ensures !Expects(t, r, c.wireId) {
      assert c.wireId in WireIds(order) && Expects(s, request, c.wireId);
      if Expects(t, r, c.wireId) {
        assert r != request;
        assert Expects(s, r, c.wireId);
      }
    }
  }

  lemma {:induction false} OpenEnds(s: State, e: Event, request: string, tab: nat, order: seq<BatchedCall>, history: seq<Event>)
    requires Batched(s) && Open(s, request, tab, order, history) && !Complete(history, order)
    requires e == Deadline(request) || Complete(history + [e], order)
    ensures Step(s, e).typed == s.typed + [Typed(tab, request, Results(Answers(order, history + [e])))]
    ensures request in Step(s, e).operations && Step(s, e).operations[request].batch.None?
    ensures Step(s, e).operations[request].observation == s.nextId
    ensures Retired(Step(s, e), order)
  {
    var op := s.operations[request];
    forall w: nat | w in WireIds(order)
      ensures LastOutcome(history + [e], w) == if e.Arrived? && e.wireId == w then Some(e.outcome) else LastOutcome(history, w)
    {
      LastOutcomeAppend(history, e, w);
    }
    if e == Deadline(request) {
      BlocksAreAnswers(op.batch.value.results, order, history + [e]);
      FinishRetires(s, request, op, order);
    } else {
      MissingOneArrived(order, history, e);
      OwnerIs(s, s.registered, request, e.wireId);
      HoldsMore(op.batch.value.results, order, history, e.wireId, e.outcome);
      CompleteByCount(op.batch.value.results[e.wireId := e.outcome], order, history + [e]);
      BlocksAreAnswers(op.batch.value.results[e.wireId := e.outcome], order, history + [e]);
      FinishRetires(s, request, Recorded(op, e.wireId, e.outcome), order);
    }
  }

  lemma {:induction false} MissingOneArrived(order: seq<BatchedCall>, history: seq<Event>, e: Event)
    requires !Complete(history, order) && Complete(history + [e], order)
    ensures e.Arrived? && e.wireId in WireIds(order)
  {
    var c :| c in order && LastOutcome(history, c.wireId).None?;
    LastOutcomeAppend(history, e, c.wireId);
    assert LastOutcome(history + [e], c.wireId).Some?;
    assert c.wireId in WireIds(order);
  }

  // ---------------------------------------------------------- over a whole run

  /** The timers of this request do not fire. */
  predicate Untimed(history: seq<Event>, request: string) {
    Deadline(request) !in history && Ceiling(request) !in history
  }

  lemma {:induction false} OpenThroughout(opening: seq<Event>, middle: seq<Event>, request: string, tab: nat, order: seq<BatchedCall>)
    requires Fresh(opening + middle) && Open(Run(opening), request, tab, order, [])
    requires Untimed(middle, request) && !Complete(middle, order)
    ensures Open(Run(opening + middle), request, tab, order, middle)
    ensures MessagesFor(Run(opening + middle).typed, request) == MessagesFor(Run(opening).typed, request)
    decreases |middle|
  {
    if middle == [] {
      assert opening + middle == opening;
    } else {
      var early, last := middle[..|middle| - 1], middle[|middle| - 1];
      assert middle == early + [last] && opening + middle == (opening + early) + [last];
      RunMore(opening + early, last);
      OpenThroughout(opening, early, request, tab, order);
      RunShape(opening + early);
      RunBatched(opening + early);
      OpenStays(Run(opening + early), last, request, tab, order, early);
    }
  }

  lemma {:induction false} OpensWith(s: State, request: string, text: string)
    requires InTurn(s, request, Observing) && request in s.registered && !s.operations[request].settled
    requires Accepted(text) != []
    ensures Open(Step(s, Observed(request, Some(text))), request, s.operations[request].tab, Numbered(Accepted(text), s.nextId), [])
    ensures Step(s, Observed(request, Some(text))).typed == s.typed
  {
  }

  /** One answer for each of the first six calls at most, in order, by the chat's ids. */
  predicate Answering(answers: seq<ChatBlock>, calls: seq<ChatBlock>) {
    |answers| == (if |calls| <= 6 then |calls| else 6)
    && forall k :: 0 <= k < |answers| ==> answers[k].ToolResult? && answers[k].id == calls[k].id
  }

  /** The batch that a reply opens is answered exactly once. While a result is missing and
      its timers are silent, nothing is typed for the request. When the deadline fires, or
      the moment every call has a result and not before, one message is typed into the
      request's own tab: one result per accepted call, in the reply's order and under the
      chat's ids, holding the last result that came or the timeout error. Then nobody
      expects the batch's calls any more. */
  lemma {:induction false} EachBatchIsAnsweredOnce(before: seq<Event>, request: string, text: string, middle: seq<Event>, last: Event)
    requires Fresh(before + [Observed(request, Some(text))] + middle + [last])
    requires InTurn(Run(before), request, Observing) && request in Run(before).registered
    requires !Run(before).operations[request].settled && Accepted(text) != []
    requires Untimed(middle, request) && !Complete(middle, Numbered(Accepted(text), Run(before).nextId))
    requires last == Deadline(request) || Complete(middle + [last], Numbered(Accepted(text), Run(before).nextId))
    ensures var order, open := Numbered(Accepted(text), Run(before).nextId), before + [Observed(request, Some(text))] + middle;
      && MessagesFor(Run(open).typed, request) == MessagesFor(Run(before).typed, request)
      && Run(open + [last]).typed
         == Run(open).typed + [Typed(Run(before).operations[request].tab, request, Results(Answers(order, middle + [last])))]
      && Answering(Answers(order, middle + [last]), CallsIn(Extract(text).blocks))
      && Retired(Run(open + [last]), order)
  {
    var opening := before + [Observed(request, Some(text))];
    RunMore(opening + middle, last);
    RunMore(before, Observed(request, Some(text)));
    OpensWith(Run(before), request, text);
    OpenBatchEnds(opening, request, Run(before).operations[request].tab, Numbered(Accepted(text), Run(before).nextId), middle, last);
    AnswersMatch(CallsIn(Extract(text).blocks), Accepted(text), Run(before).nextId, middle + [last]);
  }

  lemma {:induction false} OpenBatchEnds(opening: seq<Event>, request: string, tab: nat, order: seq<BatchedCall>, middle: seq<Event>, last: Event)
    requires Fresh(opening + middle + [last]) && Open(Run(opening), request, tab, order, [])
    requires Untimed(middle, request) && !Complete(middle, order)
    requires last == Deadline(request) || Complete(middle + [last], order)
    ensures MessagesFor(Run(opening + middle).typed, request) == MessagesFor(Run(opening).typed, request)
    ensures Run(opening + middle + [last]).typed
         == Run(opening + middle).typed + [Typed(tab, request, Results(Answers(order, middle + [last])))]
    ensures Retired(Run(opening + middle + [last]), order)
  {
    RunMore(opening + middle, last);
    OpenThroughout(opening, middle, request, tab, order);
    RunBatched(opening + middle);
    OpenEnds(Run(opening + middle), last, request, tab, order, middle);
  }

  lemma {:induction false} AnswersMatch(calls: seq<ChatBlock>, accepted: seq<ChatBlock>, from: nat, history: seq<Event>)
    requires accepted == if |calls| <= MAX_BATCH then calls else calls[..MAX_BATCH]
    ensures Answering(Answers(Numbered(accepted, from), history), calls)
  {
  }

  predicate Carries(f: Frame, request: string, wireId: nat, call: ChatBlock) {
    call.ToolCall? && f.Call? && f.request == request && f.wireId == wireId && f.tool == call.tool
    && f.args == if call.args.Some? then call.args.value else Obj(NoFields)
  }

  /** One frame per call, in order, under the ids from `from` on. */
  predicate SentInOrder(before: seq<Frame>, after: seq<Frame>, request: string, calls: seq<ChatBlock>, from: nat) {
    |after| == |before| + |calls| && before <= after
    && forall k :: 0 <= k < |calls| ==> Carries(after[|before| + k], request, from + k, calls[k])
  }

  /** Every call that was accepted is sent to the editor once, in order, under the id its
      batch waits for. */
  lemma {:induction false} EachCallIsSentOnce(s: State, request: string, text: string)
    requires InTurn(s, request, Observing) && Accepted(text) != []
    ensures SentInOrder(s.frames, Step(s, Observed(request, Some(text))).frames, request, Accepted(text), s.nextId)
  {
    CallsAreCalls(Extract(text).blocks);
    OpenFrames(s, request, s.operations[request], text);
    CarriedInOrder(s.frames, request, Accepted(text), s.nextId);
  }

  lemma {:induction false} CarriedInOrder(frames: seq<Frame>, request: string, calls: seq<ChatBlock>, from: nat)
    requires forall b :: b in calls ==> b.ToolCall?
    ensures SentInOrder(frames, frames + CallFrames(request, calls, from), request, calls, from)
  {
  }

  /** Those ids are all different, and nobody has been waiting for any of them. */
  lemma {:induction false} CallIdsAreNew(events: seq<Event>, calls: seq<ChatBlock>)
    requires Fresh(events)
    ensures OnePerCall(Numbered(calls, Run(events).nextId))
    ensures forall c, r :: c in Numbered(calls, Run(events).nextId) ==> !Expects(Run(events), r, c.wireId)
  {
    RunBatched(events);
    var s := Run(events);
    forall c, r | c in Numbered(calls, s.nextId) ensures !Expects(s, r, c.wireId) {
      assert BatchFits(s, r);
    }
  }

  lemma {:induction false} OpenFrames(s: State, request: string, op: Operation, text: string)
    requires InTurn(s, request, Observing) && op == s.operations[request] && Accepted(text) != []
    requires forall b :: b in Accepted(text) ==> b.ToolCall?
    ensures OnObserved(s, request, Some(text)).frames == s.frames + CallFrames(request, Accepted(text), s.nextId)
  {
  }

  // ---------------------------------------------------------- late results

  predicate Stale(s: State, w: nat, r: string) {
    w < s.nextId && !Expects(s, r, w)
  }

  lemma {:induction false} StaysStale(s: State, e: Event, w: nat, r: string)
    requires Stale(s, w, r) && (e.Arrive? ==> e.request !in s.operations)
    ensures Stale(Step(s, e), w, r)
  {
    match e
    case Observed(request, reply) => ObservedStaysStale(s, request, reply, w, r);
    case Delivered(request, failure) => DeliveredStaysStale(s, request, failure, w, r);
    case Arrived(wireId, outcome) => ResultStaysStale(s, wireId, outcome, w, r);
    case _ =>
  }

  lemma {:induction false} ObservedStaysStale(s: State, request: string, reply: Option<string>, w: nat, r: string)
    requires Stale(s, w, r)
    ensures Stale(OnObserved(s, request, reply), w, r)
  {
    if InTurn(s, request, Observing) && (reply.Some? ==> Accepted(reply.value) == []) {
      ObservedCloses(s, request, reply);
    }
  }

  lemma {:induction false} DeliveredStaysStale(s: State, request: string, failure: Option<string>, w: nat, r: string)
    requires Stale(s, w, r)
    ensures Stale(OnDelivered(s, request, failure), w, r)
  {
  }

  lemma {:induction false} ResultStaysStale(s: State, wireId: nat, outcome: Outcome, w: nat, r: string)
    requires Stale(s, w, r)
    ensures Stale(OnResult(s, wireId, outcome), w, r)
  {
    OwnerExpects(s.registered, s.operations, wireId);
  }

  lemma {:induction false} StaysStaleFor(events: seq<Event>, more: seq<Event>, w: nat, r: string)
    requires Fresh(events + more) && Stale(Run(events), w, r)
    ensures Stale(Run(events + more), w, r)
    decreases |more|
  {
    if more == [] {
      assert events + more == events;
    } else {
      var early, last := more[..|more| - 1], more[|more| - 1];
      assert more == early + [last] && events + more == (events + early) + [last];
      RunMore(events + early, last);
      StaysStaleFor(events, early, w, r);
      RunShape(events + early);
      StaysStale(Run(events + early), last, w, r);
    }
  }

  lemma {:induction false} NobodyOwns(registered: seq<string>, operations: map<string, Operation>, w: nat)
    requires forall r :: r in operations && operations[r].batch.Some? ==> w !in operations[r].batch.value.expected
    ensures OwnerAmong(registered, operations, w).None?
  {
    if registered != [] {
      NobodyOwns(registered[1..], operations, w);
    }
  }

  /** A call id that was handed out and that no batch expects any more is dead for good:
      whatever happens later, a result for it changes nothing. */
  lemma {:induction false} LateResultsAreDropped(events: seq<Event>, more: seq<Event>, w: nat, outcome: Outcome)
    requires Fresh(events + more) && w < Run(events).nextId && forall r :: !Expects(Run(events), r, w)
    ensures Step(Run(events + more), Arrived(w, outcome)) == Run(events + more)
  {
    var s := Run(events + more);
    forall r | r in s.operations && s.operations[r].batch.Some? ensures w !in s.operations[r].batch.value.expected {
      StaysStaleFor(events, more, w, r);
    }
    NobodyOwns(s.registered, s.operations, w);
  }
}
