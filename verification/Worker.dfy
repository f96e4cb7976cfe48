/** The browser add-on's service worker: one queue per tab, one operation per request, and
    the batches of tool calls that a reply may ask for. */
module Worker {
  import opened Options
  import opened ChatBlocks
  import opened Json

  const MAX_BATCH := 6
  const NEVER_FINISHED := "That turn never finished. Try again."
  const NOT_READ := "Sent it, but could not read the reply. Copy it and use Bring reply back."
  const TIMEOUT := ToolError("timeout", "The editor did not answer in time.")

  // ---------------------------------------------------------- data

  datatype Outcome = Outcome(ok: bool, body: Option<Json>, error: Option<ToolError>)

  /** A call under both of its names: the worker's and the chat's. */
  datatype BatchedCall = BatchedCall(wireId: nat, chatId: string)

  datatype Batch = Batch(expected: set<nat>, results: map<nat, Outcome>, order: seq<BatchedCall>)

  /** A message being typed into the tab, then its reply being watched. `first` tells the
      question itself from the follow-ups of a tool loop. */
  datatype Stage = Delivering | Observing

  datatype Turn = Turn(first: bool, stage: Stage)

  datatype Operation = Operation(tab: nat, question: string, observation: nat, batch: Option<Batch>,
                                 turn: Option<Turn>, settled: bool)

  datatype Content = Question(text: string) | Results(blocks: seq<ChatBlock>)

  /** A message typed into a tab on behalf of a request. */
  datatype Typed = Typed(tab: nat, request: string, content: Content)

  /** What the worker sends to the relay about a request. */
  datatype Frame =
    | Partial(request: string, text: string)
    | Final(request: string, text: string)
    | Failure(request: string, text: string)
    | Call(request: string, wireId: nat, tool: string, args: Json)

  /** `operations` holds every operation made; `registered` lists, oldest first, those the
      worker's own table of operations holds. A lane is the work chained on a tab and not yet
      finished: each waits for the one before it. Ids are handed out from `nextId`; `typed`
      and `frames` record what was typed and sent. */
  datatype State = State(operations: map<string, Operation>, registered: seq<string>, lanes: map<nat, seq<string>>,
                         nextId: nat, typed: seq<Typed>, frames: seq<Frame>)

  const EMPTY := State(map[], [], map[], 0, [], [])

  function LaneIn(lanes: map<nat, seq<string>>, tab: nat): seq<string> {
    if tab in lanes then lanes[tab] else []
  }

  function Lane(s: State, tab: nat): seq<string> {
    LaneIn(s.lanes, tab)
  }

  // ---------------------------------------------------------- replies and batches

  function CallsIn(blocks: seq<ChatBlock>): seq<ChatBlock> {
    if blocks == [] then []
    else (if blocks[0].ToolCall? then [blocks[0]] else []) + CallsIn(blocks[1..])
  }

  /** The calls of a reply that are carried out. */
  function Accepted(text: string): seq<ChatBlock> {
    var calls := CallsIn(Extract(text).blocks);
    if |calls| <= MAX_BATCH then calls else calls[..MAX_BATCH]
  }

  function Numbered(calls: seq<ChatBlock>, from: nat): seq<BatchedCall> {
    seq(|calls|, k requires 0 <= k < |calls| => BatchedCall(from + k, calls[k].id))
  }

  function WireIds(order: seq<BatchedCall>): set<nat> {
    set c | c in order :: c.wireId
  }

  function CallFrame(request: string, wireId: nat, call: ChatBlock): Frame
    requires call.ToolCall?
  {
    Call(request, wireId, call.tool, if call.args.Some? then call.args.value else Obj(NoFields))
  }

  lemma {:induction false} CallsAreCalls(blocks: seq<ChatBlock>)
    ensures forall b :: b in CallsIn(blocks) ==> b.ToolCall?
  {
    if blocks != [] {
      CallsAreCalls(blocks[1..]);
    }
  }

  function CallFrames(request: string, calls: seq<ChatBlock>, from: nat): seq<Frame>
    requires forall b :: b in calls ==> b.ToolCall?
  {
    seq(|calls|, k requires 0 <= k < |calls| => CallFrame(request, from + k, calls[k]))
  }

  /** The block that answers one call. */
  function ResultBlock(call: BatchedCall, results: map<nat, Outcome>): ChatBlock {
    if call.wireId !in results then ToolResult(call.chatId, false, None, Some(TIMEOUT))
    else
      var r := results[call.wireId];
      ToolResult(call.chatId, r.ok, if r.ok then r.body else None, r.error)
  }

  function ResultBlocks(order: seq<BatchedCall>, results: map<nat, Outcome>): seq<ChatBlock> {
    seq(|order|, k requires 0 <= k < |order| => ResultBlock(order[k], results))
  }

  // ---------------------------------------------------------- one operation

  function Put(s: State, request: string, op: Operation): State {
    s.(operations := s.operations[request := op])
  }

  function Say(s: State, frame: Frame): State {
    s.(frames := s.frames + [frame])
  }

  function RemoveOne(list: seq<string>, one: string): seq<string> {
    if list == [] then [] else if list[0] == one then list[1..] else [list[0]] + RemoveOne(list[1..], one)
  }

  /** The record is deleted and the tab's next piece of work may run. */
  function Release(s: State, request: string, tab: nat): State {
    s.(registered := RemoveOne(s.registered, request),
       lanes := s.lanes[tab := if Lane(s, tab) == [] then [] else Lane(s, tab)[1..]])
  }

  /** The turn is over. Only the first message being typed or watched still holds the tab. */
  function Settle(s: State, request: string, op: Operation): State {
    var after := Put(s, request, op.(settled := true));
    if request in s.registered && !(op.turn.Some? && op.turn.value.first) then Release(after, request, op.tab) else after
  }

  /** Typing a message and watching for its reply has come to an end. */
  function EndTurn(s: State, request: string, op: Operation): State {
    if op.batch.None? || op.settled then Settle(s, request, op.(turn := None)) else Put(s, request, op.(turn := None))
  }

  function Type(s: State, request: string, op: Operation, first: bool, content: Content): State {
    Put(s, request, op.(turn := Some(Turn(first, Delivering)))).(typed := s.typed + [Typed(op.tab, request, content)])
  }

  /** A batch that ends is typed as one message, under a fresh observation. */
  function FinishBatch(s: State, request: string, op: Operation): State {
    if op.batch.None? then s
    else
      Type(s.(nextId := s.nextId + 1), request, op.(batch := None, observation := s.nextId), false,
           Results(ResultBlocks(op.batch.value.order, op.batch.value.results)))
  }

  /** A batch waits for the results of the calls it sends out. */
  function OpenBatch(s: State, request: string, op: Operation, calls: seq<ChatBlock>): State
    requires forall b :: b in calls ==> b.ToolCall?
  {
    var order := Numbered(calls, s.nextId);
    Put(s, request, op.(batch := Some(Batch(WireIds(order), map[], order))))
    .(nextId := s.nextId + |calls|, frames := s.frames + CallFrames(request, calls, s.nextId))
  }

  /** A reply either asks for tools, and a batch opens, or is the answer. */
  function DeliverReply(s: State, request: string, op: Operation, text: string): State {
    var calls := Accepted(text);
    CallsAreCalls(Extract(text).blocks);
    if calls != [] then OpenBatch(s, request, op, calls)
    else
      Say(s, Final(request, if Extract(text).prose != "" then Extract(text).prose else text))
  }

  // ---------------------------------------------------------- events

  datatype Event =
    | Arrive(request: string, target: Option<nat>, text: string)
    | Start(tab: nat)
    | Delivered(request: string, failure: Option<string>)
    | Observed(request: string, reply: Option<string>)
    | Arrived(wireId: nat, outcome: Outcome)
    | Deadline(request: string)
    | Ceiling(request: string)
    | Progress(tab: nat, request: string, observation: nat, text: string)

  /** A request that found its chat joins the chat's lane; otherwise `text` says why not. */
  function OnArrive(s: State, request: string, target: Option<nat>, text: string): State {
    match target
    case None => Say(s, Failure(request, text))
    case Some(tab) =>
      Put(s, request, Operation(tab, text, s.nextId, None, None, false))
      .(lanes := s.lanes[tab := Lane(s, tab) + [request]], nextId := s.nextId + 1)
  }

  /** The work at the front of a lane runs. */
  function OnStart(s: State, tab: nat): State {
    if Lane(s, tab) == [] || Lane(s, tab)[0] in s.registered || Lane(s, tab)[0] !in s.operations then s
    else
      var request := Lane(s, tab)[0];
      var op := s.operations[request];
      Type(s, request, op, true, Question(op.question)).(registered := s.registered + [request])
  }

  predicate InTurn(s: State, request: string, stage: Stage) {
    request in s.operations && s.operations[request].turn.Some? && s.operations[request].turn.value.stage == stage
  }

  function OnDelivered(s: State, request: string, failure: Option<string>): State {
    if !InTurn(s, request, Delivering) then s
    else
      var op := s.operations[request];
      match failure
      case Some(reason) => EndTurn(Say(s, Failure(request, reason)), request, op)
      case None => Put(s, request, op.(turn := Some(op.turn.value.(stage := Observing))))
  }

  function OnObserved(s: State, request: string, reply: Option<string>): State {
    if !InTurn(s, request, Observing) then s
    else
      match reply
      case None => EndTurn(Say(s, Failure(request, NOT_READ)), request, s.operations[request])
      case Some(text) =>
        var told := DeliverReply(s, request, s.operations[request], text);
        EndTurn(told, request, told.operations[request])
  }

  /** `operationForCall`: the first operation in the table whose batch expects the call. */
  function OwnerAmong(registered: seq<string>, operations: map<string, Operation>, wireId: nat): Option<string> {
    if registered == [] then None
    else if registered[0] in operations && operations[registered[0]].batch.Some?
            && wireId in operations[registered[0]].batch.value.expected then Some(registered[0])
    else OwnerAmong(registered[1..], operations, wireId)
  }

  lemma {:induction false} OwnerExpects(registered: seq<string>, operations: map<string, Operation>, wireId: nat)
    ensures var owner := OwnerAmong(registered, operations, wireId);
      owner.Some? ==> owner.value in registered && owner.value in operations
                      && operations[owner.value].batch.Some? && wireId in operations[owner.value].batch.value.expected
  {
    if registered != [] {
      OwnerExpects(registered[1..], operations, wireId);
    }
  }

  function Recorded(op: Operation, wireId: nat, outcome: Outcome): Operation
    requires op.batch.Some?
  {
    op.(batch := Some(op.batch.value.(results := op.batch.value.results[wireId := outcome])))
  }

  function OnResult(s: State, wireId: nat, outcome: Outcome): State {
    OwnerExpects(s.registered, s.operations, wireId);
    match OwnerAmong(s.registered, s.operations, wireId)
    case None => s
    case Some(request) =>
      var op := Recorded(s.operations[request], wireId, outcome);
      if |op.batch.value.results| < |op.batch.value.expected| then Put(s, request, op) else FinishBatch(s, request, op)
  }

  function OnDeadline(s: State, request: string): State {
    if request in s.operations then FinishBatch(s, request, s.operations[request]) else s
  }

  function OnCeiling(s: State, request: string): State {
    if request in s.registered && request in s.operations && !s.operations[request].settled then
      Settle(Say(s, Failure(request, NEVER_FINISHED)), request, s.operations[request])
    else s
  }

  function OnProgress(s: State, tab: nat, request: string, observation: nat, text: string): State {
    if TrimStart(text) != "" && request in s.registered && request in s.operations
       && s.operations[request].tab == tab && s.operations[request].observation == observation
    then Say(s, Partial(request, text))
    else s
  }

  function Step(s: State, e: Event): State {
    match e
    case Arrive(request, target, text) => OnArrive(s, request, target, text)
    case Start(tab) => OnStart(s, tab)
    case Delivered(request, failure) => OnDelivered(s, request, failure)
    case Observed(request, reply) => OnObserved(s, request, reply)
    case Arrived(wireId, outcome) => OnResult(s, wireId, outcome)
    case Deadline(request) => OnDeadline(s, request)
    case Ceiling(request) => OnCeiling(s, request)
    case Progress(tab, request, observation, text) => OnProgress(s, tab, request, observation, text)
  }

  // ---------------------------------------------------------- the worker object

  class ServiceWorker {
    var operations: map<string, Operation>
    var registered: seq<string>
    var tabQueues: map<nat, seq<string>>
    var nextId: nat
    var typed: seq<Typed>
    var frames: seq<Frame>

    function View(): State
      reads this
    {
      State(operations, registered, tabQueues, nextId, typed, frames)
    }

    constructor ()
      ensures View() == EMPTY
    {
      operations, registered, tabQueues, nextId := map[], [], map[], 0;
      typed, frames := [], [];
    }

    method CreateId() returns (id: nat)
      modifies this`nextId
      ensures id == old(nextId) && View() == old(View()).(nextId := old(nextId) + 1)
    {
      id := nextId;
      nextId := nextId + 1;
    }

    method Send(frame: Frame)
      modifies this`frames
      ensures View() == Say(old(View()), frame)
    {
      frames := frames + [frame];
    }

    method Finally(request: string, tab: nat)
      modifies this`registered, this`tabQueues
      ensures View() == Release(old(View()), request, tab)
    {
      registered := RemoveOne(registered, request);
      var lane := Lane(View(), tab);
      tabQueues := tabQueues[tab := if lane == [] then [] else lane[1..]];
    }

    method SettleOperation(request: string)
      requires request in operations
      modifies this`operations, this`registered, this`tabQueues
      ensures View() == Settle(old(View()), request, old(operations[request]))
    {
      var op := operations[request];
      operations := operations[request := op.(settled := true)];
      if request in registered && !(op.turn.Some? && op.turn.value.first) {
        Finally(request, op.tab);
      }
    }

    method TurnEnded(request: string)
      requires request in operations
      modifies this`operations, this`registered, this`tabQueues
      ensures View() == EndTurn(old(View()), request, old(operations[request]))
    {
      var op := operations[request];
      operations := operations[request := op.(turn := None)];
      if op.batch.None? || op.settled {
        SettleOperation(request);
        assert old(operations)[request := op.(turn := None)][request := op.(turn := None, settled := true)]
            == old(operations)[request := op.(turn := None, settled := true)];
      }
    }

    method SendToChat(request: string, first: bool, content: Content)
      requires request in operations
      modifies this`operations, this`typed
      ensures View() == Type(old(View()), request, old(operations[request]), first, content)
    {
      var op := operations[request];
      operations := operations[request := op.(turn := Some(Turn(first, Delivering)))];
      typed := typed + [Typed(op.tab, request, content)];
    }

    method HandleRequest(request: string, target: Option<nat>, text: string)
      modifies this`operations, this`tabQueues, this`nextId, this`frames
      ensures View() == OnArrive(old(View()), request, target, text)
    {
      if target.None? {
        Send(Failure(request, text));
        return;
      }
      var observation := CreateId();
      operations := operations[request := Operation(target.value, text, observation, None, None, false)];
      tabQueues := tabQueues[target.value := Lane(View(), target.value) + [request]];
    }

    method RunNext(tab: nat)
      modifies this`operations, this`registered, this`typed
      ensures View() == OnStart(old(View()), tab)
    {
      var lane := Lane(View(), tab);
      if lane == [] || lane[0] in registered || lane[0] !in operations {
        return;
      }
      registered := registered + [lane[0]];
      SendToChat(lane[0], true, Question(operations[lane[0]].question));
    }

    method OnMessageDelivered(request: string, failure: Option<string>)
      modifies this`operations, this`registered, this`tabQueues, this`frames
      ensures View() == OnDelivered(old(View()), request, failure)
    {
      if !InTurn(View(), request, Delivering) {
        return;
      }
      if failure.Some? {
        Send(Failure(request, failure.value));
        TurnEnded(request);
        return;
      }
      var op := operations[request];
      operations := operations[request := op.(turn := Some(op.turn.value.(stage := Observing)))];
    }

    method SendCalls(request: string, accepted: seq<ChatBlock>)
      requires request in operations && forall b :: b in accepted ==> b.ToolCall?
      modifies this`operations, this`nextId, this`frames
      ensures View() == OpenBatch(old(View()), request, old(operations[request]), accepted)
    {
      var expected, order := {}, [];
      ghost var from, before := nextId, frames;
      assert before + CallFrames(request, accepted[..0], from) == before;
      for k := 0 to |accepted|
        invariant nextId == from + k && operations == old(operations)
        invariant order == Numbered(accepted[..k], from) && expected == WireIds(order)
        invariant frames == before + CallFrames(request, accepted[..k], from)
      {
        var call := accepted[k];
        var wireId := CreateId();
        expected := expected + {wireId};
        order := order + [BatchedCall(wireId, call.id)];
        Send(CallFrame(request, wireId, call));
      }
      assert accepted[..|accepted|] == accepted;
      operations := operations[request := operations[request].(batch := Some(Batch(expected, map[], order)))];
    }

    method DeliverTo(request: string, text: string)
      requires request in operations
      modifies this`operations, this`nextId, this`frames
      ensures View() == DeliverReply(old(View()), request, old(operations[request]), text)
    {
      var extraction := Extract(text);
      var calls := CallsIn(extraction.blocks);
      CallsAreCalls(extraction.blocks);
      if calls == [] {
        Send(Final(request, if extraction.prose != "" then extraction.prose else text));
        return;
      }
      SendCalls(request, if |calls| <= MAX_BATCH then calls else calls[..MAX_BATCH]);
    }

    method OnReplyObserved(request: string, reply: Option<string>)
      modifies this`operations, this`registered, this`tabQueues, this`nextId, this`frames
      ensures View() == OnObserved(old(View()), request, reply)
    {
      if !InTurn(View(), request, Observing) {
        return;
      }
      if reply.None? {
        Send(Failure(request, NOT_READ));
      } else {
        DeliverTo(request, reply.value);
      }
      TurnEnded(request);
    }

    method FinishBatchOf(request: string)
      requires request in operations
      modifies this`operations, this`nextId, this`typed
      ensures View() == FinishBatch(old(View()), request, old(operations[request]))
    {
      var op := operations[request];
      if op.batch.None? {
        return;
      }
      var batch := op.batch.value;
      var rendered := [];
      for k := 0 to |batch.order|
        invariant rendered == ResultBlocks(batch.order, batch.results)[..k]
      {
        rendered := rendered + [ResultBlock(batch.order[k], batch.results)];
      }
      assert rendered == ResultBlocks(batch.order, batch.results);
      var observation := CreateId();
      operations := operations[request := op.(batch := None, observation := observation)];
      SendToChat(request, false, Results(rendered));
      ghost var typing := op.(batch := None, observation := observation);
      assert old(operations)[request := typing][request := typing.(turn := Some(Turn(false, Delivering)))]
          == old(operations)[request := typing.(turn := Some(Turn(false, Delivering)))];
    }

    method CollectResult(wireId: nat, outcome: Outcome)
      modifies this`operations, this`nextId, this`typed
      ensures View() == OnResult(old(View()), wireId, outcome)
    {
      var owner := OwnerAmong(registered, operations, wireId);
      OwnerExpects(registered, operations, wireId);
      if owner.None? {
        return;
      }
      var op := Recorded(operations[owner.value], wireId, outcome);
      operations := operations[owner.value := op];
      if |op.batch.value.results| < |op.batch.value.expected| {
        return;
      }
      FinishBatchOf(owner.value);
    }

    method OnBatchDeadline(request: string)
      modifies this`operations, this`nextId, this`typed
      ensures View() == OnDeadline(old(View()), request)
    {
      if request in operations {
        FinishBatchOf(request);
      }
    }

    method OnOperationCeiling(request: string)
      modifies this`operations, this`registered, this`tabQueues, this`frames
      ensures View() == OnCeiling(old(View()), request)
    {
      if request in registered && request in operations && !operations[request].settled {
        Send(Failure(request, NEVER_FINISHED));
        SettleOperation(request);
      }
    }

    method OnReplyProgress(tab: nat, request: string, observation: nat, text: string)
      modifies this`frames
      ensures View() == OnProgress(old(View()), tab, request, observation, text)
    {
      if TrimStart(text) != "" && request in registered && request in operations {
        var owner := operations[request];
        if owner.tab == tab && owner.observation == observation {
          Send(Partial(request, text));
        }
      }
    }
  }

}
