/** What one request, one ask and one tool call see of the hub over a whole run. */
module HubProtocol {
  import opened Options
  import opened Hub
  import opened HubRuns
  import opened ReplyStreams
  import opened Sequences

  // ---------------------------------------------------------- history of one request id

  predicate FromListed(s: State, id: nat) {
    ById(s.connections, id).Some? && ById(s.connections, id).value.authenticated
  }

  /** The event puts a request with this id in flight: the editor's, when there is a chat to
      take it, or an HTTP caller's. */
  predicate Begins(s: State, e: Event, id: string) {
    match e
    case Asked(request, _) => request == id
    case Received(c, CoachRequest(request, _)) =>
      request == id && FromListed(s, c) && ById(s.connections, c).value.kind == Some(Editor) && ProviderConnection(s).Some?
    case _ => false
  }

  /** How many requests a run put in flight under this id. */
  function Begun(events: seq<Event>, id: string): nat {
    if events == [] then 0
    else
      var before := events[..|events| - 1];
      Begun(before, id) + if Begins(Run(before), events[|events| - 1], id) then 1 else 0
  }

  predicate Asks(e: Event, id: string) {
    e.Asked? && e.request == id
  }

  predicate AskedFor(events: seq<Event>, id: string) {
    exists e :: e in events && Asks(e, id)
  }

  /** For each response frame with this id, in order, whether it was partial. */
  function Flags(sent: seq<Sent>, id: string): seq<bool> {
    if sent == [] then []
    else
      var last := sent[|sent| - 1].frame;
      Flags(sent[..|sent| - 1], id) + if last.Response? && last.id == id then [last.partial] else []
  }

  function Settlements(settled: seq<Settled>, id: string): nat {
    if settled == [] then 0
    else Settlements(settled[..|settled| - 1], id) + if settled[|settled| - 1].id == id then 1 else 0
  }

  // ---------------------------------------------------------- frames leave flags alone

  lemma {:induction false} FlagsAppend(sent: seq<Sent>, one: Sent, id: string)
    ensures Flags(sent + [one], id)
         == Flags(sent, id) + if one.frame.Response? && one.frame.id == id then [one.frame.partial] else []
  {
    assert (sent + [one])[..|sent|] == sent;
  }

  lemma {:induction false} FlagsAnnounce(sent: seq<Sent>, connections: seq<Connection>, k: nat, frame: Frame, toEditor: bool,
                                         id: string)
    requires k <= |connections| && !frame.Response?
    ensures Flags(sent + Announce(connections, k, frame, toEditor), id) == Flags(sent, id)
  {
    if k == 0 {
      assert sent + [] == sent;
    } else {
      FlagsAnnounce(sent, connections, k - 1, frame, toEditor, id);
      FlagsAnnounceOne(sent, Announce(connections, k - 1, frame, toEditor), connections[k - 1], frame, toEditor, id);
    }
  }

  lemma {:induction false} FlagsAnnounceOne(sent: seq<Sent>, before: seq<Sent>, c: Connection, frame: Frame, toEditor: bool,
                                            id: string)
    requires !frame.Response?
    ensures Flags(sent + (before + if Receives(c, toEditor) then [Sent(c.id, frame)] else []), id) == Flags(sent + before, id)
  {
    if Receives(c, toEditor) {
      Associative(sent, before, [Sent(c.id, frame)]);
      FlagsAppend(sent + before, Sent(c.id, frame), id);
    } else {
      assert before + [] == before;
    }
  }

  // ---------------------------------------------------------- the protocol of one id

  predicate Protocol(s: State, begun: nat, asked: bool, id: string) {
    && (begun == 0 ==> id !in s.pending && !asked)
    && (id in s.pending ==> !asked && AllPartial(Flags(s.sent, id)))
    && (begun == 0 || asked ==> Flags(s.sent, id) == [])
    && Orderly(Flags(s.sent, id))
    && (id in s.answers ==> asked)
    && (asked ==> (id in s.answers <==> Settlements(s.settled, id) == 0))
    && (!asked ==> Settlements(s.settled, id) == 0)
    && Settlements(s.settled, id) <= 1
  }

  /** Nothing that the protocol of `id` looks at has changed. */
  predicate SameFor(s: State, t: State, id: string) {
    && (id in s.pending <==> id in t.pending)
    && (id in s.answers <==> id in t.answers)
    && Flags(s.sent, id) == Flags(t.sent, id)
    && Settlements(s.settled, id) == Settlements(t.settled, id)
  }

  lemma {:induction false} SettlementsAppend(settled: seq<Settled>, one: Settled, id: string)
    ensures Settlements(settled + [one], id) == Settlements(settled, id) + if one.id == id then 1 else 0
  {
    assert (settled + [one])[..|settled|] == settled;
  }

  lemma {:induction false} SendSame(s: State, c: Connection, frame: Frame, id: string)
    requires !(frame.Response? && frame.id == id)
    ensures SameFor(s, SendTo(s, c, frame), id)
  {
  }

  lemma {:induction false} AnnounceSame(s: State, frame: Frame, toEditor: bool, id: string)
    requires !frame.Response?
    ensures SameFor(s, AnnounceAll(s, frame, toEditor), id)
  {
    FlagsAnnounce(s.sent, s.connections, |s.connections|, frame, toEditor, id);
  }

  lemma {:induction false} DropSame(s: State, c: nat, id: string)
    ensures SameFor(s, Drop(s, c), id)
  {
    if ById(s.connections, c).Some? {
      var left := s.(connections := Without(s.connections, c));
      AnnounceSame(left, Snapshot(left), true, id);
    }
  }

  lemma {:induction false} RejectSame(s: State, c: nat, id: string)
    ensures SameFor(s, Reject(s, c), id)
  {
    var one := ById(s.connections, c);
    if one.Some? && !one.value.authenticated {
      SendSame(s, one.value, Rejected, id);
      DropSame(SendTo(s, one.value, Rejected), c, id);
    }
  }

  lemma {:induction false} ToldSame(s: State, now: Connection, id: string)
    ensures SameFor(s, Told(s, now), id)
  {
    var joined := SendTo(s, now, Welcome);
    SendSame(s, now, Welcome, id);
    if now.kind != Some(Editor) && s.tools.Some? {
      SendSame(joined, now, Tools(s.tools.value), id);
    }
  }

  lemma {:induction false} AuthenticateSame(s: State, c: nat, kind: Kind, id: string)
    ensures SameFor(s, Authenticate(s, c, kind), id)
  {
    var one := ById(s.connections, c);
    if one.Some? && !one.value.authenticated {
      AuthenticateTold(s, c, one.value, kind);
      var now := one.value.(authenticated := true, kind := Some(kind));
      var told := Told(Admitted(s, one.value, kind), now);
      ToldSame(Admitted(s, one.value, kind), now, id);
      AnnounceSame(told, Snapshot(told), true, id);
    }
  }

  lemma {:induction false} SettleStep(s: State, request: string, answer: Answer, begun: nat, asked: bool, id: string)
    requires Protocol(s, begun, asked, id) && request in s.answers
    ensures Protocol(Settle(s, request, answer), begun, asked, id)
  {
    SettlementsAppend(s.settled, Settled(request, answer), id);
  }

  lemma {:induction false} ResponseStep(s: State, request: string, partial: bool, body: string, begun: nat, asked: bool, id: string)
    requires Protocol(s, begun, asked, id)
    ensures Protocol(RouteResponse(s, request, partial, body), begun, asked, id)
  {
    if request in s.answers {
      if !partial {
        SettleStep(s, request, Answered(body), begun, asked, id);
      }
    } else if request in s.pending {
      var t := if partial then s else s.(pending := s.pending - {request});
      var editor := FindByKind(s, Editor);
      if editor.Some? && editor.value.open {
        FlagsAppend(s.sent, Sent(editor.value.id, Response(request, partial, body)), id);
        if request == id {
          LastFlag(Flags(s.sent, id), partial);
        }
      }
    }
  }

  lemma {:induction false} RequestStep(s: State, c: Connection, request: string, body: string, begun: nat, asked: bool, id: string)
    requires Protocol(s, begun, asked, id)
    requires request == id && c.kind == Some(Editor) && ProviderConnection(s).Some? ==> begun == 0
    ensures Protocol(RouteRequest(s, c, request, body),
                     if request == id && c.kind == Some(Editor) && ProviderConnection(s).Some? then 1 else begun, asked, id)
  {
    if c.kind == Some(Editor) {
      if ProviderConnection(s).None? {
        SendSame(s, c, Error(Some(request), NO_PROVIDER), id);
      } else {
        SendSame(s.(pending := s.pending + {request}), ProviderConnection(s).value, Request(request, body), id);
      }
    }
  }

  lemma {:induction false} SendSomeSame(s: State, c: Option<Connection>, frame: Frame, id: string)
    requires !frame.Response?
    ensures SameFor(s, SendToSome(s, c, frame), id)
  {
    if c.Some? {
      SendSame(s, c.value, frame, id);
    }
  }

  /** Every message but a request or a response either settles an ask or changes nothing
      the protocol looks at. */
  lemma {:induction false} OtherRouteStep(s: State, c: Connection, m: Message, begun: nat, asked: bool, id: string)
    requires Protocol(s, begun, asked, id) && !m.CoachRequest? && !m.CoachResponse?
    ensures Protocol(Route(s, c, m), begun, asked, id)
  {
    match m
    case Ping => SendSame(s, c, Pong, id);
    case ToolCall(call, body) =>
      if FindByKind(s, Editor).None? {
        SendSame(s, c, Result(call, NO_EDITOR), id);
      } else {
        SendSame(s.(toolCallers := s.toolCallers[call := c.id]), FindByKind(s, Editor).value, Call(call, body), id);
      }
    case ToolResult(call, body) =>
      var target := if call in s.toolCallers then ById(s.connections, s.toolCallers[call]) else ProviderConnection(s);
      SendSomeSame(s.(toolCallers := s.toolCallers - {call}), target, Result(call, body), id);
    case ToolsAvailable(list) =>
      AnnounceSame(s.(tools := Some(list)), Tools(list), false, id);
    case ProviderError(request, body) =>
      if request.Some? && request.value != "" && request.value in s.answers {
        SettleStep(s, request.value, if body == "" then Answered("") else Failed(body), begun, asked, id);
      } else {
        SendSomeSame(s, FindByKind(s, Editor), Error(request, body), id);
      }
    case ProviderStatus(body) => SendSomeSame(s, FindByKind(s, Editor), Status(body), id);
    case Ignored =>
  }

  lemma {:induction false} AskStep(s: State, request: string, body: string, begun: nat, asked: bool, id: string)
    requires Protocol(s, begun, asked, id) && (request == id ==> begun == 0)
    ensures Protocol(Ask(s, request, body), if request == id then 1 else begun, asked || request == id, id)
  {
    if ProviderConnection(s).None? {
      SettlementsAppend(s.settled, Settled(request, Failed(NO_CHAT)), id);
    } else {
      SendSame(s.(answers := s.answers + {request}), ProviderConnection(s).value, Request(request, body), id);
    }
  }

  lemma {:induction false} ReceivedStep(s: State, c: nat, m: Message, begun: nat, asked: bool, id: string)
    requires Protocol(s, begun, asked, id)
    requires Begins(s, Received(c, m), id) ==> begun == 0
    ensures Protocol(Step(s, Received(c, m)), begun + if Begins(s, Received(c, m), id) then 1 else 0, asked, id)
  {
    if FromListed(s, c) {
      var one := ById(s.connections, c).value;
      match m
      case CoachRequest(request, body) => RequestStep(s, one, request, body, begun, asked, id);
      case CoachResponse(request, partial, body) => ResponseStep(s, request, partial, body, begun, asked, id);
      case _ => OtherRouteStep(s, one, m, begun, asked, id);
    }
  }

  lemma {:induction false} ProtocolStep(s: State, e: Event, begun: nat, asked: bool, id: string)
    requires Protocol(s, begun, asked, id)
    requires Begins(s, e, id) ==> begun == 0
    ensures Protocol(Step(s, e), begun + if Begins(s, e, id) then 1 else 0, asked || Asks(e, id), id)
  {
    match e
    case Connected =>
    case SocketClosing(c) =>
    case SocketGone(c) => DropSame(s, c, id);
    case HelloRefused(c) => RejectSame(s, c, id);
    case HelloAccepted(c, kind) => AuthenticateSame(s, c, kind, id);
    case Received(c, m) => ReceivedStep(s, c, m, begun, asked, id);
    case Asked(request, body) => AskStep(s, request, body, begun, asked, id);
    case AskTimedOut(request) =>
      if request in s.answers {
        SettleStep(s, request, Failed(NO_ANSWER), begun, asked, id);
      }
    case ShutDown =>
  }

  lemma {:induction false} ProtocolHolds(events: seq<Event>, id: string)
    requires Begun(events, id) <= 1
    ensures Protocol(Run(events), Begun(events, id), AskedFor(events, id), id)
  {
    if events != [] {
      var before, last := events[..|events| - 1], events[|events| - 1];
      assert events == before + [last];
      ProtocolHolds(before, id);
      ProtocolStep(Run(before), last, Begun(before, id), AskedFor(before, id), id);
    }
  }

  /** Whatever happens, a request that was put in flight once is answered by some partials,
      then at most one terminal response and nothing more; an HTTP caller is settled at most
      once, and none of its responses reaches the editor. */
  lemma {:induction false} EachRequestIsAnsweredOnce(events: seq<Event>, id: string)
    requires Begun(events, id) <= 1
    ensures Orderly(Flags(Run(events).sent, id))
    ensures Settlements(Run(events).settled, id) <= (if AskedFor(events, id) then 1 else 0)
    ensures AskedFor(events, id) ==> Flags(Run(events).sent, id) == []
  {
    ProtocolHolds(events, id);
  }

  /** A response to a request never begun, to one already answered, or to an ask already
      settled changes nothing at all. */
  lemma {:induction false} LateResponsesAreDropped(events: seq<Event>, from: nat, id: string, partial: bool, body: string)
    requires Begun(events, id) <= 1
    requires Begun(events, id) == 0 || Over(Flags(Run(events).sent, id)) || Settlements(Run(events).settled, id) > 0
    ensures Step(Run(events), Received(from, CoachResponse(id, partial, body))) == Run(events)
  {
    ProtocolHolds(events, id);
  }

  /** An ask still waiting ignores partials and is settled by the first terminal response,
      with its text, while nobody else hears of it. */
  lemma {:induction false} AskHearsItsAnswer(events: seq<Event>, from: nat, id: string, partial: bool, body: string)
    requires Begun(events, id) == 1 && AskedFor(events, id) && Settlements(Run(events).settled, id) == 0
    requires FromListed(Run(events), from)
    ensures Step(Run(events), Received(from, CoachResponse(id, partial, body)))
         == if partial then Run(events)
            else Run(events).(answers := Run(events).answers - {id},
                              settled := Run(events).settled + [Settled(id, Answered(body))])
  {
    ProtocolHolds(events, id);
  }

  lemma {:induction false} RunExtended(before: seq<Event>, e: Event)
    ensures Run(before + [e]) == Step(Run(before), e)
  {
    assert (before + [e])[..|before|] == before;
  }

  predicate Closes(e: Event, id: string) {
    e == ShutDown || (e.Received? && e.message.CoachResponse? && e.message.id == id && !e.message.partial)
  }

  lemma {:induction false} PendingIsKept(s: State, e: Event, id: string)
    requires id in s.pending && !Closes(e, id)
    ensures id in Step(s, e).pending
  {
  }

  lemma {:induction false} PendingIsRemembered(before: seq<Event>, middle: seq<Event>, id: string)
    requires id in Run(before).pending && forall e :: e in middle ==> !Closes(e, id)
    ensures id in Run(before + middle).pending
  {
    if middle == [] {
      assert before + middle == before;
    } else {
      var early, last := middle[..|middle| - 1], middle[|middle| - 1];
      PendingIsRemembered(before, early, id);
      assert middle == early + [last] && before + middle == (before + early) + [last];
      RunExtended(before + early, last);
      PendingIsKept(Run(before + early), last, id);
    }
  }

  /** Until its terminal response, everything that answers the editor's request is written to
      whichever editor is connected at that moment. */
  lemma {:induction false} EditorHearsItsReply(before: seq<Event>, c: nat, question: string, middle: seq<Event>, from: nat, id: string,
                                               partial: bool, body: string)
    requires Begins(Run(before), Received(c, CoachRequest(id, question)), id)
    requires forall e :: e in middle ==> !Closes(e, id)
    requires Begun(before + [Received(c, CoachRequest(id, question))] + middle, id) <= 1
    requires FromListed(Run(before + [Received(c, CoachRequest(id, question))] + middle), from)
    ensures var t := Run(before + [Received(c, CoachRequest(id, question))] + middle);
      var editor := FindByKind(t, Editor);
      Step(t, Received(from, CoachResponse(id, partial, body)))
      == t.(pending := if partial then t.pending else t.pending - {id},
            sent := t.sent + if editor.Some? && editor.value.open then [Sent(editor.value.id, Response(id, partial, body))] else [])
  {
    var begun := before + [Received(c, CoachRequest(id, question))];
    RunExtended(before, Received(c, CoachRequest(id, question)));
    PendingIsRemembered(begun, middle, id);
    ProtocolHolds(begun + middle, id);
    var t := Run(begun + middle);
    assert t.sent + [] == t.sent;
  }

  // ---------------------------------------------------------- tool results go home

  predicate Mentions(e: Event, call: string) {
    e.Received? && ((e.message.ToolCall? && e.message.id == call) || (e.message.ToolResult? && e.message.id == call))
  }

  lemma {:induction false} CallerIsKept(s: State, e: Event, call: string)
    requires !Mentions(e, call)
    ensures call in Step(s, e).toolCallers <==> call in s.toolCallers
    ensures call in s.toolCallers ==> Step(s, e).toolCallers[call] == s.toolCallers[call]
  {
  }

  lemma {:induction false} CallerIsRemembered(before: seq<Event>, middle: seq<Event>, call: string, caller: nat)
    requires call in Run(before).toolCallers && Run(before).toolCallers[call] == caller
    requires forall e :: e in middle ==> !Mentions(e, call)
    ensures call in Run(before + middle).toolCallers && Run(before + middle).toolCallers[call] == caller
  {
    if middle == [] {
      assert before + middle == before;
    } else {
      var early, last := middle[..|middle| - 1], middle[|middle| - 1];
      CallerIsRemembered(before, early, call, caller);
      assert middle == early + [last] && before + middle == (before + early) + [last];
      RunExtended(before + early, last);
      CallerIsKept(Run(before + early), last, call);
    }
  }

  /** However many agents join, leave or are replaced in between, the first result after a
      call is written to the connection that made it, or to nobody when that is gone. */
  lemma {:induction false} ResultGoesHome(before: seq<Event>, caller: nat, args: string, middle: seq<Event>, from: nat, call: string, body: string)
    requires FromListed(Run(before), caller) && FindByKind(Run(before), Editor).Some?
    requires forall e :: e in middle ==> !Mentions(e, call)
    requires FromListed(Run(before + [Received(caller, ToolCall(call, args))] + middle), from)
    ensures var t := Run(before + [Received(caller, ToolCall(call, args))] + middle);
      var home := ById(t.connections, caller);
      Step(t, Received(from, ToolResult(call, body)))
      == t.(toolCallers := t.toolCallers - {call},
            sent := t.sent + if home.Some? && home.value.open then [Sent(caller, Result(call, body))] else [])
  {
    var called := before + [Received(caller, ToolCall(call, args))];
    RunExtended(before, Received(caller, ToolCall(call, args)));
    ByIdSpec(Run(before).connections, caller);
    CallerIsRemembered(called, middle, call, caller);
    var t := Run(called + middle);
    ByIdSpec(t.connections, caller);
    assert t.sent + [] == t.sent;
  }
}
