/** Where each message goes, told from the connections that are listed after any run. */
module HubDeliveries {
  import opened Options
  import opened Sequences
  import opened Hub
  import opened HubRuns
  import opened HubProtocol

  predicate Is(c: Connection, kind: Kind) {
    c.authenticated && c.kind == Some(kind)
  }

  ghost predicate Present(s: State, kind: Kind) {
    exists c :: c in s.connections && Is(c, kind)
  }

  /** Whoever answers questions: the browser, or the provider when there is no browser. */
  ghost predicate Chat(s: State, c: Connection) {
    c in s.connections && (Is(c, Browser) || (Is(c, Provider) && !Present(s, Browser)))
  }

  /** A frame handed to a connection is lost when its socket is closing. */
  function Written(c: Connection, frame: Frame): seq<Sent> {
    if c.open then [Sent(c.id, frame)] else []
  }

  // ---------------------------------------------------------- finding

  lemma {:induction false} TheOnly(events: seq<Event>, c: Connection, kind: Kind)
    requires c in Run(events).connections && Is(c, kind) && !kind.Mcp?
    ensures FindByKind(Run(events), kind) == Some(c)
  {
    FindSpec(Run(events).connections, kind);
    ExclusiveKinds(events, FindByKind(Run(events), kind).value, c);
  }

  lemma {:induction false} Nobody(s: State, kind: Kind)
    ensures FindByKind(s, kind).Some? <==> Present(s, kind)
  {
    FindSpec(s.connections, kind);
  }

  lemma {:induction false} ChatIsFound(events: seq<Event>, chat: Connection)
    requires Chat(Run(events), chat)
    ensures ProviderConnection(Run(events)) == Some(chat)
  {
    Nobody(Run(events), Browser);
    if Is(chat, Browser) {
      TheOnly(events, chat, Browser);
    } else {
      TheOnly(events, chat, Provider);
    }
  }

  lemma {:induction false} NoChatIsFound(s: State)
    requires !Present(s, Browser) && !Present(s, Provider)
    ensures ProviderConnection(s).None?
  {
    Nobody(s, Browser);
    Nobody(s, Provider);
  }

  lemma {:induction false} ListedIsFound(events: seq<Event>, c: Connection)
    requires c in Run(events).connections
    ensures ById(Run(events).connections, c.id) == Some(c)
  {
    RunIsConsistent(events);
    ByIdOfListed(Run(events).connections, c);
  }

  lemma {:induction false} SendIsWritten(s: State, c: Connection, frame: Frame)
    ensures SendTo(s, c, frame) == s.(sent := s.sent + Written(c, frame))
  {
    assert s.sent + [] == s.sent;
  }

  // ---------------------------------------------------------- questions

  /** The editor's request is written to the chat, unchanged, and to nobody else. */
  lemma {:induction false} RequestReachesChat(events: seq<Event>, editor: Connection, chat: Connection, id: string, body: string)
    requires editor in Run(events).connections && Is(editor, Editor) && Chat(Run(events), chat)
    ensures var s := Run(events);
      Step(s, Received(editor.id, CoachRequest(id, body)))
      == s.(pending := s.pending + {id}, sent := s.sent + Written(chat, Request(id, body)))
  {
    ListedIsFound(events, editor);
    ChatIsFound(events, chat);
    SendIsWritten(Run(events).(pending := Run(events).pending + {id}), chat, Request(id, body));
  }

  /** Without a chat the editor alone is told so, and nothing is put in flight. */
  lemma {:induction false} RequestNeedsChat(events: seq<Event>, editor: Connection, id: string, body: string)
    requires editor in Run(events).connections && Is(editor, Editor)
    requires !Present(Run(events), Browser) && !Present(Run(events), Provider)
    ensures var s := Run(events);
      Step(s, Received(editor.id, CoachRequest(id, body))) == s.(sent := s.sent + Written(editor, Error(Some(id), NO_PROVIDER)))
  {
    ListedIsFound(events, editor);
    NoChatIsFound(Run(events));
    SendIsWritten(Run(events), editor, Error(Some(id), NO_PROVIDER));
  }

  /** Nobody but the editor may ask or publish tools, and nothing counts before a hello. */
  lemma {:induction false} OthersAreIgnored(events: seq<Event>, from: nat, m: Message)
    requires forall c :: c in Run(events).connections && c.id == from ==>
               !c.authenticated || (!Is(c, Editor) && (m.CoachRequest? || m.ToolsAvailable?))
    ensures Step(Run(events), Received(from, m)) == Run(events)
  {
    ByIdSpec(Run(events).connections, from);
  }

  /** An HTTP caller's question is written to the chat, and the caller waits. */
  lemma {:induction false} AskReachesChat(events: seq<Event>, chat: Connection, id: string, body: string)
    requires Chat(Run(events), chat)
    ensures var s := Run(events);
      Step(s, Asked(id, body)) == s.(answers := s.answers + {id}, sent := s.sent + Written(chat, Request(id, body)))
  {
    ChatIsFound(events, chat);
    SendIsWritten(Run(events).(answers := Run(events).answers + {id}), chat, Request(id, body));
  }

  lemma {:induction false} AskNeedsChat(events: seq<Event>, id: string, body: string)
    requires !Present(Run(events), Browser) && !Present(Run(events), Provider)
    ensures var s := Run(events);
      Step(s, Asked(id, body)) == s.(settled := s.settled + [Settled(id, Failed(NO_CHAT))])
  {
    NoChatIsFound(Run(events));
  }

  // ---------------------------------------------------------- tools, errors and status

  /** A tool call is written to the editor, unchanged, whoever makes it. */
  lemma {:induction false} CallReachesEditor(events: seq<Event>, caller: Connection, editor: Connection, call: string, args: string)
    requires caller in Run(events).connections && caller.authenticated
    requires editor in Run(events).connections && Is(editor, Editor)
    ensures var s := Run(events);
      Step(s, Received(caller.id, ToolCall(call, args)))
      == s.(toolCallers := s.toolCallers[call := caller.id], sent := s.sent + Written(editor, Call(call, args)))
  {
    ListedIsFound(events, caller);
    TheOnly(events, editor, Editor);
    SendIsWritten(Run(events).(toolCallers := Run(events).toolCallers[call := caller.id]), editor, Call(call, args));
  }

  /** Without an editor the caller alone is answered, and is not remembered. */
  lemma {:induction false} CallNeedsEditor(events: seq<Event>, caller: Connection, call: string, args: string)
    requires caller in Run(events).connections && caller.authenticated && !Present(Run(events), Editor)
    ensures var s := Run(events);
      Step(s, Received(caller.id, ToolCall(call, args))) == s.(sent := s.sent + Written(caller, Result(call, NO_EDITOR)))
  {
    ListedIsFound(events, caller);
    Nobody(Run(events), Editor);
    SendIsWritten(Run(events), caller, Result(call, NO_EDITOR));
  }

  /** A result whose caller is not on record goes to the chat. */
  lemma {:induction false} StrayResultGoesToChat(events: seq<Event>, from: Connection, chat: Connection, call: string, body: string)
    requires from in Run(events).connections && from.authenticated && Chat(Run(events), chat)
    requires call !in Run(events).toolCallers
    ensures var s := Run(events);
      Step(s, Received(from.id, ToolResult(call, body))) == s.(sent := s.sent + Written(chat, Result(call, body)))
  {
    ListedIsFound(events, from);
    ChatIsFound(events, chat);
    SendIsWritten(Run(events), chat, Result(call, body));
  }

  /** What an adapter reports, the editor alone is told; an error may instead be the answer to
      an HTTP caller. */
  lemma {:induction false} ReportReachesEditor(events: seq<Event>, from: Connection, editor: Connection, body: string,
                                               requestId: Option<string>)
    requires from in Run(events).connections && from.authenticated
    requires editor in Run(events).connections && Is(editor, Editor)
    ensures var s := Run(events);
      && Step(s, Received(from.id, ProviderStatus(body))) == s.(sent := s.sent + Written(editor, Status(body)))
      && Step(s, Received(from.id, ProviderError(requestId, body)))
         == if requestId.Some? && requestId.value != "" && requestId.value in s.answers
            then s.(answers := s.answers - {requestId.value},
                    settled := s.settled + [Settled(requestId.value, if body == "" then Answered("") else Failed(body))])
            else s.(sent := s.sent + Written(editor, Error(requestId, body)))
  {
    ListedIsFound(events, from);
    TheOnly(events, editor, Editor);
    SendIsWritten(Run(events), editor, Status(body));
    SendIsWritten(Run(events), editor, Error(requestId, body));
  }

  /** An HTTP caller that is still waiting is settled once by an error or by its timeout. */
  lemma {:induction false} AskMayFail(events: seq<Event>, from: nat, id: string, body: string)
    requires Begun(events, id) == 1 && AskedFor(events, id) && Settlements(Run(events).settled, id) == 0
    requires FromListed(Run(events), from)
    ensures var s := Run(events);
      && Step(s, AskTimedOut(id)) == s.(answers := s.answers - {id}, settled := s.settled + [Settled(id, Failed(NO_ANSWER))])
      && (id != "" && body != "" ==>
            Step(s, Received(from, ProviderError(Some(id), body)))
            == s.(answers := s.answers - {id}, settled := s.settled + [Settled(id, Failed(body))]))
  {
    ProtocolHolds(events, id);
  }

  // ---------------------------------------------------------- announcements

  /** Everything written to one connection, in order. */
  function FramesTo(sent: seq<Sent>, id: nat): seq<Frame> {
    if sent == [] then []
    else FramesTo(sent[..|sent| - 1], id) + if sent[|sent| - 1].to == id then [sent[|sent| - 1].frame] else []
  }

  lemma {:induction false} FramesAppend(sent: seq<Sent>, one: Sent, id: nat)
    ensures FramesTo(sent + [one], id) == FramesTo(sent, id) + if one.to == id then [one.frame] else []
  {
    assert (sent + [one])[..|sent|] == sent;
  }

  lemma {:induction false} FramesAppendAll(sent: seq<Sent>, more: seq<Sent>, id: nat)
    ensures FramesTo(sent + more, id) == FramesTo(sent, id) + FramesTo(more, id)
  {
    if more == [] {
      assert sent + more == sent;
    } else {
      var init, one := more[..|more| - 1], more[|more| - 1];
      FramesAppendAll(sent, init, id);
      assert sent + more == (sent + init) + [one];
      FramesAppend(sent + init, one, id);
      Associative(FramesTo(sent, id), FramesTo(init, id), if one.to == id then [one.frame] else []);
    }
  }

  lemma {:induction false} FramesWritten(sent: seq<Sent>, c: Connection, frame: Frame, id: nat)
    ensures FramesTo(sent + Written(c, frame), id) == FramesTo(sent, id) + if c.open && c.id == id then [frame] else []
  {
    if c.open {
      FramesAppend(sent, Sent(c.id, frame), id);
    } else {
      assert sent + [] == sent;
    }
  }

  lemma {:induction false} FirstIdOnce(connections: seq<Connection>, j: nat)
    requires 0 < j < |connections| && Distinct(connections)
    ensures connections[0].id != connections[j].id
  {
    assert Compatible(connections[0], connections[1..][j - 1]);
  }

  lemma {:induction false} SameId(connections: seq<Connection>, i: nat, j: nat)
    requires i < |connections| && j < |connections| && Distinct(connections)
    ensures connections[i].id == connections[j].id ==> i == j
  {
    if i > 0 && j > 0 {
      SameId(connections[1..], i - 1, j - 1);
    } else if i != j {
      FirstIdOnce(connections, i + j);
    }
  }

  lemma {:induction false} AnnouncedTo(connections: seq<Connection>, k: nat, frame: Frame, toEditor: bool, i: nat)
    requires k <= |connections| && Distinct(connections) && i < |connections|
    ensures FramesTo(Announce(connections, k, frame, toEditor), connections[i].id)
         == if i < k && Receives(connections[i], toEditor) then [frame] else []
  {
    if k > 0 {
      var before, id := Announce(connections, k - 1, frame, toEditor), connections[i].id;
      AnnouncedTo(connections, k - 1, frame, toEditor, i);
      AnnouncedNext(before, connections[k - 1], frame, toEditor, id);
      SameId(connections, i, k - 1);
      assert FramesTo(before, id) + [] == FramesTo(before, id) && [] + [frame] == [frame];
    }
  }

  lemma {:induction false} AnnouncedNext(before: seq<Sent>, d: Connection, frame: Frame, toEditor: bool, id: nat)
    ensures FramesTo(before + if Receives(d, toEditor) then [Sent(d.id, frame)] else [], id)
         == FramesTo(before, id) + if Receives(d, toEditor) && d.id == id then [frame] else []
  {
    if Receives(d, toEditor) {
      FramesAppend(before, Sent(d.id, frame), id);
    } else {
      assert before + [] == before;
    }
  }

  lemma {:induction false} AnnouncedOnce(s: State, frame: Frame, toEditor: bool, c: Connection)
    requires Distinct(s.connections) && c in s.connections
    ensures FramesTo(AnnounceAll(s, frame, toEditor).sent, c.id)
         == FramesTo(s.sent, c.id) + if Receives(c, toEditor) then [frame] else []
  {
    var n := |s.connections|;
    var i :| 0 <= i < n && s.connections[i] == c;
    FramesAppendAll(s.sent, Announce(s.connections, n, frame, toEditor), c.id);
    AnnouncedTo(s.connections, n, frame, toEditor, i);
  }

  /** The registry as it is: which kinds are listed. */
  ghost function Truth(s: State): Frame {
    Registry(Present(s, Editor), Present(s, Provider) || Present(s, Browser), Present(s, Browser))
  }

  lemma {:induction false} SnapshotIsTrue(s: State)
    ensures Snapshot(s) == Truth(s)
  {
    Nobody(s, Editor);
    Nobody(s, Provider);
    Nobody(s, Browser);
  }

  /** After any run, whoever can be written to was last told which kinds are listed. */
  lemma {:induction false} RegistryIsTrue(events: seq<Event>, c: Connection)
    requires c in Run(events).connections && c.authenticated && c.open
    ensures Last(Run(events).sent, c.id, RegistryView) == Some(Truth(Run(events)))
  {
    RunIsConsistent(events);
    SnapshotIsTrue(Run(events));
    assert Informed(Run(events), c);
  }

  /** The editor's list is stored, and every other adapter is sent it once. */
  lemma {:induction false} ToolsReachEveryone(events: seq<Event>, editor: Connection, list: string, c: Connection)
    requires editor in Run(events).connections && Is(editor, Editor) && c in Run(events).connections
    ensures var s, t := Run(events), Step(Run(events), Received(editor.id, ToolsAvailable(list)));
      && t == s.(tools := Some(list), sent := t.sent)
      && FramesTo(t.sent, c.id) == FramesTo(s.sent, c.id) + if c.authenticated && c.open && !Is(c, Editor) then [Tools(list)] else []
  {
    ListedIsFound(events, editor);
    RunIsConsistent(events);
    AnnouncedOnce(Run(events).(tools := Some(list)), Tools(list), false, c);
  }

  // ---------------------------------------------------------- joining and leaving

  /** The event ends this connection: its socket goes, its hello is refused, a newcomer takes
      its kind over, or the relay stops. */
  ghost predicate Ends(s: State, e: Event, c: Connection) {
    match e
    case SocketGone(id) => id == c.id
    case HelloRefused(id) => id == c.id && !c.authenticated
    case HelloAccepted(id, kind) =>
      !kind.Mcp? && Is(c, kind) && exists d :: d in s.connections && d.id == id && !d.authenticated
    case ShutDown => true
    case _ => false
  }

  /** What the event makes of a connection that stays. */
  function Becomes(e: Event, c: Connection): Connection {
    match e
    case SocketClosing(id) => if id == c.id then c.(open := false) else c
    case HelloAccepted(id, kind) => if id == c.id && !c.authenticated then c.(authenticated := true, kind := Some(kind)) else c
    case _ => c
  }

  /** Exactly who is listed after an event: those it does not end, as it leaves them, and a
      socket that has just connected. */
  lemma {:induction false} WhoIsListed(events: seq<Event>, e: Event, d: Connection)
    ensures d in Step(Run(events), e).connections
       <==> (exists c :: c in Run(events).connections && !Ends(Run(events), e, c) && d == Becomes(e, c))
            || (e.Connected? && d == Connection(Run(events).nextId, None, false, true))
  {
    var s := Run(events);
    RunIsConsistent(events);
    match e
    case Connected =>
    case SocketClosing(id) => ClosingLists(s, id, d);
    case SocketGone(id) => DropLists(s, id, d);
    case HelloRefused(id) => RefusalLists(s, id, d);
    case HelloAccepted(id, kind) => HelloLists(events, id, kind, d);
    case Received(id, m) => RouteLists(s, id, m);
    case Asked(id, body) =>
    case AskTimedOut(id) =>
    case ShutDown =>
  }

  lemma {:induction false} RouteLists(s: State, id: nat, m: Message)
    ensures Step(s, Received(id, m)).connections == s.connections
  {
  }

  lemma {:induction false} ClosingLists(s: State, id: nat, d: Connection)
    requires Consistent(s)
    ensures d in Closing(s, id).connections <==> exists c :: c in s.connections && d == Becomes(SocketClosing(id), c)
  {
    ByIdSpec(s.connections, id);
    if ById(s.connections, id).Some? {
      var found := ById(s.connections, id).value;
      ReplaceSpec(s.connections, found.(open := false));
      if d in Closing(s, id).connections {
        var c := if d.id == id then found else d;
        assert d == Becomes(SocketClosing(id), c);
      }
      forall c | c in s.connections && d == Becomes(SocketClosing(id), c) ensures d in Closing(s, id).connections {
        ByIdOfListed(s.connections, c);
      }
    } else {
      assert d == Becomes(SocketClosing(id), d) || d.id == id;
    }
  }

  lemma {:induction false} DropLists(s: State, id: nat, d: Connection)
    ensures d in Drop(s, id).connections <==> d in s.connections && d.id != id
  {
    ByIdSpec(s.connections, id);
    WithoutSpec(s.connections, id);
  }

  lemma {:induction false} RefusalLists(s: State, id: nat, d: Connection)
    requires Consistent(s)
    ensures d in Reject(s, id).connections <==> d in s.connections && (d.id != id || d.authenticated)
  {
    ByIdSpec(s.connections, id);
    if d in s.connections && d.id == id {
      ByIdOfListed(s.connections, d);
    }
    if ById(s.connections, id).Some? && !ById(s.connections, id).value.authenticated {
      DropLists(SendTo(s, ById(s.connections, id).value, Rejected), id, d);
    }
  }

  lemma {:induction false} HelloLists(events: seq<Event>, id: nat, kind: Kind, d: Connection)
    ensures var s, e := Run(events), HelloAccepted(id, kind);
      d in Step(s, e).connections <==> exists c :: c in s.connections && !Ends(s, e, c) && d == Becomes(e, c)
  {
    var s, e := Run(events), HelloAccepted(id, kind);
    RunIsConsistent(events);
    ByIdSpec(s.connections, id);
    var found := ById(s.connections, id);
    if found.Some? && !found.value.authenticated {
      AuthenticateTold(s, id, found.value, kind);
      AdmittedLists(events, found.value, kind, d);
    } else {
      forall c | c in s.connections && c.id == id ensures c.authenticated {
        ByIdOfListed(s.connections, c);
      }
      assert d == Becomes(e, d) || (d.id == id && !d.authenticated);
    }
  }

  lemma {:induction false} AdmittedLists(events: seq<Event>, newcomer: Connection, kind: Kind, d: Connection)
    requires newcomer in Run(events).connections && !newcomer.authenticated
    ensures var s, e := Run(events), HelloAccepted(newcomer.id, kind);
      d in Admitted(s, newcomer, kind).connections <==> exists c :: c in s.connections && !Ends(s, e, c) && d == Becomes(e, c)
  {
    var s, e := Run(events), HelloAccepted(newcomer.id, kind);
    var now := newcomer.(authenticated := true, kind := Some(kind));
    RunIsConsistent(events);
    AdmittedKeeps(events, newcomer, kind, d);
    if d == now {
      assert !Ends(s, e, newcomer) && d == Becomes(e, newcomer);
    } else if d in s.connections && d.id != newcomer.id && !Ends(s, e, d) {
      assert d == Becomes(e, d);
    }
    forall c | c in s.connections && !Ends(s, e, c) && d == Becomes(e, c)
      ensures d == now || (d in s.connections && d.id != newcomer.id && !Ends(s, e, d))
    {
      ByIdOfListed(s.connections, newcomer);
      ByIdOfListed(s.connections, c);
    }
  }

  lemma {:induction false} AdmittedKeeps(events: seq<Event>, newcomer: Connection, kind: Kind, d: Connection)
    requires newcomer in Run(events).connections && !newcomer.authenticated
    ensures var s, now := Run(events), newcomer.(authenticated := true, kind := Some(kind));
      d in Admitted(s, newcomer, kind).connections
      <==> d == now || (d in s.connections && d.id != newcomer.id && !Ends(s, HelloAccepted(newcomer.id, kind), d))
  {
    var s, now := Run(events), newcomer.(authenticated := true, kind := Some(kind));
    RunIsConsistent(events);
    AdmittedListed(s, newcomer, kind);
    var existing := if kind.Mcp? then None else FindByKind(s, kind);
    var left := if existing.Some? then Without(s.connections, existing.value.id) else s.connections;
    ReplaceSpec(left, now);
    if existing.Some? {
      WithoutSpec(s.connections, existing.value.id);
      FindSpec(s.connections, kind);
      if d in s.connections && d.id == existing.value.id {
        ByIdOfListed(s.connections, d);
        ByIdOfListed(s.connections, existing.value);
      }
    }
    if !kind.Mcp? {
      Nobody(s, kind);
      if d in s.connections && Is(d, kind) {
        TheOnly(events, d, kind);
      }
    }
  }

  /** A newcomer is welcomed, told the tools unless it is the editor, and everyone authenticated
      is told the registry, the newcomer too; each once, and nobody anything else. */
  lemma {:induction false} HelloTells(events: seq<Event>, newcomer: Connection, kind: Kind, c: Connection)
    requires newcomer in Run(events).connections && !newcomer.authenticated
    requires c in Step(Run(events), HelloAccepted(newcomer.id, kind)).connections
    ensures var s, t := Run(events), Step(Run(events), HelloAccepted(newcomer.id, kind));
      FramesTo(t.sent, c.id)
      == FramesTo(s.sent, c.id)
         + (if c.id == newcomer.id && c.open
            then [Welcome] + if !kind.Editor? && s.tools.Some? then [Tools(s.tools.value)] else [] else [])
         + (if c.authenticated && c.open then [Truth(t)] else [])
  {
    var s, now := Run(events), newcomer.(authenticated := true, kind := Some(kind));
    RunIsConsistent(events);
    ListedIsFound(events, newcomer);
    AuthenticateTold(s, newcomer.id, newcomer, kind);
    AdmittedListed(s, newcomer, kind);
    HelloFrames(Admitted(s, newcomer, kind), now, c);
  }

  lemma {:induction false} HelloFrames(s: State, now: Connection, c: Connection)
    requires Distinct(s.connections) && now in s.connections && c in s.connections
    ensures var t := BroadcastRegistry(Told(s, now));
      t.connections == s.connections
      && FramesTo(t.sent, c.id)
         == FramesTo(s.sent, c.id)
            + (if c.id == now.id && c.open
               then [Welcome] + if now.kind != Some(Editor) && s.tools.Some? then [Tools(s.tools.value)] else [] else [])
            + (if c.authenticated && c.open then [Truth(t)] else [])
  {
    var told := Told(s, now);
    ToldView(s, now, 0);
    ToldFrames(s, now, c.id);
    SnapshotIsTrue(told);
    AnnouncedOnce(told, Snapshot(told), true, c);
    SnapshotIsTrue(BroadcastRegistry(told));
    if c.id == now.id {
      ByIdOfListed(s.connections, c);
      ByIdOfListed(s.connections, now);
    }
  }

  lemma {:induction false} ToldFrames(s: State, now: Connection, id: nat)
    ensures FramesTo(Told(s, now).sent, id)
         == FramesTo(s.sent, id)
            + if now.id == id && now.open
              then [Welcome] + if now.kind != Some(Editor) && s.tools.Some? then [Tools(s.tools.value)] else [] else []
  {
    WrittenFrames(s, now, Welcome, id);
    if now.kind != Some(Editor) && s.tools.Some? {
      var list := Tools(s.tools.value);
      WrittenFrames(SendTo(s, now, Welcome), now, list, id);
      Associative(FramesTo(s.sent, id), [Welcome], [list]);
    } else {
      assert [Welcome] + [] == [Welcome];
    }
    assert FramesTo(s.sent, id) + [] == FramesTo(s.sent, id);
  }

  lemma {:induction false} WrittenFrames(s: State, c: Connection, frame: Frame, id: nat)
    ensures FramesTo(SendTo(s, c, frame).sent, id) == FramesTo(s.sent, id) + if c.open && c.id == id then [frame] else []
  {
    SendIsWritten(s, c, frame);
    FramesWritten(s.sent, c, frame, id);
  }

  /** When an adapter's socket goes, every other adapter is told the registry once; the loss of
      a socket that never said hello is not announced. */
  lemma {:induction false} LossTells(events: seq<Event>, lost: Connection, c: Connection)
    requires lost in Run(events).connections && c in Step(Run(events), SocketGone(lost.id)).connections
    ensures var s, t := Run(events), Step(Run(events), SocketGone(lost.id));
      FramesTo(t.sent, c.id)
      == FramesTo(s.sent, c.id) + if lost.authenticated && c.authenticated && c.open then [Truth(t)] else []
  {
    var s := Run(events);
    RunIsConsistent(events);
    ListedIsFound(events, lost);
    assert Proper(lost, s.nextId);
    var left := s.(connections := Without(s.connections, lost.id));
    WithoutSpec(s.connections, lost.id);
    if lost.authenticated {
      SnapshotIsTrue(left);
      AnnouncedOnce(left, Snapshot(left), true, c);
    }
  }

  /** A refused hello is answered with the refusal, and nobody else hears of it. */
  lemma {:induction false} RefusalTells(events: seq<Event>, refused: Connection)
    requires refused in Run(events).connections && !refused.authenticated
    ensures var s, t := Run(events), Step(Run(events), HelloRefused(refused.id));
      t == s.(connections := t.connections, sent := s.sent + Written(refused, Rejected))
  {
    RunIsConsistent(events);
    ListedIsFound(events, refused);
    assert Proper(refused, Run(events).nextId);
    SendIsWritten(Run(events), refused, Rejected);
  }
}
