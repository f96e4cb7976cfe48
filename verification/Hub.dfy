/** The relay hub: who is connected, what is in flight, and where each message goes. */
module Hub {
  import opened Options

  datatype Kind = Editor | Provider | Browser | Mcp

  /** `open` is whether the socket still accepts frames; a socket can be closing while its
      connection is still listed. */
  datatype Connection = Connection(id: nat, kind: Option<Kind>, authenticated: bool, open: bool)

  /** Frames the hub writes. Bodies that are only passed on are left as `body`. */
  datatype Frame =
    | Welcome
    | Rejected
    | Pong
    | Registry(editor: bool, provider: bool, browser: bool)
    | Tools(list: string)
    | Request(id: string, body: string)
    | Response(id: string, partial: bool, body: string)
    | Error(requestId: Option<string>, body: string)
    | Call(id: string, body: string)
    | Result(id: string, body: string)
    | Status(body: string)

  datatype Sent = Sent(to: nat, frame: Frame)

  /** How an HTTP caller's promise ended. */
  datatype Answer = Answered(text: string) | Failed(reason: string)

  datatype Settled = Settled(id: string, answer: Answer)

  /** Messages from an authenticated adapter. */
  datatype Message =
    | Ping
    | CoachRequest(id: string, body: string)
    | CoachResponse(id: string, partial: bool, body: string)
    | ToolCall(id: string, body: string)
    | ToolResult(id: string, body: string)
    | ToolsAvailable(list: string)
    | ProviderError(requestId: Option<string>, body: string)
    | ProviderStatus(body: string)
    | Ignored

  /** The fields of the hub. `connections` is in insertion order, as a Map iterates;
      `sent` and `settled` record what left it. */
  datatype State = State(connections: seq<Connection>, nextId: nat, pending: set<string>, answers: set<string>,
                         toolCallers: map<string, nat>, tools: Option<string>,
                         sent: seq<Sent>, settled: seq<Settled>)

  const NO_PROVIDER := "No provider is connected to the relay. Start the provider process and try again."
  const NO_EDITOR := "The editor is not connected to the relay."
  const NO_CHAT := "No chat is connected. Pair a tab in the browser add-on."
  const NO_ANSWER := "The chat did not answer in time."

  const EMPTY := State([], 0, {}, {}, map[], None, [], [])

  // ---------------------------------------------------------- looking up

  function FindFrom(connections: seq<Connection>, kind: Kind): Option<Connection> {
    if connections == [] then None
    else if connections[0].authenticated && connections[0].kind == Some(kind) then Some(connections[0])
    else FindFrom(connections[1..], kind)
  }

  function FindByKind(s: State, kind: Kind): Option<Connection> {
    FindFrom(s.connections, kind)
  }

  /** A real chat outranks the mock. */
  function ProviderConnection(s: State): Option<Connection> {
    if FindByKind(s, Browser).Some? then FindByKind(s, Browser) else FindByKind(s, Provider)
  }

  function ById(connections: seq<Connection>, id: nat): Option<Connection> {
    if connections == [] then None
    else if connections[0].id == id then Some(connections[0])
    else ById(connections[1..], id)
  }

  function Without(connections: seq<Connection>, id: nat): seq<Connection> {
    if connections == [] then []
    else if connections[0].id == id then Without(connections[1..], id)
    else [connections[0]] + Without(connections[1..], id)
  }

  function Replace(connections: seq<Connection>, c: Connection): seq<Connection> {
    if connections == [] then []
    else [if connections[0].id == c.id then c else connections[0]] + Replace(connections[1..], c)
  }

  /** The snapshot that the registry frame carries. */
  function Snapshot(s: State): Frame {
    Registry(FindByKind(s, Editor).Some?,
             FindByKind(s, Provider).Some? || FindByKind(s, Browser).Some?,
             FindByKind(s, Browser).Some?)
  }

  // ---------------------------------------------------------- sending

  function SendTo(s: State, c: Connection, frame: Frame): State {
    if c.open then s.(sent := s.sent + [Sent(c.id, frame)]) else s
  }

  function SendToSome(s: State, c: Option<Connection>, frame: Frame): State {
    if c.Some? then SendTo(s, c.value, frame) else s
  }

  predicate Receives(c: Connection, toEditor: bool) {
    c.authenticated && c.open && (toEditor || c.kind != Some(Editor))
  }

  /** Frames for the first `k` connections that are due one. */
  function Announce(connections: seq<Connection>, k: nat, frame: Frame, toEditor: bool): seq<Sent>
    requires k <= |connections|
  {
    if k == 0 then []
    else Announce(connections, k - 1, frame, toEditor)
         + if Receives(connections[k - 1], toEditor) then [Sent(connections[k - 1].id, frame)] else []
  }

  function AnnounceAll(s: State, frame: Frame, toEditor: bool): State {
    s.(sent := s.sent + Announce(s.connections, |s.connections|, frame, toEditor))
  }

  function BroadcastRegistry(s: State): State {
    AnnounceAll(s, Snapshot(s), true)
  }

  // ---------------------------------------------------------- connections

  function Accept(s: State): State {
    s.(connections := s.connections + [Connection(s.nextId, None, false, true)], nextId := s.nextId + 1)
  }

  /** A socket stops accepting frames before its connection is dropped. */
  function Closing(s: State, id: nat): State {
    var c := ById(s.connections, id);
    if c.None? then s else s.(connections := Replace(s.connections, c.value.(open := false)))
  }

  function Drop(s: State, id: nat): State {
    var c := ById(s.connections, id);
    if c.None? then s
    else
      var left := s.(connections := Without(s.connections, id));
      if c.value.kind.Some? then BroadcastRegistry(left) else left
  }

  /** A hello that is refused: a rejection frame, and the connection is gone. */
  function Reject(s: State, id: nat): State {
    var c := ById(s.connections, id);
    if c.None? || c.value.authenticated then s else Drop(SendTo(s, c.value, Rejected), id)
  }

  /** A hello that is accepted. Every kind but agents is exclusive: the newcomer wins. */
  function Authenticate(s: State, id: nat, kind: Kind): State {
    var c := ById(s.connections, id);
    if c.None? || c.value.authenticated then s
    else
      var existing := if kind.Mcp? then None else FindByKind(s, kind);
      var freed := if existing.Some? then s.(connections := Without(s.connections, existing.value.id)) else s;
      var now := c.value.(authenticated := true, kind := Some(kind));
      var joined := SendTo(freed.(connections := Replace(freed.connections, now)), now, Welcome);
      var told := if !kind.Editor? && s.tools.Some? then SendTo(joined, now, Tools(s.tools.value)) else joined;
      BroadcastRegistry(told)
  }

  // ---------------------------------------------------------- routing

  function RouteRequest(s: State, c: Connection, id: string, body: string): State {
    if c.kind != Some(Editor) then s
    else if ProviderConnection(s).None? then
      SendTo(s, c, Error(Some(id), NO_PROVIDER))
    else
      SendTo(s.(pending := s.pending + {id}), ProviderConnection(s).value, Request(id, body))
  }

  function Settle(s: State, id: string, answer: Answer): State {
    s.(answers := s.answers - {id}, settled := s.settled + [Settled(id, answer)])
  }

  function RouteResponse(s: State, id: string, partial: bool, body: string): State {
    if id in s.answers then (if partial then s else Settle(s, id, Answered(body)))
    else if id !in s.pending then s
    else
      SendToSome(if partial then s else s.(pending := s.pending - {id}), FindByKind(s, Editor), Response(id, partial, body))
  }

  function RouteCall(s: State, c: Connection, id: string, body: string): State {
    match FindByKind(s, Editor)
    case None => SendTo(s, c, Result(id, NO_EDITOR))
    case Some(editor) => SendTo(s.(toolCallers := s.toolCallers[id := c.id]), editor, Call(id, body))
  }

  function RouteResult(s: State, id: string, body: string): State {
    var target := if id in s.toolCallers then ById(s.connections, s.toolCallers[id]) else ProviderConnection(s);
    SendToSome(s.(toolCallers := s.toolCallers - {id}), target, Result(id, body))
  }

  function RouteTools(s: State, c: Connection, list: string): State {
    if c.kind != Some(Editor) then s else AnnounceAll(s.(tools := Some(list)), Tools(list), false)
  }

  /** An empty error text counts as an answer: the callback only tests whether there is one. */
  function RouteError(s: State, requestId: Option<string>, body: string): State {
    if requestId.Some? && requestId.value != "" && requestId.value in s.answers then
      Settle(s, requestId.value, if body == "" then Answered("") else Failed(body))
    else SendToSome(s, FindByKind(s, Editor), Error(requestId, body))
  }

  function Route(s: State, c: Connection, m: Message): State {
    match m
    case Ping => SendTo(s, c, Pong)
    case CoachRequest(id, body) => RouteRequest(s, c, id, body)
    case CoachResponse(id, partial, body) => RouteResponse(s, id, partial, body)
    case ToolCall(id, body) => RouteCall(s, c, id, body)
    case ToolResult(id, body) => RouteResult(s, id, body)
    case ToolsAvailable(list) => RouteTools(s, c, list)
    case ProviderError(requestId, body) => RouteError(s, requestId, body)
    case ProviderStatus(body) => SendToSome(s, FindByKind(s, Editor), Status(body))
    case Ignored => s
  }

  // ---------------------------------------------------------- HTTP callers

  /** An HTTP caller asks one question under a fresh request id. */
  function Ask(s: State, id: string, body: string): State {
    if ProviderConnection(s).None? then
      s.(settled := s.settled + [Settled(id, Failed(NO_CHAT))])
    else SendTo(s.(answers := s.answers + {id}), ProviderConnection(s).value, Request(id, body))
  }

  function AskTimeout(s: State, id: string): State {
    if id in s.answers then Settle(s, id, Failed(NO_ANSWER)) else s
  }

  // ---------------------------------------------------------- events

  datatype Event =
    | Connected
    | SocketClosing(id: nat)
    | SocketGone(id: nat)
    | HelloRefused(id: nat)
    | HelloAccepted(id: nat, kind: Kind)
    | Received(id: nat, message: Message)
    | Asked(request: string, body: string)
    | AskTimedOut(request: string)
    | ShutDown

  /** Messages count only from a listed, authenticated connection. */
  function Step(s: State, e: Event): State {
    match e
    case Connected => Accept(s)
    case SocketClosing(id) => Closing(s, id)
    case SocketGone(id) => Drop(s, id)
    case HelloRefused(id) => Reject(s, id)
    case HelloAccepted(id, kind) => Authenticate(s, id, kind)
    case Received(id, m) =>
      var c := ById(s.connections, id);
      if c.Some? && c.value.authenticated then Route(s, c.value, m) else s
    case Asked(id, body) => Ask(s, id, body)
    case AskTimedOut(id) => AskTimeout(s, id)
    case ShutDown => s.(connections := [], pending := {})
  }

  // ---------------------------------------------------------- the hub object

  class RelayHub {
    var connections: seq<Connection>
    var nextId: nat
    var pending: set<string>
    var answers: set<string>
    var toolCallers: map<string, nat>
    var tools: Option<string>
    var sent: seq<Sent>
    var settled: seq<Settled>

    function View(): State
      reads this
    {
      State(connections, nextId, pending, answers, toolCallers, tools, sent, settled)
    }

    constructor ()
      ensures View() == EMPTY
    {
      connections, nextId, pending, answers, toolCallers, tools := [], 0, {}, {}, map[], None;
      sent, settled := [], [];
    }

    method Send(c: Connection, frame: Frame)
      modifies this`sent
      ensures View() == SendTo(old(View()), c, frame)
    {
      if !c.open {
        return;
      }
      sent := sent + [Sent(c.id, frame)];
    }

    method SendAll(frame: Frame, toEditor: bool)
      modifies this`sent
      ensures View() == AnnounceAll(old(View()), frame, toEditor)
    {
      var k := 0;
      ghost var before := sent;
      while k < |connections|
        invariant 0 <= k <= |connections|
        invariant sent == before + Announce(connections, k, frame, toEditor)
      {
        var peer := connections[k];
        if peer.authenticated && (toEditor || peer.kind != Some(Editor)) {
          Send(peer, frame);
        }
        k := k + 1;
      }
    }

    method Broadcast()
      modifies this`sent
      ensures View() == BroadcastRegistry(old(View()))
    {
      var registry := Snapshot(View());
      SendAll(registry, true);
    }

    method AcceptSocket() returns (id: nat)
      modifies this`connections, this`nextId
      ensures View() == Accept(old(View())) && id == old(nextId)
    {
      id := nextId;
      connections := connections + [Connection(id, None, false, true)];
      nextId := nextId + 1;
    }

    method MarkClosing(id: nat)
      modifies this`connections
      ensures View() == Closing(old(View()), id)
    {
      var c := ById(connections, id);
      if c.Some? {
        connections := Replace(connections, c.value.(open := false));
      }
    }

    method DropConnection(id: nat)
      modifies this`connections, this`sent
      ensures View() == Drop(old(View()), id)
    {
      var c := ById(connections, id);
      if c.None? {
        return;
      }
      connections := Without(connections, id);
      if c.value.kind.Some? {
        Broadcast();
      }
    }

    method RejectHello(id: nat)
      modifies this`connections, this`sent
      ensures View() == Reject(old(View()), id)
    {
      var c := ById(connections, id);
      if c.None? || c.value.authenticated {
        return;
      }
      Send(c.value, Rejected);
      DropConnection(id);
    }

    method AcceptHello(id: nat, kind: Kind)
      modifies this`connections, this`sent
      ensures View() == Authenticate(old(View()), id, kind)
    {
      var c := ById(connections, id);
      if c.None? || c.value.authenticated {
        return;
      }
      var existing := if kind == Mcp then None else FindByKind(View(), kind);
      if existing.Some? {
        connections := Without(connections, existing.value.id);
      }
      var now := c.value.(authenticated := true, kind := Some(kind));
      connections := Replace(connections, now);
      Send(now, Welcome);
      if kind != Editor && tools.Some? {
        Send(now, Tools(tools.value));
      }
      Broadcast();
    }

    method OnRequest(c: Connection, id: string, body: string)
      modifies this`pending, this`sent
      ensures View() == RouteRequest(old(View()), c, id, body)
    {
      if c.kind != Some(Editor) {
        return;
      }
      var target := ProviderConnection(View());
      if target.None? {
        Send(c, Error(Some(id), NO_PROVIDER));
        return;
      }
      pending := pending + {id};
      Send(target.value, Request(id, body));
    }

    method OnResponse(id: string, partial: bool, body: string)
      modifies this`pending, this`answers, this`settled, this`sent
      ensures View() == RouteResponse(old(View()), id, partial, body)
    {
      if id in answers {
        if partial {
          return;
        }
        answers := answers - {id};
        settled := settled + [Settled(id, Answered(body))];
        return;
      }
      var target := FindByKind(View(), Editor);
      if id !in pending {
        return;
      }
      if !partial {
        pending := pending - {id};
      }
      if target.Some? {
        Send(target.value, Response(id, partial, body));
      }
    }

    method OnToolCall(c: Connection, id: string, body: string)
      modifies this`toolCallers, this`sent
      ensures View() == RouteCall(old(View()), c, id, body)
    {
      var target := FindByKind(View(), Editor);
      if target.None? {
        Send(c, Result(id, NO_EDITOR));
        return;
      }
      toolCallers := toolCallers[id := c.id];
      Send(target.value, Call(id, body));
    }

    method OnToolResult(id: string, body: string)
      modifies this`toolCallers, this`sent
      ensures View() == RouteResult(old(View()), id, body)
    {
      var callerId := if id in toolCallers then Some(toolCallers[id]) else None;
      toolCallers := toolCallers - {id};
      var target := if callerId.Some? then ById(connections, callerId.value) else ProviderConnection(View());
      if target.Some? {
        Send(target.value, Result(id, body));
      }
    }

    method OnTools(c: Connection, list: string)
      modifies this`tools, this`sent
      ensures View() == RouteTools(old(View()), c, list)
    {
      if c.kind != Some(Editor) {
        return;
      }
      tools := Some(list);
      SendAll(Tools(list), false);
    }

    method OnError(requestId: Option<string>, body: string)
      modifies this`answers, this`settled, this`sent
      ensures View() == RouteError(old(View()), requestId, body)
    {
      if requestId.Some? && requestId.value != "" && requestId.value in answers {
        answers := answers - {requestId.value};
        settled := settled + [Settled(requestId.value, if body == "" then Answered("") else Failed(body))];
        return;
      }
      var target := FindByKind(View(), Editor);
      if target.Some? {
        Send(target.value, Error(requestId, body));
      }
    }

    method AskChat(id: string, body: string)
      modifies this`answers, this`settled, this`sent
      ensures View() == Ask(old(View()), id, body)
    {
      var target := ProviderConnection(View());
      if target.None? {
        settled := settled + [Settled(id, Failed(NO_CHAT))];
        return;
      }
      answers := answers + {id};
      Send(target.value, Request(id, body));
    }

    method OnAskTimeout(id: string)
      modifies this`answers, this`settled
      ensures View() == AskTimeout(old(View()), id)
    {
      if id in answers {
        answers := answers - {id};
        settled := settled + [Settled(id, Failed(NO_ANSWER))];
      }
    }
  }
}
