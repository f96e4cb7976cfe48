/** What holds of the hub after any sequence of events. */
module HubRuns {
  import opened Options
  import opened Hub
  import opened Sequences

  function Run(events: seq<Event>): State {
    if events == [] then EMPTY else Step(Run(events[..|events| - 1]), events[|events| - 1])
  }

  // ---------------------------------------------------------- one of each kind

  /** Two connections that may be listed together: different ids, and not the same
      exclusive kind. */
  predicate Compatible(c: Connection, d: Connection) {
    c.id != d.id && !(c.kind.Some? && c.kind == d.kind && c.kind != Some(Mcp))
  }

  ghost predicate Apart(c: Connection, others: seq<Connection>) {
    forall d :: d in others ==> Compatible(c, d)
  }

  ghost predicate Distinct(connections: seq<Connection>) {
    connections == [] || (Apart(connections[0], connections[1..]) && Distinct(connections[1..]))
  }

  /** Listed under an id already given out, and of a kind exactly when authenticated. */
  predicate Proper(c: Connection, nextId: nat) {
    c.id < nextId && (c.authenticated <==> c.kind.Some?)
  }

  ghost predicate AllProper(connections: seq<Connection>, nextId: nat) {
    forall c :: c in connections ==> Proper(c, nextId)
  }

  lemma {:induction false} ByIdSpec(connections: seq<Connection>, id: nat)
    ensures ById(connections, id).Some? ==> ById(connections, id).value in connections && ById(connections, id).value.id == id
    ensures ById(connections, id).None? ==> forall c :: c in connections ==> c.id != id
  {
    if connections != [] {
      ByIdSpec(connections[1..], id);
    }
  }

  lemma {:induction false} ByIdOfListed(connections: seq<Connection>, c: Connection)
    requires Distinct(connections) && c in connections
    ensures ById(connections, c.id) == Some(c)
  {
    if connections[0] != c {
      assert c in connections[1..];
      ByIdOfListed(connections[1..], c);
    }
  }

  lemma {:induction false} FindSpec(connections: seq<Connection>, kind: Kind)
    ensures FindFrom(connections, kind).Some? ==>
              FindFrom(connections, kind).value in connections
              && FindFrom(connections, kind).value.authenticated && FindFrom(connections, kind).value.kind == Some(kind)
    ensures FindFrom(connections, kind).None? ==>
              forall c :: c in connections ==> !(c.authenticated && c.kind == Some(kind))
  {
    if connections != [] {
      FindSpec(connections[1..], kind);
    }
  }

  lemma {:induction false} WithoutSpec(connections: seq<Connection>, id: nat)
    ensures forall c :: c in Without(connections, id) <==> c in connections && c.id != id
    ensures Distinct(connections) ==> Distinct(Without(connections, id))
  {
    if connections != [] {
      WithoutSpec(connections[1..], id);
    }
  }

  lemma {:induction false} ReplaceSpec(connections: seq<Connection>, c: Connection)
    ensures forall d :: d in Replace(connections, c) ==> d == c || (d in connections && d.id != c.id)
    ensures forall d :: d in connections && d.id != c.id ==> d in Replace(connections, c)
    ensures (exists d :: d in connections && d.id == c.id) ==> c in Replace(connections, c)
  {
    if connections != [] {
      ReplaceSpec(connections[1..], c);
    }
  }

  /** `c` fits in with every connection but the one it replaces. */
  ghost predicate FitsIn(connections: seq<Connection>, c: Connection) {
    forall d :: d in connections && d.id != c.id ==> Compatible(c, d) && Compatible(d, c)
  }

  lemma {:induction false} ReplaceDistinct(connections: seq<Connection>, c: Connection)
    requires Distinct(connections) && FitsIn(connections, c)
    ensures Distinct(Replace(connections, c))
  {
    if connections != [] {
      var first, rest := connections[0], connections[1..];
      ReplaceDistinct(rest, c);
      ReplaceSpec(rest, c);
      if first.id == c.id {
        ReplaceNothing(rest, c);
      }
      var replaced := if first.id == c.id then c else first;
      forall d | d in Replace(rest, c) ensures Compatible(replaced, d) {
        if d != c {
          assert d in rest && Compatible(first, d);
        }
      }
      DropFirst(replaced, Replace(rest, c));
    }
  }

  lemma {:induction false} ReplaceNothing(connections: seq<Connection>, c: Connection)
    requires forall d :: d in connections ==> d.id != c.id
    ensures Replace(connections, c) == connections
  {
    if connections != [] {
      ReplaceNothing(connections[1..], c);
    }
  }

  lemma {:induction false} AppendDistinct(connections: seq<Connection>, c: Connection)
    requires Distinct(connections) && forall d :: d in connections ==> Compatible(d, c)
    ensures Distinct(connections + [c])
  {
    if connections != [] {
      AppendDistinct(connections[1..], c);
      assert (connections + [c])[1..] == connections[1..] + [c];
    } else {
      assert connections + [c] == [c] && [c][1..] == [];
    }
  }

  // ---------------------------------------------------------- views

  datatype View = RegistryView | ToolsView

  predicate Shows(f: Frame, v: View) {
    if v.RegistryView? then f.Registry? else f.Tools?
  }

  /** The last frame of this sort that a connection was sent. */
  function Last(sent: seq<Sent>, id: nat, v: View): Option<Frame> {
    if sent == [] then None
    else
      var n := |sent| - 1;
      if sent[n].to == id && Shows(sent[n].frame, v) then Some(sent[n].frame) else Last(sent[..n], id, v)
  }

  /** Among the first `k` connections, one with this id is due the frame. */
  predicate DueAmong(connections: seq<Connection>, k: nat, id: nat, toEditor: bool)
    requires k <= |connections|
  {
    k > 0 && ((connections[k - 1].id == id && Receives(connections[k - 1], toEditor))
              || DueAmong(connections, k - 1, id, toEditor))
  }

  lemma {:induction false} DueIfListed(connections: seq<Connection>, k: nat, i: nat, toEditor: bool)
    requires i < k <= |connections| && Receives(connections[i], toEditor)
    ensures DueAmong(connections, k, connections[i].id, toEditor)
  {
    if i < k - 1 {
      DueIfListed(connections, k - 1, i, toEditor);
    }
  }

  lemma {:induction false} AnnounceOne(sent: seq<Sent>, before: seq<Sent>, c: Connection, frame: Frame, toEditor: bool,
                                       id: nat, v: View)
    ensures Last(sent + (before + if Receives(c, toEditor) then [Sent(c.id, frame)] else []), id, v)
         == if c.id == id && Receives(c, toEditor) && Shows(frame, v) then Some(frame) else Last(sent + before, id, v)
  {
    if Receives(c, toEditor) {
      Associative(sent, before, [Sent(c.id, frame)]);
    } else {
      assert before + [] == before;
    }
  }

  lemma {:induction false} LastAnnounce(sent: seq<Sent>, connections: seq<Connection>, k: nat, frame: Frame, toEditor: bool,
                                        id: nat, v: View)
    requires k <= |connections|
    ensures Last(sent + Announce(connections, k, frame, toEditor), id, v)
         == if DueAmong(connections, k, id, toEditor) && Shows(frame, v) then Some(frame) else Last(sent, id, v)
  {
    if k == 0 {
      assert sent + [] == sent;
    } else {
      LastAnnounce(sent, connections, k - 1, frame, toEditor, id, v);
      AnnounceOne(sent, Announce(connections, k - 1, frame, toEditor), connections[k - 1], frame, toEditor, id, v);
    }
  }

  lemma {:induction false} LastAnnounceAll(s: State, frame: Frame, toEditor: bool, c: Connection, v: View)
    requires c in s.connections
    ensures Receives(c, toEditor) && Shows(frame, v) ==> Last(AnnounceAll(s, frame, toEditor).sent, c.id, v) == Some(frame)
    ensures !Shows(frame, v) ==> Last(AnnounceAll(s, frame, toEditor).sent, c.id, v) == Last(s.sent, c.id, v)
  {
    LastAnnounce(s.sent, s.connections, |s.connections|, frame, toEditor, c.id, v);
    var i :| 0 <= i < |s.connections| && s.connections[i] == c;
    if Receives(c, toEditor) {
      DueIfListed(s.connections, |s.connections|, i, toEditor);
    }
  }

  /** Nobody has been written to under an id not yet given out. */
  ghost predicate SentBelow(sent: seq<Sent>, nextId: nat) {
    forall i :: 0 <= i < |sent| ==> sent[i].to < nextId
  }

  lemma {:induction false} NeverSent(sent: seq<Sent>, id: nat, v: View)
    requires forall i :: 0 <= i < |sent| ==> sent[i].to != id
    ensures Last(sent, id, v).None?
  {
    if sent != [] {
      NeverSent(sent[..|sent| - 1], id, v);
    }
  }

  lemma {:induction false} AnnounceBelow(connections: seq<Connection>, k: nat, frame: Frame, toEditor: bool, nextId: nat)
    requires k <= |connections| && AllProper(connections, nextId)
    ensures SentBelow(Announce(connections, k, frame, toEditor), nextId)
  {
    if k > 0 {
      AnnounceBelow(connections, k - 1, frame, toEditor, nextId);
      assert connections[k - 1] in connections;
    }
  }

  /** What one connection has been told is the truth. */
  predicate Informed(s: State, c: Connection) {
    && (c.authenticated && c.open ==> Last(s.sent, c.id, RegistryView) == Some(Snapshot(s)))
    && (c.authenticated && c.open && c.kind != Some(Editor) ==>
          Last(s.sent, c.id, ToolsView) == if s.tools.Some? then Some(Tools(s.tools.value)) else None)
    && (!c.authenticated ==> Last(s.sent, c.id, ToolsView).None?)
  }

  ghost predicate AllInformed(s: State) {
    forall c :: c in s.connections ==> Informed(s, c)
  }

  ghost predicate Listed(s: State) {
    Distinct(s.connections) && AllProper(s.connections, s.nextId) && SentBelow(s.sent, s.nextId)
  }

  ghost predicate Consistent(s: State) {
    Listed(s) && AllInformed(s)
  }

  /** Everyone's tool list is right; registries may be about to be sent again. */
  ghost predicate ToolsRight(s: State) {
    forall c :: c in s.connections ==>
      && (c.authenticated && c.open && c.kind != Some(Editor) ==>
            Last(s.sent, c.id, ToolsView) == if s.tools.Some? then Some(Tools(s.tools.value)) else None)
      && (!c.authenticated ==> Last(s.sent, c.id, ToolsView).None?)
  }

  /** A broadcast makes every registry right. */
  lemma {:induction false} BroadcastInforms(s: State)
    requires Listed(s) && ToolsRight(s)
    ensures Consistent(BroadcastRegistry(s))
  {
    var after := BroadcastRegistry(s);
    AnnounceBelow(s.connections, |s.connections|, Snapshot(s), true, s.nextId);
    assert Snapshot(after) == Snapshot(s);
    forall c | c in after.connections ensures Informed(after, c) {
      LastAnnounceAll(s, Snapshot(s), true, c, RegistryView);
      LastAnnounceAll(s, Snapshot(s), true, c, ToolsView);
    }
  }

  lemma {:induction false} AcceptConsistent(s: State)
    requires Consistent(s)
    ensures Consistent(Accept(s))
  {
    var c, after := Connection(s.nextId, None, false, true), Accept(s);
    forall d | d in s.connections ensures Compatible(d, c) {
      assert Proper(d, s.nextId);
    }
    AppendDistinct(s.connections, c);
    NeverSent(s.sent, s.nextId, ToolsView);
    forall k: Kind ensures FindByKind(s, k).Some? <==> FindByKind(after, k).Some? {
      FindSpec(s.connections, k);
      FindSpec(after.connections, k);
      assert FindByKind(s, k).Some? ==> FindByKind(s, k).value in after.connections;
    }
    forall d | d in after.connections ensures Proper(d, after.nextId) && Informed(after, d) {
      if d != c {
        assert d in s.connections && Proper(d, s.nextId) && Informed(s, d);
      }
    }
  }

  lemma {:induction false} ClosingConsistent(s: State, id: nat)
    requires Consistent(s)
    ensures Consistent(Closing(s, id))
  {
    var found := ById(s.connections, id);
    if found.Some? {
      ByIdSpec(s.connections, id);
      var c := found.value.(open := false);
      var after := Closing(s, id);
      DistinctFitsIn(s.connections, found.value, c);
      ReplaceDistinct(s.connections, c);
      ReplaceSpec(s.connections, c);
      forall k: Kind ensures FindByKind(s, k).Some? <==> FindByKind(after, k).Some? {
        FindSpec(s.connections, k);
        FindSpec(after.connections, k);
        if FindByKind(s, k).Some? && FindByKind(s, k).value.id == id {
          ByIdOfListed(s.connections, FindByKind(s, k).value);
        }
      }
      assert Proper(found.value, s.nextId) && Informed(s, found.value);
      forall d | d in after.connections ensures Proper(d, after.nextId) && Informed(after, d) {
        if d != c {
          assert d in s.connections && Proper(d, s.nextId) && Informed(s, d);
        }
      }
    }
  }

  /** A listed connection that keeps its id and kind still fits in. */
  lemma {:induction false} DistinctFitsIn(connections: seq<Connection>, was: Connection, c: Connection)
    requires Distinct(connections) && was in connections && c.id == was.id && c.kind == was.kind
    ensures FitsIn(connections, c)
  {
    if connections[0] == was {
      forall d | d in connections && d.id != c.id ensures Compatible(c, d) && Compatible(d, c) {
        assert d in connections[1..] && Compatible(was, d);
      }
    } else {
      assert was in connections[1..];
      DistinctFitsIn(connections[1..], was, c);
      forall d | d in connections && d.id != c.id ensures Compatible(c, d) && Compatible(d, c) {
        if d !in connections[1..] {
          assert Compatible(d, was);
        }
      }
    }
  }

  lemma {:induction false} WithoutListed(s: State, id: nat)
    requires Consistent(s)
    ensures Listed(s.(connections := Without(s.connections, id)))
    ensures ToolsRight(s.(connections := Without(s.connections, id)))
  {
    var left := s.(connections := Without(s.connections, id));
    WithoutSpec(s.connections, id);
    forall c | c in left.connections ensures Proper(c, s.nextId) && Informed(s, c) {
    }
  }

  lemma {:induction false} DropConsistent(s: State, id: nat)
    requires Consistent(s)
    ensures Consistent(Drop(s, id))
  {
    var found := ById(s.connections, id);
    if found.Some? {
      var left := s.(connections := Without(s.connections, id));
      WithoutListed(s, id);
      if found.value.kind.Some? {
        BroadcastInforms(left);
      } else {
        ByIdSpec(s.connections, id);
        assert Proper(found.value, s.nextId);
        WithoutSpec(s.connections, id);
        forall k: Kind ensures FindByKind(s, k).Some? <==> FindByKind(left, k).Some? {
          FindSpec(s.connections, k);
          FindSpec(left.connections, k);
          if FindByKind(s, k).Some? && FindByKind(s, k).value.id == id {
            ByIdOfListed(s.connections, FindByKind(s, k).value);
          }
        }
        forall c | c in left.connections ensures Informed(left, c) {
          assert Informed(s, c);
        }
      }
    }
  }

  lemma {:induction false} RejectConsistent(s: State, id: nat)
    requires Consistent(s)
    ensures Consistent(Reject(s, id))
  {
    var c := ById(s.connections, id);
    ByIdSpec(s.connections, id);
    if c.Some? && !c.value.authenticated {
      DropConsistent(SendTo(s, c.value, Rejected), id);
    }
  }

  /** The table after a newcomer has taken its kind's place. */
  function Admitted(s: State, c: Connection, kind: Kind): State {
    var existing := if kind.Mcp? then None else FindByKind(s, kind);
    var freed := if existing.Some? then s.(connections := Without(s.connections, existing.value.id)) else s;
    freed.(connections := Replace(freed.connections, c.(authenticated := true, kind := Some(kind))))
  }

  lemma {:induction false} NoOtherOfKind(s: State, kind: Kind)
    requires Consistent(s) && !kind.Mcp?
    ensures var left := if FindByKind(s, kind).Some? then Without(s.connections, FindByKind(s, kind).value.id) else s.connections;
            forall d :: d in left ==> d.kind != Some(kind)
  {
    FindSpec(s.connections, kind);
    if FindByKind(s, kind).Some? {
      var one := FindByKind(s, kind).value;
      WithoutSpec(s.connections, one.id);
      DistinctFitsIn(s.connections, one, one);
    } else {
      forall d | d in s.connections ensures d.kind != Some(kind) {
        assert Proper(d, s.nextId);
      }
    }
  }

  lemma {:induction false} AdmittedListed(s: State, c: Connection, kind: Kind)
    requires Consistent(s) && c in s.connections && !c.authenticated
    ensures Listed(Admitted(s, c, kind))
    ensures forall d :: d in Admitted(s, c, kind).connections ==>
              d == c.(authenticated := true, kind := Some(kind)) || (d in s.connections && d.id != c.id)
    ensures c.(authenticated := true, kind := Some(kind)) in Admitted(s, c, kind).connections
  {
    var existing := if kind.Mcp? then None else FindByKind(s, kind);
    var left := if existing.Some? then Without(s.connections, existing.value.id) else s.connections;
    var now := c.(authenticated := true, kind := Some(kind));
    assert Proper(c, s.nextId);
    if !kind.Mcp? {
      NoOtherOfKind(s, kind);
      FindSpec(s.connections, kind);
    }
    if existing.Some? {
      WithoutSpec(s.connections, existing.value.id);
      ByIdOfListed(s.connections, c);
      ByIdOfListed(s.connections, existing.value);
    }
    assert Distinct(left) && c in left;
    assert FitsIn(left, now);
    ReplaceDistinct(left, now);
    ReplaceSpec(left, now);
    forall d | d in Replace(left, now) ensures Proper(d, s.nextId) {
      if d != now {
        assert d in s.connections;
      }
    }
  }

  /** The state just before the registry goes out: the newcomer has been welcomed and,
      unless it is the editor, handed the tool list. */
  function Told(s: State, now: Connection): State {
    var joined := SendTo(s, now, Welcome);
    if now.kind != Some(Editor) && s.tools.Some? then SendTo(joined, now, Tools(s.tools.value)) else joined
  }

  lemma {:induction false} ToldView(s: State, now: Connection, id: nat)
    ensures Told(s, now) == s.(sent := Told(s, now).sent)
    ensures Last(Told(s, now).sent, id, ToolsView)
         == if now.open && now.id == id && now.kind != Some(Editor) && s.tools.Some? then Some(Tools(s.tools.value))
            else Last(s.sent, id, ToolsView)
  {
  }

  lemma {:induction false} ToldBelow(s: State, now: Connection)
    requires SentBelow(s.sent, s.nextId) && now.id < s.nextId
    ensures SentBelow(Told(s, now).sent, s.nextId)
  {
  }

  lemma {:induction false} AuthenticateTold(s: State, id: nat, c: Connection, kind: Kind)
    requires ById(s.connections, id) == Some(c) && !c.authenticated
    ensures Authenticate(s, id, kind)
         == BroadcastRegistry(Told(Admitted(s, c, kind), c.(authenticated := true, kind := Some(kind))))
  {
  }

  lemma {:induction false} AuthenticateConsistent(s: State, id: nat, kind: Kind)
    requires Consistent(s)
    ensures Consistent(Authenticate(s, id, kind))
  {
    var found := ById(s.connections, id);
    ByIdSpec(s.connections, id);
    if found.Some? && !found.value.authenticated {
      AuthenticateTold(s, id, found.value, kind);
      var c, now := found.value, found.value.(authenticated := true, kind := Some(kind));
      AdmittedListed(s, c, kind);
      var admitted := Admitted(s, c, kind);
      assert Proper(now, s.nextId) && Informed(s, c);
      ToldView(admitted, now, 0);
      ToldBelow(admitted, now);
      ToldToolsRight(s, c, kind);
      BroadcastInforms(Told(admitted, now));
    }
  }

  lemma {:induction false} ToldToolsRight(s: State, c: Connection, kind: Kind)
    requires Consistent(s) && c in s.connections && !c.authenticated
    ensures ToolsRight(Told(Admitted(s, c, kind), c.(authenticated := true, kind := Some(kind))))
  {
    var now, admitted := c.(authenticated := true, kind := Some(kind)), Admitted(s, c, kind);
    AdmittedListed(s, c, kind);
    assert Informed(s, c) && Proper(c, s.nextId);
    var told := Told(admitted, now);
    ToldView(admitted, now, 0);
    forall d | d in told.connections
      ensures d.authenticated && d.open && d.kind != Some(Editor) ==>
                Last(told.sent, d.id, ToolsView) == if s.tools.Some? then Some(Tools(s.tools.value)) else None
      ensures !d.authenticated ==> Last(told.sent, d.id, ToolsView).None?
    {
      ToldView(admitted, now, d.id);
      if d != now {
        assert Informed(s, d);
      }
    }
  }

  lemma {:induction false} ToolsConsistent(s: State, c: Connection, list: string)
    requires Consistent(s)
    ensures Consistent(RouteTools(s, c, list))
  {
    if c.kind == Some(Editor) {
      var stored := s.(tools := Some(list));
      var after := RouteTools(s, c, list);
      AnnounceBelow(s.connections, |s.connections|, Tools(list), false, s.nextId);
      assert Snapshot(after) == Snapshot(s);
      forall d | d in after.connections ensures Informed(after, d) {
        assert Informed(s, d);
        LastAnnounceAll(stored, Tools(list), false, d, RegistryView);
        LastAnnounceAll(stored, Tools(list), false, d, ToolsView);
        if !d.authenticated {
          NotDue(s.connections, |s.connections|, d);
          LastAnnounce(s.sent, s.connections, |s.connections|, Tools(list), false, d.id, ToolsView);
        }
      }
    }
  }

  lemma {:induction false} NotDue(connections: seq<Connection>, k: nat, d: Connection)
    requires k <= |connections| && Distinct(connections) && d in connections && !d.authenticated
    ensures !DueAmong(connections, k, d.id, false)
  {
    if k > 0 {
      NotDue(connections, k - 1, d);
      ByIdOfListed(connections, d);
      ByIdOfListed(connections, connections[k - 1]);
    }
  }

  lemma {:induction false} TargetsAreListed(s: State)
    ensures ProviderConnection(s).Some? ==> ProviderConnection(s).value in s.connections
    ensures FindByKind(s, Editor).Some? ==> FindByKind(s, Editor).value in s.connections
  {
    FindSpec(s.connections, Editor);
    FindSpec(s.connections, Browser);
    FindSpec(s.connections, Provider);
  }

  lemma {:induction false} RequestConsistent(s: State, c: Connection, id: string, body: string)
    requires Consistent(s) && c in s.connections
    ensures Consistent(RouteRequest(s, c, id, body))
  {
    TargetsAreListed(s);
  }

  lemma {:induction false} ResponseConsistent(s: State, id: string, partial: bool, body: string)
    requires Consistent(s)
    ensures Consistent(RouteResponse(s, id, partial, body))
  {
    TargetsAreListed(s);
  }

  lemma {:induction false} CallConsistent(s: State, c: Connection, id: string, body: string)
    requires Consistent(s) && c in s.connections
    ensures Consistent(RouteCall(s, c, id, body))
  {
    TargetsAreListed(s);
  }

  lemma {:induction false} ResultConsistent(s: State, id: string, body: string)
    requires Consistent(s)
    ensures Consistent(RouteResult(s, id, body))
  {
    var t := s.(toolCallers := s.toolCallers - {id});
    if id in s.toolCallers {
      ByIdSpec(s.connections, s.toolCallers[id]);
    } else {
      TargetsAreListed(s);
    }
  }

  lemma {:induction false} ErrorConsistent(s: State, requestId: Option<string>, body: string)
    requires Consistent(s)
    ensures Consistent(RouteError(s, requestId, body))
  {
    TargetsAreListed(s);
  }

  lemma {:induction false} RouteConsistent(s: State, c: Connection, m: Message)
    requires Consistent(s) && c in s.connections
    ensures Consistent(Route(s, c, m))
  {
    match m
    case Ping =>
    case CoachRequest(id, body) => RequestConsistent(s, c, id, body);
    case CoachResponse(id, partial, body) => ResponseConsistent(s, id, partial, body);
    case ToolCall(id, body) => CallConsistent(s, c, id, body);
    case ToolResult(id, body) => ResultConsistent(s, id, body);
    case ToolsAvailable(list) => ToolsConsistent(s, c, list);
    case ProviderError(requestId, body) => ErrorConsistent(s, requestId, body);
    case ProviderStatus(body) =>
      TargetsAreListed(s);
    case Ignored =>
  }

  lemma {:induction false} AskConsistent(s: State, id: string, body: string)
    requires Consistent(s)
    ensures Consistent(Ask(s, id, body))
  {
    TargetsAreListed(s);
  }

  lemma {:induction false} StepConsistent(s: State, e: Event)
    requires Consistent(s)
    ensures Consistent(Step(s, e))
  {
    match e
    case Connected => AcceptConsistent(s);
    case SocketClosing(id) => ClosingConsistent(s, id);
    case SocketGone(id) => DropConsistent(s, id);
    case HelloRefused(id) => RejectConsistent(s, id);
    case HelloAccepted(id, kind) => AuthenticateConsistent(s, id, kind);
    case Received(id, m) =>
      ByIdSpec(s.connections, id);
      if ById(s.connections, id).Some? {
        RouteConsistent(s, ById(s.connections, id).value, m);
      }
    case Asked(id, body) => AskConsistent(s, id, body);
    case AskTimedOut(id) =>
    case ShutDown =>
  }

  /** After any run: one editor, one provider and one browser at most; every adapter that
      can be written to was last sent the true registry and, unless it is the editor, the
      stored tool list, however late it joined. */
  lemma {:induction false} RunIsConsistent(events: seq<Event>)
    ensures Consistent(Run(events))
  {
    if events != [] {
      RunIsConsistent(events[..|events| - 1]);
      StepConsistent(Run(events[..|events| - 1]), events[|events| - 1]);
    }
  }

  lemma {:induction false} ExclusiveKinds(events: seq<Event>, c: Connection, d: Connection)
    requires c in Run(events).connections && d in Run(events).connections
    requires c.authenticated && c.kind == d.kind && c.kind != Some(Mcp)
    ensures c == d
  {
    RunIsConsistent(events);
    var all := Run(events).connections;
    assert Proper(c, Run(events).nextId);
    DistinctFitsIn(all, c, c);
    ByIdOfListed(all, c);
    ByIdOfListed(all, d);
  }
}
