/** The editor's half of a conversation: one request in flight, and the messages of the
    session that its replies are written into. */
module Coach {
  import opened Options
  import opened Sequences

  // ---------------------------------------------------------- data

  datatype Part = Text(text: string) | Code(language: string, text: string) | Attachment(text: string)

  datatype Role = User | Coach | System | Problem | ToolUse

  datatype Message = Message(role: Role, text: string, parts: Option<seq<Part>>, request: Option<string>)

  datatype Completion = Partial | Complete | Unfinished(reason: string)

  /** `pending` is the request in flight; `messages` is the current session. */
  datatype State = State(pending: Option<string>, messages: seq<Message>)

  const BUSY := "Still working on your last message. Wait for it to land before sending another."
  const CANCELLED := "Cancelled. Any answer that arrives now is ignored."
  const NOT_DELIVERED := "Could not deliver the request."
  const RESULT_NOT_DELIVERED := "Could not return the tool result."
  const ABANDONED := "No response. The request was abandoned."
  const MISROUTED := "That answer came from another chat."

  function PartText(p: Part): string {
    match p
    case Text(text) => text
    case Code(language, code) => "```" + (language + ("\n" + (code + "\n```")))
    case Attachment(filename) => "[attachment: " + (filename + "]")
  }

  function Flatten(parts: seq<Part>): string {
    if parts == [] then ""
    else if |parts| == 1 then PartText(parts[0])
    else PartText(parts[0]) + ("\n\n" + Flatten(parts[1..]))
  }

  // ---------------------------------------------------------- the session

  predicate IsReply(m: Message, request: string) {
    m.role == Coach && m.request == Some(request)
  }

  function Rewritten(m: Message, text: string, parts: Option<seq<Part>>): Message {
    m.(text := text, parts := if parts.Some? then parts else m.parts)
  }

  /** The first reply to the request is rewritten; without one a reply is added. */
  function ReplaceStreaming(messages: seq<Message>, request: string, text: string, parts: Option<seq<Part>>): seq<Message> {
    if messages == [] then [Message(Coach, text, parts, Some(request))]
    else if IsReply(messages[0], request) then [Rewritten(messages[0], text, parts)] + messages[1..]
    else [messages[0]] + ReplaceStreaming(messages[1..], request, text, parts)
  }

  function Append(s: State, role: Role, text: string, request: Option<string>): State {
    s.(messages := s.messages + [Message(role, text, None, request)])
  }

  function Notes(notes: seq<string>, request: string): seq<Message> {
    if notes == [] then []
    else Notes(notes[..|notes| - 1], request) + [Message(System, notes[|notes| - 1], None, Some(request))]
  }

  // ---------------------------------------------------------- events

  /** `SendFailed`, `CancelDone`, `ResultNotDelivered` and `ConnectFailed` come after an await, when another
      request may be in flight already. */
  datatype Event =
    | Send(request: string, text: string, notes: seq<string>)
    | SendFailed
    | Response(request: string, completion: Completion, content: seq<Part>, misrouted: bool)
    | Errored(request: string, text: string)
    | TimedOut(request: string)
    | Cancel
    | CancelDone(request: string)
    | ToolCalled(text: string)
    | ResultNotDelivered
    | Reset
    | Swap
    | ConnectFailed(text: string)

  function Finish(s: State): State {
    s.(pending := None)
  }

  function OnSend(s: State, request: string, text: string, notes: seq<string>): State {
    if text == "" then s
    else if s.pending.Some? then Append(s, System, BUSY, None)
    else
      var asked := Append(s, User, text, Some(request));
      State(Some(request), asked.messages + Notes(notes, request))
  }

  function OnResponse(s: State, request: string, completion: Completion, content: seq<Part>, misrouted: bool): State {
    if s.pending != Some(request) then s
    else
      match completion
      case Partial =>
        if Flatten(content) == "" then s
        else s.(messages := ReplaceStreaming(s.messages, request, Flatten(content), None))
      case Unfinished(reason) => Finish(Append(s, Problem, reason, Some(request)))
      case Complete =>
        var warned := if misrouted then Append(s, Problem, MISROUTED, Some(request)) else s;
        Finish(warned.(messages := ReplaceStreaming(warned.messages, request, Flatten(content), Some(content))))
  }

  function OnError(s: State, request: string, text: string): State {
    var told := Append(s, Problem, text, None);
    if request == "" || s.pending == Some(request) then Finish(told) else told
  }

  function Step(s: State, e: Event): State {
    match e
    case Send(request, text, notes) => OnSend(s, request, text, notes)
    case SendFailed => Append(Finish(s), Problem, NOT_DELIVERED, None)
    case Response(request, completion, content, misrouted) => OnResponse(s, request, completion, content, misrouted)
    case Errored(request, text) => OnError(s, request, text)
    case TimedOut(request) =>
      if s.pending != Some(request) then s else Finish(Append(s, Problem, ABANDONED, Some(request)))
    case Cancel => s.(pending := None)
    case CancelDone(request) => Finish(Append(s, System, CANCELLED, Some(request)))
    case ToolCalled(text) => if s.pending.None? then s else Append(s, ToolUse, text, s.pending)
    case ResultNotDelivered => Finish(Append(s, Problem, RESULT_NOT_DELIVERED, None))
    case Reset => State(None, [])
    case Swap => s.(pending := None)
    case ConnectFailed(text) => Append(s, Problem, text, None)
  }

  /** A session may begin with the messages of a restored one. */
  function Run(restored: seq<Message>, events: seq<Event>): State {
    if events == [] then State(None, restored)
    else Step(Run(restored, events[..|events| - 1]), events[|events| - 1])
  }

  // ---------------------------------------------------------- the objects

  class SessionStore {
    var messages: seq<Message>

    constructor (restored: seq<Message>)
      ensures messages == restored
    {
      messages := restored;
    }

    method NewSession()
      modifies this
      ensures messages == []
    {
      messages := [];
    }

    method AppendMessage(role: Role, text: string, parts: Option<seq<Part>>, request: Option<string>)
      modifies this
      ensures messages == old(messages) + [Message(role, text, parts, request)]
    {
      messages := messages + [Message(role, text, parts, request)];
    }

    method ReplaceStreamingMessage(request: string, text: string, parts: Option<seq<Part>>)
      modifies this
      ensures messages == ReplaceStreaming(old(messages), request, text, parts)
    {
      var k := 0;
      while k < |messages| && !IsReply(messages[k], request)
        invariant 0 <= k <= |messages| && messages == old(messages)
        invariant forall j :: 0 <= j < k ==> !IsReply(messages[j], request)
      {
        k := k + 1;
      }
      ReplaceAt(messages, k, request, text, parts);
      if k == |messages| {
        AppendMessage(Coach, text, parts, Some(request));
        return;
      }
      messages := messages[k := Rewritten(messages[k], text, parts)];
    }
  }

  lemma {:induction false} ReplaceAt(messages: seq<Message>, k: nat, request: string, text: string, parts: Option<seq<Part>>)
    requires k <= |messages| && forall j :: 0 <= j < k ==> !IsReply(messages[j], request)
    requires k < |messages| ==> IsReply(messages[k], request)
    ensures ReplaceStreaming(messages, request, text, parts)
         == if k == |messages| then messages + [Message(Coach, text, parts, Some(request))]
            else messages[k := Rewritten(messages[k], text, parts)]
  {
    if k > 0 {
      ReplaceAt(messages[1..], k - 1, request, text, parts);
      assert messages == [messages[0]] + messages[1..];
    } else if messages != [] {
      assert messages[0 := Rewritten(messages[0], text, parts)] == [Rewritten(messages[0], text, parts)] + messages[1..];
    }
  }

  class CoachController {
    var pending: Option<string>
    const sessions: SessionStore

    function View(): State
      reads this, sessions
    {
      State(pending, sessions.messages)
    }

    constructor (store: SessionStore)
      ensures sessions == store && View() == State(None, store.messages)
    {
      pending, sessions := None, store;
    }

    method FinishRequest()
      modifies this
      ensures View() == Finish(old(View()))
    {
      pending := None;
    }

    method SendMessage(request: string, text: string, notes: seq<string>)
      modifies this, sessions
      ensures View() == OnSend(old(View()), request, text, notes)
    {
      if text == "" {
        return;
      }
      if pending.Some? {
        sessions.AppendMessage(System, BUSY, None, None);
        return;
      }
      sessions.AppendMessage(User, text, None, Some(request));
      ghost var asked := sessions.messages;
      for k := 0 to |notes|
        invariant pending == old(pending) && sessions.messages == asked + Notes(notes[..k], request)
      {
        assert notes[..k + 1][..k] == notes[..k];
        Associative(asked, Notes(notes[..k], request), [Message(System, notes[k], None, Some(request))]);
        sessions.AppendMessage(System, notes[k], None, Some(request));
      }
      assert notes[..|notes|] == notes;
      pending := Some(request);
    }

    method HandleResponse(request: string, completion: Completion, content: seq<Part>, misrouted: bool)
      modifies this, sessions
      ensures View() == OnResponse(old(View()), request, completion, content, misrouted)
    {
      if pending != Some(request) {
        return;
      }
      if completion == Partial {
        var text := Flatten(content);
        if text != "" {
          sessions.ReplaceStreamingMessage(request, text, None);
        }
        return;
      }
      if completion.Unfinished? {
        sessions.AppendMessage(Problem, completion.reason, None, Some(request));
        FinishRequest();
        return;
      }
      if misrouted {
        sessions.AppendMessage(Problem, MISROUTED, None, Some(request));
      }
      sessions.ReplaceStreamingMessage(request, Flatten(content), Some(content));
      FinishRequest();
    }

    method HandleError(request: string, text: string)
      modifies this, sessions
      ensures View() == OnError(old(View()), request, text)
    {
      sessions.AppendMessage(Problem, text, None, None);
      if request == "" || pending == Some(request) {
        FinishRequest();
      }
    }

    method OnTimeout(request: string)
      modifies this, sessions
      ensures View() == Step(old(View()), TimedOut(request))
    {
      if pending != Some(request) {
        return;
      }
      sessions.AppendMessage(Problem, ABANDONED, None, Some(request));
      FinishRequest();
    }

    /** Forgetting the id comes first; the rest may happen much later. */
    method CancelRequest() returns (cancelled: Option<string>)
      modifies this
      ensures View() == Step(old(View()), Cancel) && cancelled == old(pending)
    {
      cancelled := pending;
      pending := None;
    }

    method AfterCancel(request: string)
      modifies this, sessions
      ensures View() == Step(old(View()), CancelDone(request))
    {
      sessions.AppendMessage(System, CANCELLED, None, Some(request));
      FinishRequest();
    }

    method ResetSession()
      modifies this, sessions
      ensures View() == Step(old(View()), Reset)
    {
      pending := None;
      sessions.NewSession();
    }

    method SwapProvider()
      modifies this
      ensures View() == Step(old(View()), Swap)
    {
      pending := None;
    }

    method OnConnectFailed(text: string)
      modifies sessions
      ensures View() == Step(old(View()), ConnectFailed(text))
    {
      sessions.AppendMessage(Problem, text, None, None);
    }

    method OnSendFailed()
      modifies this, sessions
      ensures View() == Step(old(View()), SendFailed)
    {
      FinishRequest();
      sessions.AppendMessage(Problem, NOT_DELIVERED, None, None);
    }

    method OnToolCall(text: string)
      modifies sessions
      ensures View() == Step(old(View()), ToolCalled(text))
    {
      if pending.Some? {
        sessions.AppendMessage(ToolUse, text, None, pending);
      }
    }

    method OnResultNotDelivered()
      modifies this, sessions
      ensures View() == Step(old(View()), ResultNotDelivered)
    {
      sessions.AppendMessage(Problem, RESULT_NOT_DELIVERED, None, None);
      FinishRequest();
    }
  }

  // ---------------------------------------------------------- one reply per request

  function Replies(messages: seq<Message>, request: string): seq<Message> {
    if messages == [] then []
    else (if IsReply(messages[0], request) then [messages[0]] else []) + Replies(messages[1..], request)
  }

  /** What the session should show for a request, from what was accepted for it: its last
      text that was not empty, and in the end its final content. */
  function LastAccepted(restored: seq<Message>, events: seq<Event>, request: string): Option<Message> {
    if events == [] then None
    else
      var before, last := events[..|events| - 1], events[|events| - 1];
      var shown := LastAccepted(restored, before, request);
      var parts := if shown.Some? then shown.value.parts else None;
      match last
      case Reset => None
      case Response(to, completion, content, _) =>
        if to != request || Run(restored, before).pending != Some(request) then shown
        else if completion == Complete then Some(Message(Coach, Flatten(content), Some(content), Some(request)))
        else if completion == Partial && Flatten(content) != "" then Some(Message(Coach, Flatten(content), parts, Some(request)))
        else shown
      case _ => shown
  }

  function AsList(m: Option<Message>): seq<Message> {
    if m.Some? then [m.value] else []
  }

  lemma {:induction false} RepliesAppend(messages: seq<Message>, more: seq<Message>, request: string)
    ensures Replies(messages + more, request) == Replies(messages, request) + Replies(more, request)
  {
    if messages == [] {
      assert messages + more == more;
    } else {
      RepliesAppend(messages[1..], more, request);
      FirstAndRest(messages, more);
      DropFirst(messages[0], messages[1..] + more);
      Associative(if IsReply(messages[0], request) then [messages[0]] else [], Replies(messages[1..], request), Replies(more, request));
    }
  }

  lemma {:induction false} AppendKeepsReplies(s: State, role: Role, text: string, to: Option<string>, request: string)
    requires role != Coach
    ensures Replies(Append(s, role, text, to).messages, request) == Replies(s.messages, request)
  {
    var one := Message(role, text, None, to);
    RepliesAppend(s.messages, [one], request);
    assert [one][1..] == [];
  }

  lemma {:induction false} NotesKeepReplies(notes: seq<string>, to: string, request: string)
    ensures Replies(Notes(notes, to), request) == []
  {
    if notes != [] {
      var init := notes[..|notes| - 1];
      var one := Message(System, notes[|notes| - 1], None, Some(to));
      NotesKeepReplies(init, to, request);
      RepliesAppend(Notes(init, to), [one], request);
      assert [one][1..] == [];
    }
  }

  lemma {:induction false} ReplaceOthers(messages: seq<Message>, to: string, text: string, parts: Option<seq<Part>>, request: string)
    requires to != request
    ensures Replies(ReplaceStreaming(messages, to, text, parts), request) == Replies(messages, request)
  {
    if messages == [] {
      assert [Message(Coach, text, parts, Some(to))][1..] == [];
    } else if IsReply(messages[0], to) {
      DropFirst(Rewritten(messages[0], text, parts), messages[1..]);
    } else {
      ReplaceOthers(messages[1..], to, text, parts, request);
      DropFirst(messages[0], ReplaceStreaming(messages[1..], to, text, parts));
    }
  }

  lemma {:induction false} ReplaceOwn(messages: seq<Message>, request: string, text: string, parts: Option<seq<Part>>)
    requires |Replies(messages, request)| <= 1
    ensures Replies(ReplaceStreaming(messages, request, text, parts), request)
         == [if Replies(messages, request) == [] then Message(Coach, text, parts, Some(request))
             else Rewritten(Replies(messages, request)[0], text, parts)]
  {
    if messages == [] {
      assert [Message(Coach, text, parts, Some(request))][1..] == [];
    } else if IsReply(messages[0], request) {
      DropFirst(Rewritten(messages[0], text, parts), messages[1..]);
      assert Replies(messages[1..], request) == [];
    } else {
      ReplaceOwn(messages[1..], request, text, parts);
      DropFirst(messages[0], ReplaceStreaming(messages[1..], request, text, parts));
    }
  }

  /** Only an accepted response and a reset touch the replies to a request. */
  lemma {:induction false} OtherStepReplies(s: State, e: Event, request: string)
    requires e.Response? ==> e.request != request || s.pending != Some(request) || e.completion.Unfinished?
    requires e != Reset
    ensures Replies(Step(s, e).messages, request) == Replies(s.messages, request)
  {
    match e
    case Send(to, text, notes) => SendReplies(s, to, text, notes, request);
    case SendFailed => AppendKeepsReplies(Finish(s), Problem, NOT_DELIVERED, None, request);
    case Response(to, completion, content, misrouted) => OtherResponse(s, to, completion, content, misrouted, request);
    case Errored(to, text) => AppendKeepsReplies(s, Problem, text, None, request);
    case TimedOut(to) => AppendKeepsReplies(s, Problem, ABANDONED, Some(to), request);
    case Cancel =>
    case CancelDone(to) => AppendKeepsReplies(s, System, CANCELLED, Some(to), request);
    case ToolCalled(text) => AppendKeepsReplies(s, ToolUse, text, s.pending, request);
    case ResultNotDelivered => AppendKeepsReplies(s, Problem, RESULT_NOT_DELIVERED, None, request);
    case Swap =>
    case ConnectFailed(text) => AppendKeepsReplies(s, Problem, text, None, request);
  }

  lemma {:induction false} SendReplies(s: State, to: string, text: string, notes: seq<string>, request: string)
    ensures Replies(OnSend(s, to, text, notes).messages, request) == Replies(s.messages, request)
  {
    AppendKeepsReplies(s, System, BUSY, None, request);
    AppendKeepsReplies(s, User, text, Some(to), request);
    NotesKeepReplies(notes, to, request);
    RepliesAppend(Append(s, User, text, Some(to)).messages, Notes(notes, to), request);
    assert Replies(s.messages, request) + [] == Replies(s.messages, request);
  }

  lemma {:induction false} OtherResponse(s: State, to: string, completion: Completion, content: seq<Part>, misrouted: bool, request: string)
    requires to != request || s.pending != Some(request) || completion.Unfinished?
    ensures Replies(OnResponse(s, to, completion, content, misrouted).messages, request) == Replies(s.messages, request)
  {
    if s.pending == Some(to) {
      match completion
      case Partial => ReplaceOthers(s.messages, to, Flatten(content), None, request);
      case Unfinished(reason) => AppendKeepsReplies(s, Problem, reason, Some(to), request);
      case Complete =>
        AppendKeepsReplies(s, Problem, MISROUTED, Some(to), request);
        var warned := if misrouted then Append(s, Problem, MISROUTED, Some(to)) else s;
        ReplaceOthers(warned.messages, to, Flatten(content), Some(content), request);
    }
  }

  lemma {:induction false} OwnResponse(s: State, request: string, completion: Completion, content: seq<Part>, misrouted: bool)
    requires s.pending == Some(request) && !completion.Unfinished? && |Replies(s.messages, request)| <= 1
    ensures var shown := Replies(s.messages, request);
      Replies(OnResponse(s, request, completion, content, misrouted).messages, request)
      == if completion == Partial && Flatten(content) == "" then shown
         else
           var parts := if completion == Complete then Some(content) else None;
           [if shown == [] then Message(Coach, Flatten(content), parts, Some(request)) else Rewritten(shown[0], Flatten(content), parts)]
  {
    match completion
    case Partial => ReplaceOwn(s.messages, request, Flatten(content), None);
    case Complete =>
      AppendKeepsReplies(s, Problem, MISROUTED, Some(request), request);
      var warned := if misrouted then Append(s, Problem, MISROUTED, Some(request)) else s;
      ReplaceOwn(warned.messages, request, Flatten(content), Some(content));
  }

  /** However sends, replies, cancels, timeouts, resets and swaps interleave, the session holds
      at most one reply to a request, and it is what was last accepted for it. */
  lemma {:induction false} ShowsWhatWasAccepted(restored: seq<Message>, events: seq<Event>, request: string)
    requires Replies(restored, request) == []
    ensures Replies(Run(restored, events).messages, request) == AsList(LastAccepted(restored, events, request))
    ensures LastAccepted(restored, events, request).Some? ==> IsReply(LastAccepted(restored, events, request).value, request)
  {
    if events != [] {
      var before, last := events[..|events| - 1], events[|events| - 1];
      var s := Run(restored, before);
      ShowsWhatWasAccepted(restored, before, request);
      if last.Response? && last.request == request && s.pending == Some(request) && !last.completion.Unfinished? {
        OwnResponse(s, request, last.completion, last.content, last.misrouted);
      } else if last != Reset {
        OtherStepReplies(s, last, request);
      }
    }
  }

  predicate Sends(e: Event, request: string) {
    e.Send? && e.request == request
  }

  /** Once a request is no longer in flight nothing brings it back. */
  lemma {:induction false} StaysClosed(s: State, e: Event, request: string)
    requires s.pending != Some(request) && !Sends(e, request)
    ensures Step(s, e).pending != Some(request)
  {
  }

  /** Once a request is no longer in flight its reply never changes: only a new session
      takes it away, with everything else. */
  lemma {:induction false} ClosedReplyIsFinal(restored: seq<Message>, events: seq<Event>, more: seq<Event>, request: string)
    requires Run(restored, events).pending != Some(request)
    requires forall e :: e in more ==> !Sends(e, request)
    ensures Run(restored, events + more).pending != Some(request)
    ensures Replies(Run(restored, events + more).messages, request)
         == if Reset in more then [] else Replies(Run(restored, events).messages, request)
    decreases |more|
  {
    if more == [] {
      assert events + more == events;
    } else {
      var early, last := more[..|more| - 1], more[|more| - 1];
      RunLater(restored, events, more);
      ClosedReplyIsFinal(restored, events, early, request);
      ClosedStep(Run(restored, events + early), last, request);
    }
  }

  lemma {:induction false} RunLater(restored: seq<Message>, events: seq<Event>, more: seq<Event>)
    requires more != []
    ensures Run(restored, events + more) == Step(Run(restored, events + more[..|more| - 1]), more[|more| - 1])
    ensures Reset in more <==> Reset in more[..|more| - 1] || more[|more| - 1] == Reset
  {
    var early, last, all := more[..|more| - 1], more[|more| - 1], events + more;
    assert more == early + [last];
    assert all[..|all| - 1] == events + early && all[|all| - 1] == last;
  }

  lemma {:induction false} ClosedStep(s: State, e: Event, request: string)
    requires s.pending != Some(request) && !Sends(e, request)
    ensures Step(s, e).pending != Some(request)
    ensures Replies(Step(s, e).messages, request) == if e == Reset then [] else Replies(s.messages, request)
  {
    StaysClosed(s, e, request);
    if e != Reset {
      OtherStepReplies(s, e, request);
    }
  }

  /** A completed request shows its final content, and nothing else, for the rest of the
      session. */
  lemma {:induction false} CompletedReplyIsKept(restored: seq<Message>, before: seq<Event>, request: string, content: seq<Part>,
                                                misrouted: bool, more: seq<Event>)
    requires Replies(restored, request) == [] && Run(restored, before).pending == Some(request)
    requires Reset !in more && forall e :: e in more ==> !Sends(e, request)
    ensures Replies(Run(restored, before + [Response(request, Complete, content, misrouted)] + more).messages, request)
         == [Message(Coach, Flatten(content), Some(content), Some(request))]
  {
    var last := Response(request, Complete, content, misrouted);
    ShowsWhatWasAccepted(restored, before + [last], request);
    ClosedReplyIsFinal(restored, before + [last], more, request);
  }
}
