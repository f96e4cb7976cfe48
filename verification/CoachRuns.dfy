/** One request at a time, and a history that is only ever added to. */
module CoachRuns {
  import opened Options
  import opened Sequences
  import opened Coach

  lemma {:induction false} RunMore(restored: seq<Message>, events: seq<Event>, e: Event)
    ensures Run(restored, events + [e]) == Step(Run(restored, events), e)
  {
    assert (events + [e])[..|events|] == events;
  }

  // ---------------------------------------------------------- one request in flight

  /** The event puts the request in flight: it has a text, and nothing else is in flight. */
  predicate Begins(s: State, e: Event, request: string) {
    e.Send? && e.request == request && e.text != "" && s.pending.None?
  }

  /** The event ends the request if it is in flight: its final response, its own error or
      timeout, or one of those that end whatever is in flight. */
  predicate EndsRequest(e: Event, request: string) {
    match e
    case Response(to, completion, _, _) => to == request && completion != Partial
    case Errored(to, _) => to == request || to == ""
    case TimedOut(to) => to == request
    case SendFailed => true
    case Cancel => true
    case CancelDone(_) => true
    case ResultNotDelivered => true
    case Reset => true
    case Swap => true
    case Send(_, _, _) => false
    case ToolCalled(_) => false
    case ConnectFailed(_) => false
  }

  /** The request was put in flight by event `k` and not ended since. */
  predicate InFlightSince(restored: seq<Message>, events: seq<Event>, request: string, k: nat)
    requires k < |events|
  {
    Begins(Run(restored, events[..k]), events[k], request) && forall j :: k < j < |events| ==> !EndsRequest(events[j], request)
  }

  lemma {:induction false} PendingStep(s: State, e: Event, request: string)
    ensures Step(s, e).pending == Some(request)
       <==> (s.pending == Some(request) && !EndsRequest(e, request)) || Begins(s, e, request)
  {
  }

  lemma {:induction false} InFlightLater(restored: seq<Message>, before: seq<Event>, e: Event, request: string, k: nat)
    requires k < |before|
    ensures InFlightSince(restored, before + [e], request, k)
       <==> InFlightSince(restored, before, request, k) && !EndsRequest(e, request)
  {
    var events := before + [e];
    assert events[..k] == before[..k] && events[k] == before[k] && events[|before|] == e;
    assert forall j :: k < j < |before| ==> events[j] == before[j];
    if InFlightSince(restored, events, request, k) {
      assert forall j :: k < j < |before| ==> !EndsRequest(events[j], request);
    }
  }

  lemma {:induction false} InFlightNow(restored: seq<Message>, before: seq<Event>, e: Event, request: string)
    ensures InFlightSince(restored, before + [e], request, |before|) <==> Begins(Run(restored, before), e, request)
  {
    assert (before + [e])[..|before|] == before;
  }

  /** After any run a request is in flight if and only if it was sent when nothing else was and
      nothing has ended it since: neither another request's response, error or timeout, nor
      anything sent in between. */
  lemma {:induction false} InFlightExactly(restored: seq<Message>, events: seq<Event>, request: string)
    ensures Run(restored, events).pending == Some(request)
       <==> exists k: nat :: k < |events| && InFlightSince(restored, events, request, k)
  {
    if events != [] {
      var before, last := events[..|events| - 1], events[|events| - 1];
      assert events == before + [last];
      InFlightExactly(restored, before, request);
      PendingStep(Run(restored, before), last, request);
      InFlightNow(restored, before, last, request);
      if exists k: nat :: k < |before| && InFlightSince(restored, before, request, k) {
        var k: nat :| k < |before| && InFlightSince(restored, before, request, k);
        InFlightLater(restored, before, last, request, k);
      }
      if exists k: nat :: k < |events| && InFlightSince(restored, events, request, k) {
        var k: nat :| k < |events| && InFlightSince(restored, events, request, k);
        if k < |before| {
          InFlightLater(restored, before, last, request, k);
        }
      }
    }
  }

  /** While a request is in flight another message is refused: it is not sent, and the session
      only says so. */
  lemma {:induction false} OneAtATime(restored: seq<Message>, events: seq<Event>, request: string, text: string, notes: seq<string>)
    requires Run(restored, events).pending.Some? && text != ""
    ensures var s := Run(restored, events);
      Run(restored, events + [Send(request, text, notes)])
      == s.(messages := s.messages + [Message(System, BUSY, None, None)])
  {
    RunMore(restored, events, Send(request, text, notes));
  }

  // ---------------------------------------------------------- what was said

  function SaidBy(role: Role, messages: seq<Message>): seq<Message> {
    if messages == [] then []
    else (if messages[0].role == role then [messages[0]] else []) + SaidBy(role, messages[1..])
  }

  lemma {:induction false} SaidByAppend(role: Role, messages: seq<Message>, more: seq<Message>)
    ensures SaidBy(role, messages + more) == SaidBy(role, messages) + SaidBy(role, more)
  {
    if messages == [] {
      assert messages + more == more;
    } else {
      SaidByAppend(role, messages[1..], more);
      FirstAndRest(messages, more);
      DropFirst(messages[0], messages[1..] + more);
      Associative(if messages[0].role == role then [messages[0]] else [], SaidBy(role, messages[1..]), SaidBy(role, more));
    }
  }

  lemma {:induction false} SaidByOne(role: Role, messages: seq<Message>, one: Message)
    ensures SaidBy(role, messages + [one]) == SaidBy(role, messages) + if one.role == role then [one] else []
  {
    SaidByAppend(role, messages, [one]);
    assert [one][1..] == [];
  }

  lemma {:induction false} NotesSayNothing(notes: seq<string>, request: string)
    ensures SaidBy(User, Notes(notes, request)) == []
  {
    if notes != [] {
      var one := Message(System, notes[|notes| - 1], None, Some(request));
      NotesSayNothing(notes[..|notes| - 1], request);
      SaidByOne(User, Notes(notes[..|notes| - 1], request), one);
    }
  }

  lemma {:induction false} RepliesSayNothing(messages: seq<Message>, request: string, text: string, parts: Option<seq<Part>>)
    ensures SaidBy(User, ReplaceStreaming(messages, request, text, parts)) == SaidBy(User, messages)
  {
    if messages == [] {
      assert [Message(Coach, text, parts, Some(request))][1..] == [];
    } else if IsReply(messages[0], request) {
      DropFirst(Rewritten(messages[0], text, parts), messages[1..]);
    } else {
      RepliesSayNothing(messages[1..], request, text, parts);
      DropFirst(messages[0], ReplaceStreaming(messages[1..], request, text, parts));
    }
  }

  /** What the user has said in this session: the text of every message that was taken. */
  function Taken(restored: seq<Message>, events: seq<Event>): seq<Message> {
    if events == [] then SaidBy(User, restored)
    else
      var before, last := events[..|events| - 1], events[|events| - 1];
      match last
      case Reset => []
      case Send(request, text, _) =>
        Taken(restored, before)
        + if text != "" && Run(restored, before).pending.None? then [Message(User, text, None, Some(request))] else []
      case _ => Taken(restored, before)
  }

  lemma {:induction false} OtherStepSays(s: State, e: Event)
    requires !e.Send? && e != Reset
    ensures SaidBy(User, Step(s, e).messages) == SaidBy(User, s.messages)
  {
    match e
    case Response(request, completion, content, misrouted) => ResponseSays(s, request, completion, content, misrouted);
    case SendFailed => SaidByOne(User, s.messages, Message(Problem, NOT_DELIVERED, None, None));
    case Errored(request, text) => SaidByOne(User, s.messages, Message(Problem, text, None, None));
    case TimedOut(request) => SaidByOne(User, s.messages, Message(Problem, ABANDONED, None, Some(request)));
    case Cancel =>
    case CancelDone(request) => SaidByOne(User, s.messages, Message(System, CANCELLED, None, Some(request)));
    case ToolCalled(text) => SaidByOne(User, s.messages, Message(ToolUse, text, None, s.pending));
    case ResultNotDelivered => SaidByOne(User, s.messages, Message(Problem, RESULT_NOT_DELIVERED, None, None));
    case Swap =>
    case ConnectFailed(text) => SaidByOne(User, s.messages, Message(Problem, text, None, None));
  }

  lemma {:induction false} ResponseSays(s: State, request: string, completion: Completion, content: seq<Part>, misrouted: bool)
    ensures SaidBy(User, OnResponse(s, request, completion, content, misrouted).messages) == SaidBy(User, s.messages)
  {
    match completion
    case Partial => RepliesSayNothing(s.messages, request, Flatten(content), None);
    case Unfinished(reason) => SaidByOne(User, s.messages, Message(Problem, reason, None, Some(request)));
    case Complete =>
      SaidByOne(User, s.messages, Message(Problem, MISROUTED, None, Some(request)));
      var warned := if misrouted then Append(s, Problem, MISROUTED, Some(request)) else s;
      RepliesSayNothing(warned.messages, request, Flatten(content), Some(content));
  }

  lemma {:induction false} SendSays(s: State, request: string, text: string, notes: seq<string>)
    ensures SaidBy(User, OnSend(s, request, text, notes).messages)
         == SaidBy(User, s.messages) + if text != "" && s.pending.None? then [Message(User, text, None, Some(request))] else []
  {
    var said := SaidBy(User, s.messages);
    assert said + [] == said;
    if text != "" {
      if s.pending.Some? {
        SaidByOne(User, s.messages, Message(System, BUSY, None, None));
      } else {
        var one := Message(User, text, None, Some(request));
        SaidByOne(User, s.messages, one);
        NotesSayNothing(notes, request);
        SaidByAppend(User, s.messages + [one], Notes(notes, request));
        assert (said + [one]) + [] == said + [one];
      }
    }
  }

  /** The session shows every message that was taken, in order and in its own words, and none
      that was refused, whatever else happens. */
  lemma {:induction false} ShowsWhatWasSaid(restored: seq<Message>, events: seq<Event>)
    ensures SaidBy(User, Run(restored, events).messages) == Taken(restored, events)
  {
    if events != [] {
      var before, last := events[..|events| - 1], events[|events| - 1];
      ShowsWhatWasSaid(restored, before);
      match last
      case Send(request, text, notes) => SendSays(Run(restored, before), request, text, notes);
      case Reset =>
      case _ => OtherStepSays(Run(restored, before), last);
    }
  }

  // ---------------------------------------------------------- the history

  /** Every message keeps its place, and only the reply to the request in flight may be
      rewritten, as a reply to that request. */
  predicate Extends(s: State, t: State) {
    |s.messages| <= |t.messages|
    && forall i :: 0 <= i < |s.messages| ==>
         t.messages[i] == s.messages[i]
         || (s.pending.Some? && IsReply(s.messages[i], s.pending.value) && IsReply(t.messages[i], s.pending.value))
  }

  lemma {:induction false} ReplacedInPlace(messages: seq<Message>, request: string, text: string, parts: Option<seq<Part>>)
    ensures var after := ReplaceStreaming(messages, request, text, parts);
      |messages| <= |after|
      && forall i :: 0 <= i < |messages| ==>
           after[i] == messages[i] || (IsReply(messages[i], request) && IsReply(after[i], request))
  {
    if messages != [] && !IsReply(messages[0], request) {
      ReplacedInPlace(messages[1..], request, text, parts);
      var rest := ReplaceStreaming(messages[1..], request, text, parts);
      forall i | 0 < i < |messages|
        ensures ([messages[0]] + rest)[i] == messages[i]
                || (IsReply(messages[i], request) && IsReply(([messages[0]] + rest)[i], request))
      {
        assert ([messages[0]] + rest)[i] == rest[i - 1] && messages[1..][i - 1] == messages[i];
      }
    }
  }

  /** Nothing but a new session takes a message away. */
  lemma {:induction false} HistoryIsKept(restored: seq<Message>, events: seq<Event>, e: Event)
    requires e != Reset
    ensures Extends(Run(restored, events), Run(restored, events + [e]))
  {
    var s := Run(restored, events);
    RunMore(restored, events, e);
    if e.Response? && s.pending == Some(e.request) {
      ResponseExtends(s, e.request, e.completion, e.content, e.misrouted);
    }
  }

  lemma {:induction false} ResponseExtends(s: State, request: string, completion: Completion, content: seq<Part>, misrouted: bool)
    requires s.pending == Some(request)
    ensures Extends(s, OnResponse(s, request, completion, content, misrouted))
  {
    match completion
    case Partial => ReplacedInPlace(s.messages, request, Flatten(content), None);
    case Unfinished(reason) =>
    case Complete =>
      var warned := if misrouted then Append(s, Problem, MISROUTED, Some(request)) else s;
      ReplacedInPlace(warned.messages, request, Flatten(content), Some(content));
      forall i | 0 <= i < |s.messages| ensures warned.messages[i] == s.messages[i] {
      }
  }

  // ---------------------------------------------------------- everything but the replies

  predicate Replying(m: Message) {
    m.role == Role.Coach && m.request.Some?
  }

  function Announcements(messages: seq<Message>): seq<Message> {
    if messages == [] then []
    else (if Replying(messages[0]) then [] else [messages[0]]) + Announcements(messages[1..])
  }

  /** What an event puts into the session besides a reply, given what is in flight. */
  function Announced(pending: Option<string>, e: Event): seq<Message> {
    match e
    case Send(request, text, notes) =>
      if text == "" then []
      else if pending.Some? then [Message(System, BUSY, None, None)]
      else [Message(User, text, None, Some(request))] + Notes(notes, request)
    case Response(request, completion, _, misrouted) =>
      if pending != Some(request) then []
      else if completion.Unfinished? then [Message(Problem, completion.reason, None, Some(request))]
      else if completion.Complete? && misrouted then [Message(Problem, MISROUTED, None, Some(request))] else []
    case Errored(_, text) => [Message(Problem, text, None, None)]
    case TimedOut(request) => if pending == Some(request) then [Message(Problem, ABANDONED, None, Some(request))] else []
    case ToolCalled(text) => if pending.Some? then [Message(ToolUse, text, None, pending)] else []
    case SendFailed => [Message(Problem, NOT_DELIVERED, None, None)]
    case ResultNotDelivered => [Message(Problem, RESULT_NOT_DELIVERED, None, None)]
    case CancelDone(request) => [Message(System, CANCELLED, None, Some(request))]
    case ConnectFailed(text) => [Message(Problem, text, None, None)]
    case _ => []
  }

  /** All that was announced since the session began. */
  function AnnouncedIn(restored: seq<Message>, events: seq<Event>): seq<Message> {
    if events == [] then Announcements(restored)
    else
      var before, last := events[..|events| - 1], events[|events| - 1];
      if last == Reset then [] else AnnouncedIn(restored, before) + Announced(Run(restored, before).pending, last)
  }

  lemma {:induction false} AnnouncementsAppend(messages: seq<Message>, more: seq<Message>)
    ensures Announcements(messages + more) == Announcements(messages) + Announcements(more)
  {
    if messages == [] {
      assert messages + more == more;
    } else {
      AnnouncementsAppend(messages[1..], more);
      FirstAndRest(messages, more);
      DropFirst(messages[0], messages[1..] + more);
      Associative(if Replying(messages[0]) then [] else [messages[0]], Announcements(messages[1..]), Announcements(more));
    }
  }

  lemma {:induction false} AnnouncesOne(messages: seq<Message>, one: Message)
    requires !Replying(one)
    ensures Announcements(messages + [one]) == Announcements(messages) + [one]
  {
    AnnouncementsAppend(messages, [one]);
    assert [one][1..] == [];
  }

  lemma {:induction false} NotesAreAnnounced(notes: seq<string>, request: string)
    ensures Announcements(Notes(notes, request)) == Notes(notes, request)
  {
    if notes != [] {
      NotesAreAnnounced(notes[..|notes| - 1], request);
      AnnouncesOne(Notes(notes[..|notes| - 1], request), Message(System, notes[|notes| - 1], None, Some(request)));
    }
  }

  lemma {:induction false} RepliesAnnounceNothing(messages: seq<Message>, request: string, text: string, parts: Option<seq<Part>>)
    ensures Announcements(ReplaceStreaming(messages, request, text, parts)) == Announcements(messages)
  {
    if messages == [] {
      assert [Message(Role.Coach, text, parts, Some(request))][1..] == [];
    } else if IsReply(messages[0], request) {
      DropFirst(Rewritten(messages[0], text, parts), messages[1..]);
    } else {
      RepliesAnnounceNothing(messages[1..], request, text, parts);
      DropFirst(messages[0], ReplaceStreaming(messages[1..], request, text, parts));
    }
  }

  lemma {:induction false} SendAnnounces(s: State, request: string, text: string, notes: seq<string>)
    ensures Announcements(OnSend(s, request, text, notes).messages)
         == Announcements(s.messages) + Announced(s.pending, Send(request, text, notes))
  {
    var told := Announcements(s.messages);
    assert told + [] == told;
    if text != "" && s.pending.Some? {
      AnnouncesOne(s.messages, Message(System, BUSY, None, None));
    } else if text != "" {
      var one := Message(User, text, None, Some(request));
      AnnouncesOne(s.messages, one);
      NotesAreAnnounced(notes, request);
      AnnouncementsAppend(s.messages + [one], Notes(notes, request));
      Associative(told, [one], Notes(notes, request));
    }
  }

  lemma {:induction false} ResponseAnnounces(s: State, request: string, completion: Completion, content: seq<Part>, misrouted: bool)
    ensures Announcements(OnResponse(s, request, completion, content, misrouted).messages)
         == Announcements(s.messages) + Announced(s.pending, Response(request, completion, content, misrouted))
  {
    var told := Announcements(s.messages);
    assert told + [] == told;
    match completion
    case Partial => RepliesAnnounceNothing(s.messages, request, Flatten(content), None);
    case Unfinished(reason) => AnnouncesOne(s.messages, Message(Problem, reason, None, Some(request)));
    case Complete =>
      AnnouncesOne(s.messages, Message(Problem, MISROUTED, None, Some(request)));
      var warned := if misrouted then Append(s, Problem, MISROUTED, Some(request)) else s;
      RepliesAnnounceNothing(warned.messages, request, Flatten(content), Some(content));
  }

  lemma {:induction false} StepAnnounces(s: State, e: Event)
    requires e != Reset
    ensures Announcements(Step(s, e).messages) == Announcements(s.messages) + Announced(s.pending, e)
  {
    var told := Announcements(s.messages);
    assert told + [] == told;
    match e
    case Send(request, text, notes) => SendAnnounces(s, request, text, notes);
    case Response(request, completion, content, misrouted) => ResponseAnnounces(s, request, completion, content, misrouted);
    case SendFailed => AnnouncesOne(s.messages, Message(Problem, NOT_DELIVERED, None, None));
    case Errored(request, text) => AnnouncesOne(s.messages, Message(Problem, text, None, None));
    case TimedOut(request) => AnnouncesOne(s.messages, Message(Problem, ABANDONED, None, Some(request)));
    case CancelDone(request) => AnnouncesOne(s.messages, Message(System, CANCELLED, None, Some(request)));
    case ToolCalled(text) => AnnouncesOne(s.messages, Message(ToolUse, text, None, s.pending));
    case ResultNotDelivered => AnnouncesOne(s.messages, Message(Problem, RESULT_NOT_DELIVERED, None, None));
    case ConnectFailed(text) => AnnouncesOne(s.messages, Message(Problem, text, None, None));
    case _ =>
  }

  /** Apart from its replies a session is what its events announced since it began, in order:
      each failure is reported once, a tool call only while a request is in flight, a timeout
      only of the request in flight. */
  lemma {:induction false} ShowsWhatWasAnnounced(restored: seq<Message>, events: seq<Event>)
    ensures Announcements(Run(restored, events).messages) == AnnouncedIn(restored, events)
  {
    if events != [] {
      var before, last := events[..|events| - 1], events[|events| - 1];
      ShowsWhatWasAnnounced(restored, before);
      if last != Reset {
        StepAnnounces(Run(restored, before), last);
      }
    }
  }
}
