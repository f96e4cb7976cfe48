/** What one conversation has been sent, and the plan that avoids sending it again.

    The chat at the other end is modelled beside the ledger: it keeps the files it was
    given, applies the diffs it was given, and remembers what was only described. The
    theorem is that every note the ledger writes is true of that chat. */
module ContextLedger {
  import opened Options
  import opened Text
  import opened DiffHunks
  import opened DiffText

  const PREVIEW_LINES := 40
  const DIFF_CONTEXT := 3

  datatype LedgerOptions = LedgerOptions(pullThreshold: int, maxDiffFraction: real)

  /** A context item. Only files are reduced; everything else passes through. */
  datatype Item = File(path: string, content: string) | Other(body: string)

  /** What the plan sends for an item. The wording of the notes is not modelled. */
  datatype Planned =
    | AsIs(item: Item)
    | UseYourCopy(path: string)
    | StillOnlyDescribed(path: string)
    | ApplyEdit(path: string, diff: string)
    | Described(path: string, lines: nat, characters: nat, preview: string)

  datatype Coverage = Full | Preview

  /** The truncated SHA-256 of a content, taken to be injective: it names the bytes. */
  datatype Digest = Digest(bytes: string)

  function Hash(content: string): Digest {
    Digest(content)
  }

  datatype SentFile = SentFile(hash: Digest, content: string, lineCount: nat, turn: nat, coverage: Coverage)

  /** The fields of the ledger. */
  datatype Ledger = Ledger(files: map<string, SentFile>, turn: nat, sessionId: Option<string>)

  const EMPTY_LEDGER := Ledger(map[], 0, None)

  // ---------------------------------------------------------- the plan

  function Describe(path: string, content: string): Planned {
    var lines := Split(content);
    Described(path, |lines|, |content|, Join(if |lines| <= PREVIEW_LINES then lines else lines[..PREVIEW_LINES]))
  }

  function Remember(l: Ledger, path: string, content: string, coverage: Coverage): Ledger {
    l.(files := l.files[path := SentFile(Hash(content), content, |Split(content)|, l.turn, coverage)])
  }

  predicate WorthSending(options: LedgerOptions, rendered: string, content: string) {
    rendered != "" && |rendered| as real < |content| as real * options.maxDiffFraction
  }

  /** The text of a diff, unless it is empty or too long to be worth sending. */
  function EditText(options: LedgerOptions, path: string, hunks: seq<Hunk>, content: string): Option<string> {
    if hunks != [] && WorthSending(options, Render(path, hunks), content) then Some(Render(path, hunks)) else None
  }

  /** The diff note for an edited file, when there is one worth sending. */
  function Edit(options: LedgerOptions, before: string, path: string, content: string): Option<string> {
    match Diff(before, content, DIFF_CONTEXT)
    case None => None
    case Some(diff) => EditText(options, path, diff.hunks, content)
  }

  function PlanFile(options: LedgerOptions, l: Ledger, path: string, content: string): (Ledger, Planned) {
    var known := path in l.files;
    var held := known && l.files[path].coverage.Full?;
    if held && l.files[path].hash == Hash(content) then (l, UseYourCopy(path))
    else if known && l.files[path].hash == Hash(content) && l.files[path].coverage.Preview? then
      (l, StillOnlyDescribed(path))
    else
      var edit := if held then Edit(options, l.files[path].content, path, content) else None;
      if edit.Some? then (Remember(l, path, content, Full), ApplyEdit(path, edit.value))
      else if |content| > options.pullThreshold then (Remember(l, path, content, Preview), Describe(path, content))
      else (Remember(l, path, content, Full), AsIs(File(path, content)))
  }

  function PlanOne(options: LedgerOptions, l: Ledger, item: Item): (Ledger, Planned) {
    match item
    case Other(_) => (l, AsIs(item))
    case File(path, content) => PlanFile(options, l, path, content)
  }

  function PlanAll(options: LedgerOptions, l: Ledger, items: seq<Item>): (r: (Ledger, seq<Planned>))
    ensures |r.1| == |items|
  {
    if items == [] then (l, [])
    else
      var n := |items| - 1;
      var before := PlanAll(options, l, items[..n]);
      var last := PlanOne(options, before.0, items[n]);
      (last.0, before.1 + [last.1])
  }

  function Planning(l: Ledger): Ledger {
    l.(turn := l.turn + 1)
  }

  function StartSession(l: Ledger, id: string): Ledger {
    if l.sessionId != Some(id) then Ledger(map[], 0, Some(id)) else l
  }

  /** The object the extension holds for as long as its window is open. */
  class LedgerObject {
    var files: map<string, SentFile>
    var turn: nat
    var sessionId: Option<string>
    const options: LedgerOptions

    function View(): Ledger
      reads this
    {
      Ledger(files, turn, sessionId)
    }

    constructor (options: LedgerOptions)
      ensures View() == EMPTY_LEDGER && this.options == options
    {
      this.options := options;
      files, turn, sessionId := map[], 0, None;
    }

    method Start(id: string)
      modifies this
      ensures View() == StartSession(old(View()), id)
    {
      if sessionId != Some(id) {
        sessionId := Some(id);
        files := map[];
        turn := 0;
      }
    }

    method RememberFile(path: string, content: string, coverage: Coverage)
      modifies this`files
      ensures View() == Remember(old(View()), path, content, coverage)
    {
      files := files[path := SentFile(Hash(content), content, |Split(content)|, turn, coverage)];
    }

    method TryEdit(before: string, path: string, content: string) returns (edit: Option<string>)
      ensures edit == Edit(options, before, path, content)
    {
      var diff := DiffLines(before, content, DIFF_CONTEXT);
      return if diff.None? then None else EditText(options, path, diff.value.hunks, content);
    }

    method PlanOneFile(path: string, content: string) returns (planned: Planned)
      modifies this`files
      ensures (View(), planned) == PlanFile(options, old(View()), path, content)
    {
      var previous := if path in files then Some(files[path]) else None;
      var current := Hash(content);
      var held := if previous.Some? && previous.value.coverage == Full then previous else None;
      if held.Some? && held.value.hash == current {
        return UseYourCopy(path);
      }
      if previous.Some? && previous.value.hash == current && previous.value.coverage == Preview {
        return StillOnlyDescribed(path);
      }
      if held.Some? {
        var edit := TryEdit(held.value.content, path, content);
        if edit.Some? {
          RememberFile(path, content, Full);
          return ApplyEdit(path, edit.value);
        }
      }
      if |content| > options.pullThreshold {
        RememberFile(path, content, Preview);
        return Describe(path, content);
      }
      RememberFile(path, content, Full);
      return AsIs(File(path, content));
    }

    method Plan(items: seq<Item>) returns (planned: seq<Planned>)
      modifies this`files, this`turn
      ensures (View(), planned) == PlanAll(options, Planning(old(View())), items)
    {
      turn := turn + 1;
      ghost var start := View();
      planned := [];
      for k := 0 to |items|
        invariant start.turn == turn && start.sessionId == sessionId
        invariant (View(), planned) == PlanAll(options, start, items[..k])
      {
        assert items[..k + 1][..k] == items[..k];
        match items[k] {
          case Other(_) =>
            planned := planned + [AsIs(items[k])];
          case File(path, content) =>
            var one := PlanOneFile(path, content);
            planned := planned + [one];
        }
      }
      assert items[..|items|] == items;
    }

    method CoverageOf(path: string) returns (coverage: Option<Coverage>)
      ensures coverage == CoverageIn(View(), path)
    {
      coverage := if path in files then Some(files[path].coverage) else None;
    }
  }

  function CoverageIn(l: Ledger, path: string): Option<Coverage> {
    if path in l.files then Some(l.files[path].coverage) else None
  }

  // ---------------------------------------------------------- the chat

  /** What a chat really has: whole files, and files it was only told about. */
  datatype Chat = Chat(held: map<string, string>, described: map<string, string>)

  const NEW_CHAT := Chat(map[], map[])

  /** A chat taking in what it is sent. `content` is the file being talked about. */
  function Receive(chat: Chat, content: string, sent: Planned): Chat {
    match sent
    case AsIs(File(path, body)) => chat.(held := chat.held[path := body])
    case ApplyEdit(path, diff) =>
      if path in chat.held && ApplyText(chat.held[path], diff).Some?
      then chat.(held := chat.held[path := ApplyText(chat.held[path], diff).value])
      else chat.(held := chat.held - {path})
    case Described(path, _, _, _) => chat.(described := chat.described[path := content])
    case _ => chat
  }

  /** Whether what is sent for an item is true of the chat it is sent to. */
  predicate True(chat: Chat, item: Item, sent: Planned) {
    match item
    case Other(_) => sent == AsIs(item)
    case File(path, content) =>
      match sent
      case AsIs(same) => same == item
      case UseYourCopy(p) => p == path && path in chat.held && chat.held[path] == content
      case StillOnlyDescribed(p) => p == path && path in chat.described && chat.described[path] == content
      case ApplyEdit(p, diff) =>
        p == path && path in chat.held && ApplyText(chat.held[path], diff) == Some(content)
      case Described(p, lines, characters, preview) =>
        && p == path && lines == |Split(content)| && characters == |content|
        && preview <= content
        && Split(preview) == Split(content)[..if lines <= PREVIEW_LINES then lines else PREVIEW_LINES]
  }

  function ReceiveOne(chat: Chat, item: Item, sent: Planned): Chat {
    Receive(chat, if item.File? then item.content else "", sent)
  }

  function ReceiveAll(chat: Chat, items: seq<Item>, sent: seq<Planned>): Chat
    requires |sent| == |items|
  {
    if items == [] then chat
    else
      var n := |items| - 1;
      ReceiveOne(ReceiveAll(chat, items[..n], sent[..n]), items[n], sent[n])
  }

  /** Everything sent is true at the moment it arrives. */
  predicate AllTrue(chat: Chat, items: seq<Item>, sent: seq<Planned>)
    requires |sent| == |items|
  {
    items == [] ||
    (var n := |items| - 1;
     AllTrue(chat, items[..n], sent[..n]) && True(ReceiveAll(chat, items[..n], sent[..n]), items[n], sent[n]))
  }

  /** What the ledger believes about one path agrees with what the chat has. */
  predicate AgreesOn(l: Ledger, chat: Chat, path: string) {
    path in l.files ==>
      var f := l.files[path];
      && f.hash == Hash(f.content) && f.lineCount == |Split(f.content)| && f.turn <= l.turn
      && (f.coverage.Full? ==> path in chat.held && chat.held[path] == f.content)
      && (f.coverage.Preview? ==> path in chat.described && chat.described[path] == f.content)
  }

  ghost predicate Agrees(l: Ledger, chat: Chat) {
    forall path :: path in l.files ==> AgreesOn(l, chat, path)
  }

  /** The chat has this version of the file, or has been told about exactly this version. */
  predicate Informed(chat: Chat, path: string, content: string) {
    (path in chat.held && chat.held[path] == content) || (path in chat.described && chat.described[path] == content)
  }

  predicate Printable(item: Item) {
    item.File? ==> OneLine(item.path)
  }

  lemma {:induction false} PreviewIsPrefix(content: string, n: nat)
    requires 0 < n <= |Split(content)|
    ensures Join(Split(content)[..n]) <= content && Split(Join(Split(content)[..n])) == Split(content)[..n]
  {
    var lines := Split(content);
    SplitIsOneLine(content);
    SplitJoin(lines[..n]);
    JoinSplit(content);
    if n < |lines| {
      JoinAppend(lines[..n], lines[n..]);
      assert lines[..n] + lines[n..] == lines;
    } else {
      assert lines[..n] == lines;
    }
  }

  lemma {:induction false} DescribeIsTrue(chat: Chat, path: string, content: string)
    ensures True(chat, File(path, content), Describe(path, content))
  {
    var n := |Split(content)|;
    PreviewIsPrefix(content, if n <= PREVIEW_LINES then n else PREVIEW_LINES);
    assert n <= PREVIEW_LINES ==> Split(content)[..n] == Split(content);
  }

  lemma {:induction false} EditIsTrue(options: LedgerOptions, before: string, path: string, content: string)
    requires OneLine(path) && Edit(options, before, path, content).Some?
    ensures ApplyText(before, Edit(options, before, path, content).value) == Some(content)
  {
    DiffRoundTrip(path, before, content, DIFF_CONTEXT);
  }

  /** One item: the note is true, and belief and fact still agree. */
  lemma {:induction false} PlanFileIsTrue(options: LedgerOptions, l: Ledger, chat: Chat, path: string, content: string)
    requires Agrees(l, chat) && OneLine(path)
    ensures var (l', sent) := PlanFile(options, l, path, content);
            && True(chat, File(path, content), sent)
            && Agrees(l', Receive(chat, content, sent))
            && Informed(Receive(chat, content, sent), path, content)
            && l'.sessionId == l.sessionId && l'.turn == l.turn
  {
    var (l', sent) := PlanFile(options, l, path, content);
    DescribeIsTrue(chat, path, content);
    if sent.ApplyEdit? {
      assert AgreesOn(l, chat, path);
      EditIsTrue(options, l.files[path].content, path, content);
    }
    var chat' := Receive(chat, content, sent);
    assert path in l.files ==> AgreesOn(l, chat, path);
    forall p | p in l'.files ensures AgreesOn(l', chat', p) {
      assert p != path ==> AgreesOn(l, chat, p);
    }
  }

  /** A plan: every note is true when it arrives, the chat ends up informed of every
      file, and belief and fact agree again. */
  lemma {:induction false} PlanIsTrue(options: LedgerOptions, l: Ledger, chat: Chat, items: seq<Item>)
    requires Agrees(l, chat) && forall k :: 0 <= k < |items| ==> Printable(items[k])
    ensures var (l', sent) := PlanAll(options, l, items);
            && AllTrue(chat, items, sent)
            && Agrees(l', ReceiveAll(chat, items, sent))
            && l'.sessionId == l.sessionId && l'.turn == l.turn
  {
    if items != [] {
      var n := |items| - 1;
      PlanIsTrue(options, l, chat, items[..n]);
      var (l0, sent0) := PlanAll(options, l, items[..n]);
      var chat0 := ReceiveAll(chat, items[..n], sent0);
      var sent := PlanAll(options, l, items).1;
      assert sent[..n] == sent0;
      assert Printable(items[n]);
      if items[n].File? {
        PlanFileIsTrue(options, l0, chat0, items[n].path, items[n].content);
      }
    }
  }

  // ---------------------------------------------------------- whole sessions

  datatype Event = Start(id: string) | Plan(items: seq<Item>)

  /** The ledger, and one chat per session. */
  datatype World = World(ledger: Ledger, chats: map<Option<string>, Chat>)

  const EMPTY_WORLD := World(EMPTY_LEDGER, map[])

  function Current(w: World): Chat {
    if w.ledger.sessionId in w.chats then w.chats[w.ledger.sessionId] else NEW_CHAT
  }

  /** A plan counts as delivered to the chat of the session in progress. */
  function Step(options: LedgerOptions, w: World, e: Event): World {
    match e
    case Start(id) => w.(ledger := StartSession(w.ledger, id))
    case Plan(items) =>
      var (l, sent) := PlanAll(options, Planning(w.ledger), items);
      World(l, w.chats[w.ledger.sessionId := ReceiveAll(Current(w), items, sent)])
  }

  function Run(options: LedgerOptions, events: seq<Event>): World {
    if events == [] then EMPTY_WORLD
    else Step(options, Run(options, events[..|events| - 1]), events[|events| - 1])
  }

  predicate PrintableEvent(e: Event) {
    e.Plan? ==> forall k :: 0 <= k < |e.items| ==> Printable(e.items[k])
  }

  lemma {:induction false} PlanningAgrees(l: Ledger, chat: Chat)
    requires Agrees(l, chat)
    ensures Agrees(Planning(l), chat)
  {
    forall p | p in l.files ensures AgreesOn(Planning(l), chat, p) {
      assert AgreesOn(l, chat, p);
    }
  }

  lemma {:induction false} StepAgrees(options: LedgerOptions, w: World, e: Event)
    requires Agrees(w.ledger, Current(w)) && PrintableEvent(e)
    ensures Agrees(Step(options, w, e).ledger, Current(Step(options, w, e)))
    ensures e.Plan? ==> AllTrue(Current(w), e.items, PlanAll(options, Planning(w.ledger), e.items).1)
    ensures forall s :: s in w.chats && (e.Start? || s != w.ledger.sessionId) ==>
              s in Step(options, w, e).chats && Step(options, w, e).chats[s] == w.chats[s]
  {
    match e
    case Start(_) =>
    case Plan(items) =>
      PlanningAgrees(w.ledger, Current(w));
      PlanIsTrue(options, Planning(w.ledger), Current(w), items);
  }

  /** Over any sequence of session starts and plans, belief and fact agree. */
  lemma {:induction false} LedgerAgreesWithChat(options: LedgerOptions, events: seq<Event>)
    requires forall k :: 0 <= k < |events| ==> PrintableEvent(events[k])
    ensures Agrees(Run(options, events).ledger, Current(Run(options, events)))
  {
    if events != [] {
      var n := |events| - 1;
      LedgerAgreesWithChat(options, events[..n]);
      StepAgrees(options, Run(options, events[..n]), events[n]);
    }
  }

  /** What a coverage tells the caller after any run: the content that the chat holds or was
      told about, byte for byte, which is then not sent again; without one, nothing is claimed
      to be known. */
  lemma {:induction false} CoverageIsTrue(options: LedgerOptions, events: seq<Event>, path: string)
    requires forall k :: 0 <= k < |events| ==> PrintableEvent(events[k])
    ensures var w := Run(options, events);
      match CoverageIn(w.ledger, path)
      case Some(Full) =>
        path in Current(w).held && PlanFile(options, w.ledger, path, Current(w).held[path]).1 == UseYourCopy(path)
      case Some(Preview) =>
        path in Current(w).described
        && PlanFile(options, w.ledger, path, Current(w).described[path]).1 == StillOnlyDescribed(path)
      case None =>
        forall content :: var sent := PlanFile(options, w.ledger, path, content).1;
          sent == AsIs(File(path, content)) || sent == Describe(path, content)
  {
    LedgerAgreesWithChat(options, events);
    var w := Run(options, events);
    assert path in w.ledger.files ==> AgreesOn(w.ledger, Current(w), path);
  }

  /** ... and whatever is planned next is true of the chat it goes to. */
  lemma {:induction false} EveryNoteIsTrue(options: LedgerOptions, events: seq<Event>, items: seq<Item>)
    requires forall k :: 0 <= k < |events| ==> PrintableEvent(events[k])
    requires PrintableEvent(Plan(items))
    ensures AllTrue(Current(Run(options, events)), items,
                    PlanAll(options, Planning(Run(options, events).ledger), items).1)
  {
    LedgerAgreesWithChat(options, events);
    StepAgrees(options, Run(options, events), Plan(items));
  }

  lemma {:induction false} OthersStayInformed(options: LedgerOptions, l: Ledger, chat: Chat, item: Item,
                                              path: string, content: string)
    requires Informed(chat, path, content) && (item.File? ==> item.path != path)
    ensures Informed(ReceiveOne(chat, item, PlanOne(options, l, item).1), path, content)
  {
  }

  /** After a plan the chat holds each file, or has been told about that exact version:
      the last item for a path decides. */
  lemma {:induction false} ChatEndsInformed(options: LedgerOptions, l: Ledger, chat: Chat, items: seq<Item>, k: nat)
    requires Agrees(l, chat) && forall i :: 0 <= i < |items| ==> Printable(items[i])
    requires k < |items| && items[k].File?
    requires forall i :: k < i < |items| && items[i].File? ==> items[i].path != items[k].path
    ensures Informed(ReceiveAll(chat, items, PlanAll(options, l, items).1), items[k].path, items[k].content)
  {
    var n := |items| - 1;
    var (l0, sent0) := PlanAll(options, l, items[..n]);
    var chat0 := ReceiveAll(chat, items[..n], sent0);
    assert PlanAll(options, l, items).1[..n] == sent0;
    if k < n {
      ChatEndsInformed(options, l, chat, items[..n], k);
      OthersStayInformed(options, l0, chat0, items[n], items[k].path, items[k].content);
    } else {
      PlanIsTrue(options, l, chat, items[..n]);
      assert Printable(items[n]);
      PlanFileIsTrue(options, l0, chat0, items[n].path, items[n].content);
    }
  }

  /** A session that starts knows nothing, and nothing sent before is claimed in it. */
  lemma {:induction false} NothingCrossesSessions(options: LedgerOptions, events: seq<Event>, id: string, item: Item)
    requires Run(options, events).ledger.sessionId != Some(id) && item.File?
    ensures var l := Run(options, events + [Start(id)]).ledger;
            && l.files == map[]
            && (PlanOne(options, l, item).1 == AsIs(item) || PlanOne(options, l, item).1.Described?)
  {
    var all := events + [Start(id)];
    assert all[..|all| - 1] == events;
  }
}
