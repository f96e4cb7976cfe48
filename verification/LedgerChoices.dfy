/** Which form a file is sent in, told from what the chat has, and what that leaves it with. */
module LedgerChoices {
  import opened Options
  import opened Text
  import opened DiffHunks
  import opened DiffText
  import opened ContextLedger

  // ---------------------------------------------------------- the choice

  /** The text of the diff with three lines of context, when it is short for this content. */
  predicate ShortEdit(options: LedgerOptions, before: string, path: string, content: string, text: string) {
    && Diff(before, content, 3).Some? && text == Render(path, Diff(before, content, 3).value.hunks)
    && |text| as real < |content| as real * options.maxDiffFraction
  }

  /** A file of no more than the threshold is sent whole; a longer one is described by its size
      and its first forty lines. */
  predicate SentAfresh(options: LedgerOptions, path: string, content: string, sent: Planned) {
    if |content| <= options.pullThreshold then sent == AsIs(File(path, content))
    else
      && sent.Described? && sent.path == path
      && sent.lines == |Split(content)| && sent.characters == |content|
      && Split(sent.preview) == if |Split(content)| <= 40 then Split(content) else Split(content)[..40]
  }

  /** The form a file is sent in: a pointer to an equal copy, an edit of the copy when that is
      short, a reminder of an equal description, and otherwise afresh. */
  ghost predicate Chosen(options: LedgerOptions, coverage: Option<Coverage>, chat: Chat, path: string, content: string,
                         sent: Planned) {
    match coverage
    case Some(Full) =>
      path in chat.held
      && (if chat.held[path] == content then sent == UseYourCopy(path)
          else if exists text :: ShortEdit(options, chat.held[path], path, content, text) then
            sent.ApplyEdit? && sent.path == path && ShortEdit(options, chat.held[path], path, content, sent.diff)
          else SentAfresh(options, path, content, sent))
    case Some(Preview) =>
      path in chat.described
      && (if chat.described[path] == content then sent == StillOnlyDescribed(path)
          else SentAfresh(options, path, content, sent))
    case None => SentAfresh(options, path, content, sent)
  }

  lemma {:induction false} RenderIsNotEmpty(path: string, hunks: seq<Hunk>)
    ensures Render(path, hunks) != ""
  {
  }

  lemma {:induction false} EditIsShort(options: LedgerOptions, before: string, path: string, content: string)
    requires before != content
    ensures Edit(options, before, path, content).Some? <==> exists text :: ShortEdit(options, before, path, content, text)
    ensures Edit(options, before, path, content).Some? ==>
              ShortEdit(options, before, path, content, Edit(options, before, path, content).value)
  {
    if Diff(before, content, 3).Some? {
      var hunks := Diff(before, content, 3).value.hunks;
      EmptyExactlyWhenEqual(before, content, 3);
      RenderIsNotEmpty(path, hunks);
      assert ShortEdit(options, before, path, content, Render(path, hunks)) <==> EditText(options, path, hunks, content).Some?;
    }
  }

  lemma {:induction false} DescribedInFull(chat: Chat, path: string, content: string)
    ensures var sent := Describe(path, content);
      && sent.lines == |Split(content)| && sent.characters == |content|
      && Split(sent.preview) == if |Split(content)| <= 40 then Split(content) else Split(content)[..40]
  {
    DescribeIsTrue(chat, path, content);
    assert Split(content)[..|Split(content)|] == Split(content);
  }

  lemma {:induction false} FileIsChosen(options: LedgerOptions, l: Ledger, chat: Chat, path: string, content: string)
    requires Agrees(l, chat)
    ensures Chosen(options, CoverageIn(l, path), chat, path, content, PlanFile(options, l, path, content).1)
  {
    DescribedInFull(chat, path, content);
    if path in l.files {
      assert AgreesOn(l, chat, path);
      if l.files[path].coverage.Full? && l.files[path].content != content {
        EditIsShort(options, l.files[path].content, path, content);
      }
    }
  }

  // ---------------------------------------------------------- plans

  /** What came before an item of a plan: the ledger and the chat it was planned for. */
  lemma {:induction false} PlanAt(options: LedgerOptions, l: Ledger, items: seq<Item>, k: nat)
    requires k < |items|
    ensures var before := PlanAll(options, l, items[..k]);
      && PlanAll(options, l, items).1[..k] == before.1
      && PlanAll(options, l, items).1[k] == PlanOne(options, before.0, items[k]).1
    decreases |items|
  {
    var n := |items| - 1;
    var before, last := PlanAll(options, l, items[..n]), PlanOne(options, PlanAll(options, l, items[..n]).0, items[n]);
    assert PlanAll(options, l, items).1 == before.1 + [last.1];
    if k < n {
      PlanAt(options, l, items[..n], k);
      assert items[..n][..k] == items[..k];
      FirstOfMore(before.1, last.1, k);
    } else {
      assert (before.1 + [last.1])[..n] == before.1;
    }
  }

  lemma {:induction false} FirstOfMore(sent: seq<Planned>, one: Planned, k: nat)
    requires k < |sent|
    ensures (sent + [one])[..k] == sent[..k] && (sent + [one])[k] == sent[k]
  {
  }

  lemma {:induction false} AllPrintable(items: seq<Item>, k: nat)
    requires PrintableEvent(Plan(items)) && k <= |items|
    ensures PrintableEvent(Plan(items[..k]))
  {
  }

  /** After any run of sessions and plans, every file of the next plan is sent in the form that
      fits what the chat has when its turn comes. */
  lemma {:induction false} EachNoteIsChosen(options: LedgerOptions, events: seq<Event>, items: seq<Item>, k: nat)
    requires forall i :: 0 <= i < |events| ==> PrintableEvent(events[i])
    requires PrintableEvent(Plan(items)) && k < |items| && items[k].File?
    ensures var w := Run(options, events);
      var sent, before := PlanAll(options, Planning(w.ledger), items).1, PlanAll(options, Planning(w.ledger), items[..k]);
      Chosen(options, CoverageIn(before.0, items[k].path), ReceiveAll(Current(w), items[..k], sent[..k]),
             items[k].path, items[k].content, sent[k])
  {
    var w := Run(options, events);
    LedgerAgreesWithChat(options, events);
    PlanningAgrees(w.ledger, Current(w));
    AllPrintable(items, k);
    PlanIsTrue(options, Planning(w.ledger), Current(w), items[..k]);
    PlanAt(options, Planning(w.ledger), items, k);
    var before := PlanAll(options, Planning(w.ledger), items[..k]);
    FileIsChosen(options, before.0, ReceiveAll(Current(w), items[..k], before.1), items[k].path, items[k].content);
  }

  /** Starting the session that is already going on forgets nothing. */
  lemma {:induction false} SameSessionIsKept(options: LedgerOptions, events: seq<Event>, id: string)
    requires Run(options, events).ledger.sessionId == Some(id)
    ensures Run(options, events + [Start(id)]) == Run(options, events)
  {
    var all := events + [Start(id)];
    assert all[..|all| - 1] == events;
  }

  // ---------------------------------------------------------- short files are held

  /** Only files longer than the threshold are on record as described. */
  ghost predicate LongPreviews(options: LedgerOptions, l: Ledger) {
    forall path :: path in l.files && l.files[path].coverage.Preview? ==> |l.files[path].content| > options.pullThreshold
  }

  lemma {:induction false} PlanKeepsLong(options: LedgerOptions, l: Ledger, items: seq<Item>)
    requires LongPreviews(options, l)
    ensures LongPreviews(options, PlanAll(options, l, items).0)
  {
    if items != [] {
      PlanKeepsLong(options, l, items[..|items| - 1]);
    }
  }

  lemma {:induction false} RunKeepsLong(options: LedgerOptions, events: seq<Event>)
    ensures LongPreviews(options, Run(options, events).ledger)
  {
    if events != [] {
      var before, last := events[..|events| - 1], events[|events| - 1];
      RunKeepsLong(options, before);
      if last.Plan? {
        PlanKeepsLong(options, Planning(Run(options, before).ledger), last.items);
      }
    }
  }

  /** A path on record as described was described, and is longer than the threshold. */
  lemma {:induction false} PreviewsAreLong(options: LedgerOptions, events: seq<Event>, path: string)
    requires forall i :: 0 <= i < |events| ==> PrintableEvent(events[i])
    requires CoverageIn(Run(options, events).ledger, path) == Some(Preview)
    ensures var chat := Current(Run(options, events));
      path in chat.described && |chat.described[path]| > options.pullThreshold
  {
    RunKeepsLong(options, events);
    LedgerAgreesWithChat(options, events);
    assert AgreesOn(Run(options, events).ledger, Current(Run(options, events)), path);
  }

  lemma {:induction false} ShortFileIsHeld(options: LedgerOptions, l: Ledger, chat: Chat, path: string, content: string)
    requires Agrees(l, chat) && LongPreviews(options, l) && OneLine(path) && |content| <= options.pullThreshold
    ensures var after := Receive(chat, content, PlanFile(options, l, path, content).1);
      path in after.held && after.held[path] == content
  {
    PlanFileIsTrue(options, l, chat, path, content);
    FileIsChosen(options, l, chat, path, content);
    if path in l.files {
      assert AgreesOn(l, chat, path);
    }
  }

  lemma {:induction false} OthersStayHeld(options: LedgerOptions, l: Ledger, chat: Chat, item: Item, path: string)
    requires path in chat.held && (item.File? ==> item.path != path)
    ensures var after := ReceiveOne(chat, item, PlanOne(options, l, item).1);
      path in after.held && after.held[path] == chat.held[path]
  {
  }

  lemma {:induction false} PlanHoldsShort(options: LedgerOptions, l: Ledger, chat: Chat, items: seq<Item>, k: nat)
    requires Agrees(l, chat) && LongPreviews(options, l) && PrintableEvent(Plan(items))
    requires k < |items| && items[k].File? && |items[k].content| <= options.pullThreshold
    requires forall i :: k < i < |items| && items[i].File? ==> items[i].path != items[k].path
    ensures var after := ReceiveAll(chat, items, PlanAll(options, l, items).1);
      items[k].path in after.held && after.held[items[k].path] == items[k].content
  {
    var n := |items| - 1;
    var (l0, sent0) := PlanAll(options, l, items[..n]);
    var chat0 := ReceiveAll(chat, items[..n], sent0);
    assert PlanAll(options, l, items).1[..n] == sent0;
    AllPrintable(items, n);
    if k < n {
      PlanHoldsShort(options, l, chat, items[..n], k);
      OthersStayHeld(options, l0, chat0, items[n], items[k].path);
    } else {
      PlanIsTrue(options, l, chat, items[..n]);
      PlanKeepsLong(options, l, items[..n]);
      assert Printable(items[n]);
      ShortFileIsHeld(options, l0, chat0, items[n].path, items[n].content);
    }
  }

  lemma {:induction false} RunPlan(options: LedgerOptions, events: seq<Event>, items: seq<Item>)
    ensures Run(options, events + [Plan(items)]) == Step(options, Run(options, events), Plan(items))
  {
    var all := events + [Plan(items)];
    assert all[..|all| - 1] == events;
  }

  lemma {:induction false} PlanReaches(options: LedgerOptions, w: World, items: seq<Item>)
    requires PlanAll(options, Planning(w.ledger), items).0.sessionId == w.ledger.sessionId
    ensures Current(Step(options, w, Plan(items)))
         == ReceiveAll(Current(w), items, PlanAll(options, Planning(w.ledger), items).1)
  {
  }

  /** After any run and one more plan, the chat holds every file of the plan that is no longer
      than the threshold, byte for byte; the last item for a path decides. */
  lemma {:induction false} ShortFilesAreHeld(options: LedgerOptions, events: seq<Event>, items: seq<Item>, k: nat)
    requires forall i :: 0 <= i < |events| ==> PrintableEvent(events[i])
    requires PrintableEvent(Plan(items)) && k < |items| && items[k].File?
    requires |items[k].content| <= options.pullThreshold
    requires forall i :: k < i < |items| && items[i].File? ==> items[i].path != items[k].path
    ensures var chat := Current(Run(options, events + [Plan(items)]));
      items[k].path in chat.held && chat.held[items[k].path] == items[k].content
  {
    var w := Run(options, events);
    RunPlan(options, events, items);
    LedgerAgreesWithChat(options, events);
    PlanningAgrees(w.ledger, Current(w));
    RunKeepsLong(options, events);
    PlanHoldsShort(options, Planning(w.ledger), Current(w), items, k);
    PlanIsTrue(options, Planning(w.ledger), Current(w), items);
    PlanReaches(options, w, items);
  }
}
