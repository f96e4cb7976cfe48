/** Grouping an edit script into hunks, and a strict way of applying hunks that checks
    every number they state. */
module DiffHunks {
  import opened Options
  import opened Text
  import opened LineDiff

  datatype Hunk = Hunk(oldStart: nat, oldLines: nat, newStart: nat, newLines: nat, lines: seq<string>)

  datatype DiffResult = DiffResult(hunks: seq<Hunk>, changedLines: nat)

  /** First and last changed op of a group. */
  datatype Span = Span(first: nat, final: nat)

  /** Above this the table is refused. */
  const MAX_DIFF_LINES := 4000

  // ---------------------------------------------------------- grouping

  /** The indexes below `n` of the ops that change something. */
  function ChangedBelow(ops: seq<Op>, n: nat): seq<nat>
    requires n <= |ops|
  {
    if n == 0 then []
    else ChangedBelow(ops, n - 1) + if ops[n - 1].kind.Same? then [] else [n - 1]
  }

  ghost predicate Increasing(s: seq<nat>) {
    forall i, j :: 0 <= i < j < |s| ==> s[i] < s[j]
  }

  lemma {:induction false} ChangedBelowIsExact(ops: seq<Op>, n: nat)
    requires n <= |ops|
    ensures forall c :: c in ChangedBelow(ops, n) <==> 0 <= c < n && !ops[c].kind.Same?
  {
    if n > 0 {
      ChangedBelowIsExact(ops, n - 1);
    }
  }

  lemma {:induction false} ChangedBelowIncreases(ops: seq<Op>, n: nat)
    requires n <= |ops|
    ensures Increasing(ChangedBelow(ops, n))
  {
    if n > 0 {
      ChangedBelowIncreases(ops, n - 1);
      ChangedBelowIsExact(ops, n - 1);
      var s := ChangedBelow(ops, n - 1);
      forall i | 0 <= i < |s| ensures s[i] < n - 1 {
        assert s[i] in s;
      }
    }
  }

  /** Adds one changed index to the groups built so far. */
  function AddIndex(groups: seq<Span>, index: nat, context: nat): seq<Span> {
    if groups != [] && index - groups[|groups| - 1].final <= context * 2
    then groups[..|groups| - 1] + [Span(groups[|groups| - 1].first, index)]
    else groups + [Span(index, index)]
  }

  /** The groups after the first `n` changed indexes. */
  function Groups(changed: seq<nat>, n: nat, context: nat): seq<Span>
    requires n <= |changed|
  {
    if n == 0 then [] else AddIndex(Groups(changed, n - 1, context), changed[n - 1], context)
  }

  /** Two neighbouring groups are more than twice the context apart. */
  ghost predicate Separated(groups: seq<Span>, context: nat) {
    forall j, k :: 0 <= j < k < |groups| ==> groups[j].final + context * 2 < groups[k].first
  }

  ghost predicate Forward(groups: seq<Span>) {
    forall k :: 0 <= k < |groups| ==> groups[k].first <= groups[k].final
  }

  lemma {:induction false} AddIndexEnds(groups: seq<Span>, index: nat, context: nat)
    ensures var after := AddIndex(groups, index, context);
      after != [] && after[|after| - 1].final == index
  {
  }

  /** Groups that are there keep where they start and never shrink. */
  lemma {:induction false} AddIndexWidens(groups: seq<Span>, index: nat, context: nat, k: nat)
    requires k < |groups| && groups[|groups| - 1].final <= index
    ensures var after := AddIndex(groups, index, context);
      k < |after| && after[k].first == groups[k].first && groups[k].final <= after[k].final
  {
  }

  lemma {:induction false} AddIndexBegins(groups: seq<Span>, index: nat, context: nat)
    requires groups != [] && index - groups[|groups| - 1].final > context * 2
    ensures var after := AddIndex(groups, index, context); |after| == |groups| + 1 && after[|groups|] == Span(index, index)
  {
  }

  lemma {:induction false} GroupsEndAtLast(changed: seq<nat>, n: nat, context: nat)
    requires 0 < n <= |changed|
    ensures Groups(changed, n, context) != []
    ensures Groups(changed, n, context)[|Groups(changed, n, context)| - 1].final == changed[n - 1]
  {
    AddIndexEnds(Groups(changed, n - 1, context), changed[n - 1], context);
  }

  lemma {:induction false} AddIndexKeepsOrder(groups: seq<Span>, index: nat, context: nat)
    requires Separated(groups, context) && Forward(groups)
    requires groups != [] ==> groups[|groups| - 1].final < index
    ensures Separated(AddIndex(groups, index, context), context) && Forward(AddIndex(groups, index, context))
  {
    var after := AddIndex(groups, index, context);
    forall j, k | 0 <= j < k < |after| ensures after[j].final + context * 2 < after[k].first {
      if k < |groups| {
        assert groups[j].final + context * 2 < groups[k].first;
      } else if j < |groups| - 1 {
        assert groups[j].final + context * 2 < groups[|groups| - 1].first;
      }
    }
  }

  lemma {:induction false} GroupsAreSeparated(changed: seq<nat>, n: nat, context: nat)
    requires Increasing(changed) && n <= |changed|
    ensures Separated(Groups(changed, n, context), context) && Forward(Groups(changed, n, context))
  {
    if n > 0 {
      GroupsAreSeparated(changed, n - 1, context);
      if n > 1 {
        GroupsEndAtLast(changed, n - 1, context);
      }
      AddIndexKeepsOrder(Groups(changed, n - 1, context), changed[n - 1], context);
    }
  }

  /** Every group starts and ends on a changed index. */
  lemma {:induction false} GroupEdges(changed: seq<nat>, n: nat, context: nat, k: nat)
    requires n <= |changed| && k < |Groups(changed, n, context)|
    ensures Groups(changed, n, context)[k].first in changed && Groups(changed, n, context)[k].final in changed
  {
    var before := Groups(changed, n - 1, context);
    if k < |before| {
      GroupEdges(changed, n - 1, context, k);
    }
  }

  /** Every changed index is inside a group. */
  lemma {:induction false} GroupsCover(changed: seq<nat>, n: nat, context: nat, m: nat) returns (k: nat)
    requires Increasing(changed) && m < n <= |changed|
    ensures k < |Groups(changed, n, context)|
    ensures Groups(changed, n, context)[k].first <= changed[m] <= Groups(changed, n, context)[k].final
  {
    var groups := Groups(changed, n - 1, context);
    if m < n - 1 {
      k := GroupsCover(changed, n - 1, context, m);
      GroupsEndAtLast(changed, n - 1, context);
      AddIndexWidens(groups, changed[n - 1], context, k);
    } else {
      GroupsAreSeparated(changed, n, context);
      GroupsEndAtLast(changed, n, context);
      k := |Groups(changed, n, context)| - 1;
    }
  }

  /** Where two neighbouring changes are too far apart, a new group starts. */
  lemma {:induction false} GroupsSplit(changed: seq<nat>, n: nat, context: nat, m: nat) returns (k: nat)
    requires Increasing(changed) && m + 1 < n <= |changed|
    requires changed[m + 1] - changed[m] > context * 2
    ensures k < |Groups(changed, n, context)| && Groups(changed, n, context)[k].first == changed[m + 1]
  {
    var groups := Groups(changed, n - 1, context);
    GroupsEndAtLast(changed, n - 1, context);
    if m + 1 < n - 1 {
      k := GroupsSplit(changed, n - 1, context, m);
      AddIndexWidens(groups, changed[n - 1], context, k);
    } else {
      AddIndexBegins(groups, changed[n - 1], context);
      k := |groups|;
    }
  }

  method GroupChanges(changed: seq<nat>, context: nat) returns (groups: seq<Span>)
    ensures groups == Groups(changed, |changed|, context)
  {
    groups := [];
    for k := 0 to |changed|
      invariant groups == Groups(changed, k, context)
    {
      var last := |groups| - 1;
      if groups != [] && changed[k] - groups[last].final <= context * 2 {
        groups := groups[..last] + [Span(groups[last].first, changed[k])];
      } else {
        groups := groups + [Span(changed[k], changed[k])];
      }
    }
  }

  // ---------------------------------------------------------- hunks

  function Prefixed(op: Op): string {
    match op.kind
    case Same => " " + op.text
    case Remove => "-" + op.text
    case Add => "+" + op.text
  }

  function Printed(ops: seq<Op>): (lines: seq<string>)
    ensures |lines| == |ops|
  {
    if ops == [] then [] else [Prefixed(ops[0])] + Printed(ops[1..])
  }

  /** The hunk that shows `ops[from..to]`. */
  function HunkAt(ops: seq<Op>, from: nat, to: nat): Hunk
    requires from <= to <= |ops|
  {
    Hunk(1 + |OldSide(ops[..from])|, |OldSide(ops[from..to])|,
         1 + |NewSide(ops[..from])|, |NewSide(ops[from..to])|,
         Printed(ops[from..to]))
  }

  function From(span: Span, context: nat): nat {
    if span.first < context then 0 else span.first - context
  }

  /** One past the last op shown. */
  function To(span: Span, context: nat, n: nat): nat {
    if span.final + context < n then span.final + context + 1 else n
  }

  ghost predicate Inside(spans: seq<Span>, n: nat) {
    forall k :: 0 <= k < |spans| ==> spans[k].first <= spans[k].final < n
  }

  /** Each group, widened by the context, becomes one hunk. */
  function HunksOf(ops: seq<Op>, spans: seq<Span>, context: nat): seq<Hunk>
    requires Inside(spans, |ops|)
  {
    seq(|spans|, k requires 0 <= k < |spans| => HunkOf(ops, spans[k], context))
  }

  function HunkOf(ops: seq<Op>, span: Span, context: nat): Hunk
    requires span.first <= span.final < |ops|
  {
    HunkAt(ops, From(span, context), To(span, context, |ops|))
  }

  /** The spans hunks are cut from. */
  function Spans(ops: seq<Op>, context: nat): (spans: seq<Span>)
    ensures Inside(spans, |ops|)
  {
    SpansAreInside(ops, context);
    Groups(ChangedBelow(ops, |ops|), |ChangedBelow(ops, |ops|)|, context)
  }

  lemma {:induction false} SpansAreInside(ops: seq<Op>, context: nat)
    ensures Inside(Groups(ChangedBelow(ops, |ops|), |ChangedBelow(ops, |ops|)|, context), |ops|)
  {
    var changed := ChangedBelow(ops, |ops|);
    var groups := Groups(changed, |changed|, context);
    ChangedBelowIncreases(ops, |ops|);
    GroupsAreSeparated(changed, |changed|, context);
    ChangedBelowIsExact(ops, |ops|);
    forall k | 0 <= k < |groups| ensures groups[k].final < |ops| {
      GroupEdges(changed, |changed|, context, k);
    }
  }

  lemma {:induction false} SpansAreSeparated(ops: seq<Op>, context: nat)
    ensures Separated(Spans(ops, context), context)
  {
    var changed := ChangedBelow(ops, |ops|);
    ChangedBelowIncreases(ops, |ops|);
    GroupsAreSeparated(changed, |changed|, context);
  }

  /** The span a changed op belongs to. */
  lemma {:induction false} SpanOf(ops: seq<Op>, context: nat, c: nat) returns (k: nat)
    requires c < |ops| && !ops[c].kind.Same?
    ensures k < |Spans(ops, context)| && Spans(ops, context)[k].first <= c <= Spans(ops, context)[k].final
  {
    var changed := ChangedBelow(ops, |ops|);
    ChangedBelowIncreases(ops, |ops|);
    assert c in changed by { ChangedBelowIsExact(ops, |ops|); }
    var m :| 0 <= m < |changed| && changed[m] == c;
    k := GroupsCover(changed, |changed|, context, m);
  }

  function DiffOfScript(ops: seq<Op>, context: nat): DiffResult {
    DiffResult(HunksOf(ops, Spans(ops, context), context), Changes(ops))
  }

  /** The result of comparing two texts; `None` when one of them is too long. */
  function Diff(before: string, after: string, context: nat): Option<DiffResult> {
    if |Split(before)| > MAX_DIFF_LINES || |Split(after)| > MAX_DIFF_LINES then None
    else Some(DiffOfScript(Script(Split(before), Split(after)), context))
  }

  // ---------------------------------------------------------- the loops

  lemma {:induction false} TakeOne(ops: seq<Op>, i: nat)
    requires i < |ops|
    ensures |OldSide(ops[..i + 1])| == |OldSide(ops[..i])| + |OldPart(ops[i])|
    ensures |NewSide(ops[..i + 1])| == |NewSide(ops[..i])| + |NewPart(ops[i])|
  {
    assert ops[..i + 1] == ops[..i] + [ops[i]];
    OldSideAppend(ops[..i], [ops[i]]);
    NewSideAppend(ops[..i], [ops[i]]);
  }

  method CountBefore(ops: seq<Op>, from: nat) returns (oldLine: nat, newLine: nat)
    requires from <= |ops|
    ensures oldLine == 1 + |OldSide(ops[..from])| && newLine == 1 + |NewSide(ops[..from])|
  {
    oldLine, newLine := 1, 1;
    for index := 0 to from
      invariant oldLine == 1 + |OldSide(ops[..index])| && newLine == 1 + |NewSide(ops[..index])|
    {
      TakeOne(ops, index);
      if !ops[index].kind.Add? { oldLine := oldLine + 1; }
      if !ops[index].kind.Remove? { newLine := newLine + 1; }
    }
  }

  lemma {:induction false} PrintedAppend(a: seq<Op>, b: seq<Op>)
    ensures Printed(a + b) == Printed(a) + Printed(b)
  {
    if a == [] {
      assert a + b == b;
    } else {
      calc {
        Printed(a + b);
        { assert (a + b)[0] == a[0] && (a + b)[1..] == a[1..] + b; }
        [Prefixed(a[0])] + Printed(a[1..] + b);
        { PrintedAppend(a[1..], b); }
        [Prefixed(a[0])] + (Printed(a[1..]) + Printed(b));
        ([Prefixed(a[0])] + Printed(a[1..])) + Printed(b);
      }
    }
  }

  method PrintRange(ops: seq<Op>) returns (lines: seq<string>, oldCount: nat, newCount: nat)
    ensures lines == Printed(ops) && oldCount == |OldSide(ops)| && newCount == |NewSide(ops)|
  {
    lines, oldCount, newCount := [], 0, 0;
    for index := 0 to |ops|
      invariant lines == Printed(ops[..index])
      invariant oldCount == |OldSide(ops[..index])| && newCount == |NewSide(ops[..index])|
    {
      TakeOne(ops, index);
      assert ops[..index + 1] == ops[..index] + [ops[index]];
      PrintedAppend(ops[..index], [ops[index]]);
      var op := ops[index];
      match op.kind {
        case Same =>
          lines := lines + [" " + op.text];
          oldCount, newCount := oldCount + 1, newCount + 1;
        case Remove =>
          lines := lines + ["-" + op.text];
          oldCount := oldCount + 1;
        case Add =>
          lines := lines + ["+" + op.text];
          newCount := newCount + 1;
      }
    }
    assert ops[..|ops|] == ops;
  }

  lemma {:induction false} ChangesAppend(a: seq<Op>, b: seq<Op>)
    ensures Changes(a + b) == Changes(a) + Changes(b)
  {
    if a == [] {
      assert a + b == b;
    } else {
      ChangesAppend(a[1..], b);
      assert (a + b)[1..] == a[1..] + b;
    }
  }

  lemma {:induction false} ChangedBelowCounts(ops: seq<Op>, n: nat)
    requires n <= |ops|
    ensures |ChangedBelow(ops, n)| == Changes(ops[..n])
  {
    if n > 0 {
      ChangedBelowCounts(ops, n - 1);
      assert ops[..n] == ops[..n - 1] + [ops[n - 1]];
      ChangesAppend(ops[..n - 1], [ops[n - 1]]);
    }
  }

  method CutHunk(ops: seq<Op>, span: Span, context: nat) returns (hunk: Hunk)
    requires span.first <= span.final < |ops|
    ensures hunk == HunkOf(ops, span, context)
  {
    var from := if span.first < context then 0 else span.first - context;
    var to := if |ops| - 1 < span.final + context then |ops| - 1 else span.final + context;
    var oldLine, newLine := CountBefore(ops, from);
    var lines, oldCount, newCount := PrintRange(ops[from..to + 1]);
    hunk := Hunk(oldLine, oldCount, newLine, newCount, lines);
  }

  method CutHunks(ops: seq<Op>, groups: seq<Span>, context: nat) returns (hunks: seq<Hunk>)
    requires Inside(groups, |ops|)
    ensures hunks == HunksOf(ops, groups, context)
  {
    hunks := [];
    for k := 0 to |groups|
      invariant |hunks| == k && forall i :: 0 <= i < k ==> hunks[i] == HunkOf(ops, groups[i], context)
    {
      var hunk := CutHunk(ops, groups[k], context);
      hunks := hunks + [hunk];
    }
  }

  method DiffLines(before: string, after: string, context: nat) returns (result: Option<DiffResult>)
    ensures result == Diff(before, after, context)
  {
    var oldLines, newLines := Split(before), Split(after);
    if |oldLines| > MAX_DIFF_LINES || |newLines| > MAX_DIFF_LINES {
      return None;
    }
    var ops := Operations(oldLines, newLines);
    var changed := ChangedBelow(ops, |ops|);
    assert |changed| == Changes(ops) by {
      ChangedBelowCounts(ops, |ops|);
      assert ops[..|ops|] == ops;
    }
    SpansAreInside(ops, context);
    if |changed| == 0 {
      assert HunksOf(ops, [], context) == [];
      return Some(DiffResult([], 0));
    }
    var groups := GroupChanges(changed, context);
    var hunks := CutHunks(ops, groups, context);
    return Some(DiffResult(hunks, |changed|));
  }

  // ---------------------------------------------------------- applying

  /** Replays printed lines against the front of `base`: what they write, and how many
      of its lines they use up. Fails when a context or removed line does not match. */
  function ApplyLines(lines: seq<string>, base: seq<string>): Option<(seq<string>, nat)> {
    if lines == [] then Some(([], 0))
    else if lines[0] == "" then None
    else
      var mark, text := lines[0][0], lines[0][1..];
      if mark == '+' then
        match ApplyLines(lines[1..], base) {
          case None => None
          case Some(r) => Some(([text] + r.0, r.1))
        }
      else if (mark != ' ' && mark != '-') || base == [] || base[0] != text then None
      else
        match ApplyLines(lines[1..], base[1..]) {
          case None => None
          case Some(r) => Some((if mark == ' ' then [text] + r.0 else r.0, r.1 + 1))
        }
  }

  /** Applies hunks in order. `used` old lines have been consumed and `made` new ones
      written; each hunk must start at or after that point, agree with the old text,
      and state its four numbers correctly. */
  function ApplyFrom(base: seq<string>, used: nat, made: nat, hunks: seq<Hunk>): Option<seq<string>>
    decreases |hunks|
  {
    if used > |base| then None
    else if hunks == [] then Some(base[used..])
    else
      var h := hunks[0];
      if !(used + 1 <= h.oldStart <= |base| + 1) || h.newStart != made + h.oldStart - used then None
      else
        match ApplyLines(h.lines, base[h.oldStart - 1..]) {
          case None => None
          case Some(r) =>
            if r.1 != h.oldLines || |r.0| != h.newLines then None
            else
              match ApplyFrom(base, h.oldStart - 1 + r.1, h.newStart - 1 + |r.0|, hunks[1..]) {
                case None => None
                case Some(rest) => Some(base[used..h.oldStart - 1] + (r.0 + rest))
              }
        }
  }

  function ApplyHunks(base: seq<string>, hunks: seq<Hunk>): Option<seq<string>> {
    ApplyFrom(base, 0, 0, hunks)
  }

  lemma {:induction false} ApplyOne(op: Op, more: seq<string>, base: seq<string>)
    requires ApplyLines(more, base).Some?
    ensures ApplyLines([Prefixed(op)] + more, OldPart(op) + base)
         == Some((NewPart(op) + ApplyLines(more, base).value.0, |OldPart(op)| + ApplyLines(more, base).value.1))
  {
    var lines := [Prefixed(op)] + more;
    assert lines[0] == Prefixed(op) && lines[1..] == more;
    assert Prefixed(op)[1..] == op.text;
    if op.kind.Add? {
      assert OldPart(op) + base == base;
    } else {
      assert (OldPart(op) + base)[1..] == base;
    }
    if op.kind.Remove? {
      assert NewPart(op) + ApplyLines(more, base).value.0 == ApplyLines(more, base).value.0;
    }
  }

  lemma {:induction false} ApplyPrinted(ops: seq<Op>, tail: seq<string>)
    ensures ApplyLines(Printed(ops), OldSide(ops) + tail) == Some((NewSide(ops), |OldSide(ops)|))
  {
    if ops != [] {
      ApplyPrinted(ops[1..], tail);
      ApplyOne(ops[0], Printed(ops[1..]), OldSide(ops[1..]) + tail);
      assert OldPart(ops[0]) + (OldSide(ops[1..]) + tail) == OldSide(ops) + tail;
    }
  }

  ghost predicate AllSame(ops: seq<Op>) {
    forall i :: 0 <= i < |ops| ==> ops[i].kind.Same?
  }

  lemma {:induction false} AllSameSides(ops: seq<Op>)
    requires AllSame(ops)
    ensures OldSide(ops) == NewSide(ops)
  {
    if ops != [] {
      AllSameSides(ops[1..]);
    }
  }

  /** The hunks still to come start at op `at` or later, are disjoint and in order,
      and every changed op from `at` on is shown by one of them. */
  ghost predicate Covers(ops: seq<Op>, at: nat, spans: seq<Span>, context: nat)
    decreases |spans|
  {
    && at <= |ops|
    && if spans == [] then AllSame(ops[at..])
       else
         var from, to := From(spans[0], context), To(spans[0], context, |ops|);
         && at <= from < to <= |ops|
         && AllSame(ops[at..from])
         && Covers(ops, to, spans[1..], context)
  }

  lemma {:induction false} OldSideSplit(ops: seq<Op>, i: nat)
    requires i <= |ops|
    ensures OldSide(ops) == OldSide(ops[..i]) + OldSide(ops[i..])
  {
    OldSideAppend(ops[..i], ops[i..]);
    assert ops == ops[..i] + ops[i..];
  }

  lemma {:induction false} NewSideSplit(ops: seq<Op>, i: nat)
    requires i <= |ops|
    ensures NewSide(ops) == NewSide(ops[..i]) + NewSide(ops[i..])
  {
    NewSideAppend(ops[..i], ops[i..]);
    assert ops == ops[..i] + ops[i..];
  }

  lemma {:induction false} OldSideBetween(ops: seq<Op>, i: nat, j: nat)
    requires i <= j <= |ops|
    ensures OldSide(ops[..j]) == OldSide(ops[..i]) + OldSide(ops[i..j])
  {
    OldSideAppend(ops[..i], ops[i..j]);
    assert ops[..j] == ops[..i] + ops[i..j];
  }

  lemma {:induction false} OldSideFrom(ops: seq<Op>, i: nat, j: nat)
    requires i <= j <= |ops|
    ensures OldSide(ops[i..]) == OldSide(ops[i..j]) + OldSide(ops[j..])
  {
    OldSideAppend(ops[i..j], ops[j..]);
    assert ops[i..] == ops[i..j] + ops[j..];
  }

  lemma {:induction false} NewSideBetween(ops: seq<Op>, i: nat, j: nat)
    requires i <= j <= |ops|
    ensures NewSide(ops[..j]) == NewSide(ops[..i]) + NewSide(ops[i..j])
  {
    NewSideAppend(ops[..i], ops[i..j]);
    assert ops[..j] == ops[..i] + ops[i..j];
  }

  lemma {:induction false} NewSideFrom(ops: seq<Op>, i: nat, j: nat)
    requires i <= j <= |ops|
    ensures NewSide(ops[i..]) == NewSide(ops[i..j]) + NewSide(ops[j..])
  {
    NewSideAppend(ops[i..j], ops[j..]);
    assert ops[i..] == ops[i..j] + ops[j..];
  }

  lemma {:induction false} HunksStep(ops: seq<Op>, spans: seq<Span>, context: nat)
    requires Inside(spans, |ops|) && spans != []
    ensures HunksOf(ops, spans, context) == [HunkOf(ops, spans[0], context)] + HunksOf(ops, spans[1..], context)
  {
  }

  lemma {:induction false} ApplyCovering(ops: seq<Op>, at: nat, spans: seq<Span>, context: nat)
    requires Inside(spans, |ops|) && Covers(ops, at, spans, context)
    ensures ApplyFrom(OldSide(ops), |OldSide(ops[..at])|, |NewSide(ops[..at])|, HunksOf(ops, spans, context))
         == Some(NewSide(ops[at..]))
    decreases |spans|
  {
    if spans == [] {
      AllSameSides(ops[at..]);
      OldSideSplit(ops, at);
    } else {
      var from, to := From(spans[0], context), To(spans[0], context, |ops|);
      ApplyCovering(ops, to, spans[1..], context);
      ApplyFirstHunk(ops, at, from, to, HunksOf(ops, spans[1..], context));
      HunksStep(ops, spans, context);
    }
  }

  /** One step of `ApplyFrom`. */
  lemma {:induction false} ApplyFromStep(base: seq<string>, used: nat, start: nat, made: nat, h: Hunk,
                                         more: seq<Hunk>, written: seq<string>, rest: seq<string>)
    requires used <= start <= |base| && h.oldStart == 1 + start && h.newStart == 1 + made + start - used
    requires ApplyLines(h.lines, base[start..]) == Some((written, h.oldLines)) && h.newLines == |written|
    requires ApplyFrom(base, start + h.oldLines, made + start - used + |written|, more) == Some(rest)
    ensures ApplyFrom(base, used, made, [h] + more) == Some(base[used..start] + (written + rest))
  {
    var hunks := [h] + more;
    assert hunks[0] == h && hunks[1..] == more;
  }

  /** The old text around `ops[at..from]`, by line number. */
  lemma {:induction false} OldSideSlices(ops: seq<Op>, at: nat, from: nat)
    requires at <= from <= |ops|
    ensures |OldSide(ops[..from])| == |OldSide(ops[..at])| + |OldSide(ops[at..from])| <= |OldSide(ops)|
    ensures OldSide(ops)[|OldSide(ops[..at])|..|OldSide(ops[..from])|] == OldSide(ops[at..from])
    ensures OldSide(ops)[|OldSide(ops[..from])|..] == OldSide(ops[from..])
  {
    OldSideSplit(ops, from);
    OldSideBetween(ops, at, from);
  }

  lemma {:induction false} HunkApplies(ops: seq<Op>, from: nat, to: nat)
    requires from <= to <= |ops| && |OldSide(ops[..from])| <= |OldSide(ops)|
    ensures ApplyLines(Printed(ops[from..to]), OldSide(ops)[|OldSide(ops[..from])|..])
         == Some((NewSide(ops[from..to]), |OldSide(ops[from..to])|))
  {
    OldSideSlices(ops, from, from);
    OldSideFrom(ops, from, to);
    ApplyPrinted(ops[from..to], OldSide(ops[to..]));
  }

  /** How many lines each side has before and after `ops[at..from]` and `ops[from..to]`. */
  lemma {:induction false} LineCounts(ops: seq<Op>, at: nat, from: nat, to: nat)
    requires at <= from <= to <= |ops| && AllSame(ops[at..from])
    ensures |OldSide(ops[..at])| <= |OldSide(ops[..from])| <= |OldSide(ops)|
    ensures |NewSide(ops[..from])| == |NewSide(ops[..at])| + |OldSide(ops[..from])| - |OldSide(ops[..at])|
    ensures |NewSide(ops[..to])| == |NewSide(ops[..from])| + |NewSide(ops[from..to])|
    ensures |OldSide(ops[..to])| == |OldSide(ops[..from])| + |OldSide(ops[from..to])|
  {
    OldSideSlices(ops, at, from);
    AllSameSides(ops[at..from]);
    NewSideBetween(ops, at, from);
    NewSideBetween(ops, from, to);
    OldSideBetween(ops, from, to);
  }

  lemma {:induction false} NewSidePieces(ops: seq<Op>, at: nat, from: nat, to: nat)
    requires at <= from <= to <= |ops|
    ensures NewSide(ops[at..]) == NewSide(ops[at..from]) + (NewSide(ops[from..to]) + NewSide(ops[to..]))
  {
    NewSideFrom(ops, at, from);
    NewSideFrom(ops, from, to);
  }

  lemma {:induction false} ApplyFirstHunk(ops: seq<Op>, at: nat, from: nat, to: nat, more: seq<Hunk>)
    requires at <= from <= to <= |ops| && AllSame(ops[at..from])
    requires ApplyFrom(OldSide(ops), |OldSide(ops[..to])|, |NewSide(ops[..to])|, more) == Some(NewSide(ops[to..]))
    ensures ApplyFrom(OldSide(ops), |OldSide(ops[..at])|, |NewSide(ops[..at])|, [HunkAt(ops, from, to)] + more)
         == Some(NewSide(ops[at..]))
  {
    LineCounts(ops, at, from, to);
    HunkApplies(ops, from, to);
    ApplyFromStep(OldSide(ops), |OldSide(ops[..at])|, |OldSide(ops[..from])|, |NewSide(ops[..at])|,
                  HunkAt(ops, from, to), more, NewSide(ops[from..to]), NewSide(ops[to..]));
    OldSideSlices(ops, at, from);
    AllSameSides(ops[at..from]);
    NewSidePieces(ops, at, from, to);
  }

  /** Where the hunk before span `k` stops. */
  function Reached(spans: seq<Span>, context: nat, n: nat, k: nat): nat
    requires k <= |spans|
  {
    if k == 0 then 0 else To(spans[k - 1], context, n)
  }

  /** Between two neighbouring hunks nothing changes. */
  lemma {:induction false} GapIsSame(ops: seq<Op>, context: nat, k: nat, next: nat)
    requires k <= |Spans(ops, context)|
    requires next == if k == |Spans(ops, context)| then |ops| else From(Spans(ops, context)[k], context)
    ensures Reached(Spans(ops, context), context, |ops|, k) <= next
    ensures forall c :: Reached(Spans(ops, context), context, |ops|, k) <= c < next ==> ops[c].kind.Same?
  {
    var spans, n := Spans(ops, context), |ops|;
    SpansAreSeparated(ops, context);
    if 0 < k < |spans| { assert spans[k - 1].final + context * 2 < spans[k].first; }
    forall c | Reached(spans, context, n, k) <= c < next ensures ops[c].kind.Same? {
      if !ops[c].kind.Same? {
        var owner := SpanOf(ops, context, c);
      }
    }
  }

  lemma {:induction false} SpansCover(ops: seq<Op>, context: nat, k: nat)
    requires k <= |Spans(ops, context)|
    ensures Covers(ops, Reached(Spans(ops, context), context, |ops|, k), Spans(ops, context)[k..], context)
    decreases |Spans(ops, context)| - k
  {
    var spans := Spans(ops, context);
    if k < |spans| {
      GapIsSame(ops, context, k, From(spans[k], context));
      SpansCover(ops, context, k + 1);
      assert spans[k..][0] == spans[k] && spans[k..][1..] == spans[k + 1..];
    } else {
      GapIsSame(ops, context, k, |ops|);
    }
  }

  /** Applying a script's hunks to the old side gives the new side, whatever the
      context width. */
  lemma {:induction false} HunksReplayScript(ops: seq<Op>, context: nat)
    ensures ApplyHunks(OldSide(ops), DiffOfScript(ops, context).hunks) == Some(NewSide(ops))
  {
    SpansCover(ops, context, 0);
    var spans := Spans(ops, context);
    assert spans[0..] == spans;
    ApplyCovering(ops, 0, spans, context);
    assert ops[..0] == [] && ops[0..] == ops;
  }

  predicate Shows(ops: seq<Op>, context: nat, k: nat, c: nat)
    requires k < |Spans(ops, context)|
  {
    From(Spans(ops, context)[k], context) <= c < To(Spans(ops, context)[k], context, |ops|)
  }

  /** Each changed op is shown by one hunk, and no op at all by two. */
  lemma {:induction false} EachChangeShownOnce(ops: seq<Op>, context: nat, c: nat) returns (k: nat)
    requires c < |ops| && !ops[c].kind.Same?
    ensures k < |Spans(ops, context)| && Shows(ops, context, k, c)
    ensures forall j :: 0 <= j < |Spans(ops, context)| && j != k ==> !Shows(ops, context, j, c)
  {
    var spans := Spans(ops, context);
    SpansAreSeparated(ops, context);
    k := SpanOf(ops, context, c);
    forall j | 0 <= j < |spans| && j != k ensures !Shows(ops, context, j, c) {
      assert j < k ==> spans[j].final + context * 2 < spans[k].first;
      assert k < j ==> spans[k].final + context * 2 < spans[j].first;
    }
  }

  /** A diff is empty exactly when the two texts are the same. */
  lemma {:induction false} EmptyExactlyWhenEqual(before: string, after: string, context: nat)
    requires Diff(before, after, context).Some?
    ensures Diff(before, after, context).value.hunks == [] <==> before == after
    ensures Diff(before, after, context).value.changedLines == 0 <==> before == after
  {
    var ops := Script(Split(before), Split(after));
    var changed := ChangedBelow(ops, |ops|);
    ScriptReplays(Split(before), Split(after));
    JoinSplit(before);
    JoinSplit(after);
    ChangedBelowCounts(ops, |ops|);
    assert ops[..|ops|] == ops;
    if changed != [] {
      GroupsEndAtLast(changed, |changed|, context);
    }
    NoChangesMeansEqual(ops);
    if before == after {
      LcsOfEqual(Split(before));
      ScriptIsMinimal(Split(before), Split(after));
    }
  }

  lemma {:induction false} LcsOfEqual(a: seq<string>)
    ensures Lcs(a, a) == |a|
  {
    if a != [] {
      LcsOfEqual(a[1..]);
    }
  }
}
