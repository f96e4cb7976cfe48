/** Unified-diff text: printing hunks, and a reader driven by the counts in the `@@`
    lines that recovers them. */
module DiffText {
  import opened Options
  import opened Text
  import opened LineDiff
  import opened DiffHunks

  // ---------------------------------------------------------- printing

  function Header(h: Hunk): string {
    "@@ -" + (Decimal(h.oldStart) + ("," + (Decimal(h.oldLines)
    + (" +" + (Decimal(h.newStart) + ("," + (Decimal(h.newLines) + " @@")))))))
  }

  function HunkText(h: Hunk): string {
    Header(h) + ("\n" + Join(h.lines))
  }

  function HunkTexts(hunks: seq<Hunk>): seq<string> {
    if hunks == [] then [] else [HunkText(hunks[0])] + HunkTexts(hunks[1..])
  }

  /** `renderUnifiedDiff`. */
  function Render(path: string, hunks: seq<Hunk>): string {
    ("--- a/" + path) + ("\n" + (("+++ b/" + path) + ("\n" + Join(HunkTexts(hunks)))))
  }

  // ---------------------------------------------------------- reading

  function ReadNumberThen(s: string, suffix: string): Option<(nat, string)> {
    match ReadDecimal(s)
    case None => None
    case Some(r) =>
      match After(suffix, r.1)
      case None => None
      case Some(rest) => Some((r.0, rest))
  }

  /** Reads `a,b` and what follows it. */
  function ReadRange(s: string, suffix: string): Option<(nat, nat, string)> {
    match ReadNumberThen(s, ",")
    case None => None
    case Some(start) =>
      match ReadNumberThen(start.1, suffix)
      case None => None
      case Some(count) => Some((start.0, count.0, count.1))
  }

  /** Reads `@@ -a,b +c,d @@`. */
  function ReadHeader(line: string): Option<(nat, nat, nat, nat)> {
    match After("@@ -", line)
    case None => None
    case Some(ranges) =>
      match ReadRange(ranges, " +")
      case None => None
      case Some(r) =>
        match ReadRange(r.2, " @@")
        case None => None
        case Some(w) => if w.2 == "" then Some((r.0, r.1, w.0, w.1)) else None
  }

  /** Whether a line marked `mark` may come next with these many lines still due. */
  predicate Due(mark: char, oldLeft: nat, newLeft: nat) {
    (mark == ' ' && oldLeft > 0 && newLeft > 0) || (mark == '-' && oldLeft > 0) || (mark == '+' && newLeft > 0)
  }

  /** Takes body lines until the two counts announced in the header are used up. */
  function ReadBody(lines: seq<string>, oldLeft: nat, newLeft: nat): Option<(seq<string>, seq<string>)> {
    if oldLeft == 0 && newLeft == 0 then Some(([], lines))
    else if lines == [] || lines[0] == "" || !Due(lines[0][0], oldLeft, newLeft) then None
    else
      match ReadBody(lines[1..], if lines[0][0] == '+' then oldLeft else oldLeft - 1,
                     if lines[0][0] == '-' then newLeft else newLeft - 1)
      case None => None
      case Some(r) => Some(([lines[0]] + r.0, r.1))
  }

  lemma {:induction false} ReadBodyShrinks(lines: seq<string>, oldLeft: nat, newLeft: nat)
    ensures ReadBody(lines, oldLeft, newLeft).Some? ==> |ReadBody(lines, oldLeft, newLeft).value.1| <= |lines|
  {
    if !(oldLeft == 0 && newLeft == 0) && lines != [] && lines[0] != "" && Due(lines[0][0], oldLeft, newLeft) {
      ReadBodyShrinks(lines[1..], if lines[0][0] == '+' then oldLeft else oldLeft - 1,
                      if lines[0][0] == '-' then newLeft else newLeft - 1);
    }
  }

  function ReadHunks(lines: seq<string>): Option<seq<Hunk>>
    decreases |lines|
  {
    if lines == [] || lines == [""] then Some([])
    else
      match ReadHeader(lines[0])
      case None => None
      case Some(n) =>
        ReadBodyShrinks(lines[1..], n.1, n.3);
        match ReadBody(lines[1..], n.1, n.3)
        case None => None
        case Some(r) =>
          match ReadHunks(r.1)
          case None => None
          case Some(more) => Some([Hunk(n.0, n.1, n.2, n.3, r.0)] + more)
  }

  /** Reads a whole unified diff: the path it names and its hunks. */
  function ReadDiff(text: string): Option<(string, seq<Hunk>)> {
    var lines := Split(text);
    if |lines| < 2 then None
    else
      match After("--- a/", lines[0])
      case None => None
      case Some(path) =>
        if After("+++ b/", lines[1]) != Some(path) then None
        else
          match ReadHunks(lines[2..])
          case None => None
          case Some(hunks) => Some((path, hunks))
  }

  // ---------------------------------------------------------- headers round-trip

  lemma {:induction false} ReadNumber(n: nat, suffix: string, rest: string)
    requires suffix != "" && !IsDigit(suffix[0])
    ensures ReadNumberThen(Decimal(n) + (suffix + rest), suffix) == Some((n, rest))
  {
    ReadDecimalDecimal(n, suffix + rest);
  }

  lemma {:induction false} ReadRangeBack(a: nat, b: nat, suffix: string, rest: string)
    requires suffix != "" && !IsDigit(suffix[0])
    ensures ReadRange(Decimal(a) + ("," + (Decimal(b) + (suffix + rest))), suffix) == Some((a, b, rest))
  {
    ReadNumber(b, suffix, rest);
    ReadNumber(a, ",", Decimal(b) + (suffix + rest));
  }

  lemma {:induction false} ReadHeaderBack(h: Hunk)
    ensures ReadHeader(Header(h)) == Some((h.oldStart, h.oldLines, h.newStart, h.newLines))
  {
    var w := Decimal(h.newStart) + ("," + (Decimal(h.newLines) + (" @@" + "")));
    assert " @@" + "" == " @@";
    var r := Decimal(h.oldStart) + ("," + (Decimal(h.oldLines) + (" +" + w)));
    ReadRangeBack(h.oldStart, h.oldLines, " +", w);
    ReadRangeBack(h.newStart, h.newLines, " @@", "");
  }

  // ---------------------------------------------------------- bodies round-trip

  lemma {:induction false} ReadBodyBack(ops: seq<Op>, rest: seq<string>)
    ensures ReadBody(Printed(ops) + rest, |OldSide(ops)|, |NewSide(ops)|) == Some((Printed(ops), rest))
  {
    if ops == [] {
      assert Printed(ops) + rest == rest;
    } else {
      ReadBodyBack(ops[1..], rest);
      ReadBodyOne(ops[0], Printed(ops[1..]) + rest, |OldSide(ops[1..])|, |NewSide(ops[1..])|);
      assert Printed(ops) + rest == [Prefixed(ops[0])] + (Printed(ops[1..]) + rest);
    }
  }

  lemma {:induction false} ReadBodyOne(op: Op, lines: seq<string>, oldLeft: nat, newLeft: nat)
    requires ReadBody(lines, oldLeft, newLeft).Some?
    ensures ReadBody([Prefixed(op)] + lines, |OldPart(op)| + oldLeft, |NewPart(op)| + newLeft)
         == Some(([Prefixed(op)] + ReadBody(lines, oldLeft, newLeft).value.0, ReadBody(lines, oldLeft, newLeft).value.1))
  {
    var all := [Prefixed(op)] + lines;
    assert all[0] == Prefixed(op) && all[1..] == lines;
  }

  /** A hunk the way `HunkAt` cuts them: its numbers count its own lines. */
  ghost predicate CutFrom(h: Hunk, ops: seq<Op>) {
    && h.lines == Printed(ops) && h.oldLines == |OldSide(ops)| && h.newLines == |NewSide(ops)|
    && ops != [] && forall i :: 0 <= i < |ops| ==> OneLine(ops[i].text)
  }

  /** `cuts[i]` is the piece of the script behind `hunks[i]`. */
  ghost predicate WellCut(hunks: seq<Hunk>, cuts: seq<seq<Op>>) {
    |cuts| == |hunks| && forall i :: 0 <= i < |hunks| ==> CutFrom(hunks[i], cuts[i])
  }

  function HunkLines(hunks: seq<Hunk>): seq<string> {
    if hunks == [] then [] else ([Header(hunks[0])] + hunks[0].lines) + HunkLines(hunks[1..])
  }

  lemma {:induction false} ReadFirstHunk(h: Hunk, cut: seq<Op>, rest: seq<string>)
    requires CutFrom(h, cut) && ReadHunks(rest).Some?
    ensures ReadHunks(([Header(h)] + h.lines) + rest) == Some([h] + ReadHunks(rest).value)
  {
    var lines := ([Header(h)] + h.lines) + rest;
    ReadHeaderBack(h);
    ReadBodyBack(cut, rest);
    assert lines[0] == Header(h) && lines[1..] == h.lines + rest;
    assert h == Hunk(h.oldStart, h.oldLines, h.newStart, h.newLines, h.lines);
  }

  lemma {:induction false} ReadHunksBack(hunks: seq<Hunk>, cuts: seq<seq<Op>>)
    requires WellCut(hunks, cuts)
    ensures ReadHunks(HunkLines(hunks)) == Some(hunks)
  {
    if hunks != [] {
      ReadHunksBack(hunks[1..], cuts[1..]);
      ReadFirstHunk(hunks[0], cuts[0], HunkLines(hunks[1..]));
      assert [hunks[0]] + hunks[1..] == hunks;
    }
  }

  lemma {:induction false} PrintedIsOneLine(ops: seq<Op>)
    requires forall i :: 0 <= i < |ops| ==> OneLine(ops[i].text)
    ensures AllOneLine(Printed(ops))
  {
    if ops != [] {
      PrintedIsOneLine(ops[1..]);
    }
  }

  lemma {:induction false} HunkIsItsLines(h: Hunk, cut: seq<Op>)
    requires CutFrom(h, cut)
    ensures HunkText(h) == Join([Header(h)] + h.lines) && AllOneLine([Header(h)] + h.lines)
  {
    PrintedIsOneLine(cut);
    JoinAppend([Header(h)], h.lines);
  }

  lemma {:induction false} TextIsLines(hunks: seq<Hunk>, cuts: seq<seq<Op>>)
    requires hunks != [] && WellCut(hunks, cuts)
    ensures Join(HunkTexts(hunks)) == Join(HunkLines(hunks)) && AllOneLine(HunkLines(hunks))
  {
    HunkIsItsLines(hunks[0], cuts[0]);
    var first := [Header(hunks[0])] + hunks[0].lines;
    if |hunks| == 1 {
      assert HunkLines(hunks) == first;
      assert HunkTexts(hunks) == [HunkText(hunks[0])];
    } else {
      TextIsLines(hunks[1..], cuts[1..]);
      JoinAppend([HunkText(hunks[0])], HunkTexts(hunks[1..]));
      JoinAppend(first, HunkLines(hunks[1..]));
    }
  }

  lemma {:induction false} SplitRender(path: string, hunks: seq<Hunk>)
    requires OneLine(path)
    ensures Split(Render(path, hunks)) == ["--- a/" + path, "+++ b/" + path] + Split(Join(HunkTexts(hunks)))
  {
    var l0, l1, body := "--- a/" + path, "+++ b/" + path, Join(HunkTexts(hunks));
    SplitFirst(l0, l1 + ("\n" + body));
    SplitFirst(l1, body);
    assert [l0] + ([l1] + Split(body)) == [l0, l1] + Split(body);
  }

  lemma {:induction false} ReadBodyOfText(hunks: seq<Hunk>, cuts: seq<seq<Op>>)
    requires WellCut(hunks, cuts)
    ensures ReadHunks(Split(Join(HunkTexts(hunks)))) == Some(hunks)
  {
    if hunks != [] {
      TextIsLines(hunks, cuts);
      SplitJoin(HunkLines(hunks));
      ReadHunksBack(hunks, cuts);
    }
  }

  lemma {:induction false} ReadPathIsOneLine(text: string)
    ensures ReadDiff(text).Some? ==> OneLine(ReadDiff(text).value.0)
  {
    SplitIsOneLine(text);
    var first := Split(text)[0];
    if After("--- a/", first).Some? {
      assert first == "--- a/" + first[|"--- a/"|..];
    }
  }

  /** The printed text names the path and the hunks, and reading it back loses nothing:
      for a path that fits on a line, and for no other. */
  lemma {:induction false} ReadDiffRender(path: string, hunks: seq<Hunk>, cuts: seq<seq<Op>>)
    requires WellCut(hunks, cuts)
    ensures ReadDiff(Render(path, hunks)) == Some((path, hunks)) <==> OneLine(path)
  {
    var text := Render(path, hunks);
    if OneLine(path) {
      SplitRender(path, hunks);
      assert Split(text)[2..] == Split(Join(HunkTexts(hunks)));
      ReadBodyOfText(hunks, cuts);
    } else {
      ReadPathIsOneLine(text);
    }
  }

  // ---------------------------------------------------------- the whole trip

  lemma {:induction false} ScriptTexts(a: seq<string>, b: seq<string>)
    requires AllOneLine(a) && AllOneLine(b)
    ensures forall i :: 0 <= i < |Script(a, b)| ==> OneLine(Script(a, b)[i].text)
    decreases |a| + |b|
  {
    if a == [] && b == [] {
    } else if a != [] && b != [] && a[0] == b[0] {
      ScriptTexts(a[1..], b[1..]);
    } else if b == [] || (a != [] && Lcs(a[1..], b) >= Lcs(a, b[1..])) {
      ScriptTexts(a[1..], b);
    } else {
      ScriptTexts(a, b[1..]);
    }
  }

  /** The pieces of the script its hunks were cut from. */
  ghost function Cuts(ops: seq<Op>, context: nat): seq<seq<Op>> {
    seq(|Spans(ops, context)|, k requires 0 <= k < |Spans(ops, context)| =>
      ops[From(Spans(ops, context)[k], context)..To(Spans(ops, context)[k], context, |ops|)])
  }

  /** What a reader of the diff text ends up with. */
  function ApplyText(before: string, text: string): Option<string> {
    match ReadDiff(text)
    case None => None
    case Some(r) =>
      match ApplyHunks(Split(before), r.1)
      case None => None
      case Some(lines) => Some(Join(lines))
  }

  /** The round trip: print the diff, read the text, apply it to `before`, get `after`. */
  lemma {:induction false} DiffRoundTrip(path: string, before: string, after: string, context: nat)
    requires OneLine(path) && Diff(before, after, context).Some?
    ensures ApplyText(before, Render(path, Diff(before, after, context).value.hunks)) == Some(after)
  {
    var ops := Script(Split(before), Split(after));
    SplitIsOneLine(before);
    SplitIsOneLine(after);
    ScriptTexts(Split(before), Split(after));
    ReadDiffRender(path, DiffOfScript(ops, context).hunks, Cuts(ops, context));
    ScriptReplays(Split(before), Split(after));
    HunksReplayScript(ops, context);
    JoinSplit(after);
  }

  // ---------------------------------------------------------- empty ranges

  /** The number POSIX.1-2017 prescribes for a range that follows `before` lines: an
      empty range names the line before it. */
  function PosixStart(before: nat, count: nat): nat {
    if count == 0 then before else before + 1
  }

  /** The header of the hunk cut for this span says what POSIX prescribes, going by how many
      lines of each file the script has before the hunk. */
  ghost predicate PosixHunk(ops: seq<Op>, span: Span, context: nat)
    requires span.first <= span.final < |ops|
  {
    var h, before := HunkOf(ops, span, context), ops[..From(span, context)];
    h.oldStart == PosixStart(|OldSide(before)|, h.oldLines) && h.newStart == PosixStart(|NewSide(before)|, h.newLines)
  }

  ghost predicate AllPosix(ops: seq<Op>, context: nat) {
    forall k :: 0 <= k < |Spans(ops, context)| ==> PosixHunk(ops, Spans(ops, context)[k], context)
  }

  ghost predicate NonePosix(ops: seq<Op>, context: nat) {
    forall k :: 0 <= k < |Spans(ops, context)| ==> !PosixHunk(ops, Spans(ops, context)[k], context)
  }

  /** Every header of the diff of two texts is a POSIX one. */
  ghost predicate PosixHeaders(before: string, after: string, context: nat) {
    AllPosix(Script(Split(before), Split(after)), context)
  }

  lemma {:induction false} SameOpOnBothSides(ops: seq<Op>, i: nat)
    requires i < |ops| && ops[i].kind.Same?
    ensures OldSide(ops) != [] && NewSide(ops) != []
  {
    OldSideSplit(ops, i);
    NewSideSplit(ops, i);
  }

  /** With any context at all, a hunk shows a kept line or the whole of both files. */
  lemma {:induction false} ContextFillsHunks(ops: seq<Op>, context: nat, k: nat)
    requires context > 0 && k < |Spans(ops, context)| && OldSide(ops) != [] && NewSide(ops) != []
    ensures HunkOf(ops, Spans(ops, context)[k], context).oldLines > 0
    ensures HunkOf(ops, Spans(ops, context)[k], context).newLines > 0
  {
    var spans := Spans(ops, context);
    var span := spans[k];
    var from, to := From(span, context), To(span, context, |ops|);
    if span.first > 0 {
      OutsideIsSame(ops, context, k, span.first - 1);
      assert ops[from..to][span.first - 1 - from] == ops[span.first - 1];
      SameOpOnBothSides(ops[from..to], span.first - 1 - from);
    } else if span.final < |ops| - 1 {
      OutsideIsSame(ops, context, k, span.final + 1);
      assert ops[from..to][span.final + 1 - from] == ops[span.final + 1];
      SameOpOnBothSides(ops[from..to], span.final + 1 - from);
    } else {
      assert ops[from..to] == ops;
    }
  }

  lemma {:induction false} OutsideIsSame(ops: seq<Op>, context: nat, k: nat, c: nat)
    requires context > 0 && k < |Spans(ops, context)| && c < |ops|
    requires c + 1 == Spans(ops, context)[k].first || c == Spans(ops, context)[k].final + 1
    ensures ops[c].kind.Same?
  {
    SpansAreSeparated(ops, context);
    if !ops[c].kind.Same? {
      var owner := SpanOf(ops, context, c);
    }
  }

  /** Headers follow POSIX as soon as there is context, which the default of three gives. */
  lemma {:induction false} HeadersArePosix(before: string, after: string, context: nat)
    requires context > 0
    ensures PosixHeaders(before, after, context)
  {
    var ops := Script(Split(before), Split(after));
    ScriptReplays(Split(before), Split(after));
    forall k | 0 <= k < |Spans(ops, context)| ensures PosixHunk(ops, Spans(ops, context)[k], context) {
      ContextFillsHunks(ops, context, k);
    }
  }

  /** Without context each changed op is a group of its own. */
  lemma {:induction false} AloneWithoutContext(changed: seq<nat>, n: nat, k: nat)
    requires Increasing(changed) && n <= |changed| && k < |Groups(changed, n, 0)|
    ensures Groups(changed, n, 0)[k].first == Groups(changed, n, 0)[k].final
  {
    var groups := Groups(changed, n - 1, 0);
    if n > 1 {
      GroupsEndAtLast(changed, n - 1, 0);
      assert changed[n - 2] < changed[n - 1];
    }
    assert Groups(changed, n, 0) == groups + [Span(changed[n - 1], changed[n - 1])];
    if k < |groups| {
      AloneWithoutContext(changed, n - 1, k);
    }
  }

  lemma {:induction false} SpansAreSingle(ops: seq<Op>, k: nat)
    requires k < |Spans(ops, 0)|
    ensures Spans(ops, 0)[k].first == Spans(ops, 0)[k].final < |ops| && !ops[Spans(ops, 0)[k].first].kind.Same?
  {
    var changed := ChangedBelow(ops, |ops|);
    ChangedBelowIncreases(ops, |ops|);
    ChangedBelowIsExact(ops, |ops|);
    GroupEdges(changed, |changed|, 0, k);
    AloneWithoutContext(changed, |changed|, k);
  }

  /** A hunk that shows one changed line has an empty range, which the source numbers from
      the line after it. */
  lemma {:induction false} OneChangeIsNotPosix(ops: seq<Op>, c: nat)
    requires c < |ops| && !ops[c].kind.Same?
    ensures !PosixHunk(ops, Span(c, c), 0)
  {
    assert ops[c..c + 1] == [ops[c]] + [];
    SidesCons(ops[c], []);
  }

  lemma {:induction false} NoneIsPosix(ops: seq<Op>)
    ensures NonePosix(ops, 0) && (AllPosix(ops, 0) <==> Spans(ops, 0) == [])
  {
    forall k | 0 <= k < |Spans(ops, 0)| ensures !PosixHunk(ops, Spans(ops, 0)[k], 0) {
      SpansAreSingle(ops, k);
      OneChangeIsNotPosix(ops, Spans(ops, 0)[k].first);
    }
    if Spans(ops, 0) != [] {
      assert !PosixHunk(ops, Spans(ops, 0)[0], 0);
    }
  }

  /** For any two texts and any width: every header is a POSIX one if and only if there is
      context or nothing to show. Without context no header at all is. */
  lemma {:induction false} PosixExactlyWithContext(before: string, after: string, context: nat)
    requires Diff(before, after, context).Some?
    ensures PosixHeaders(before, after, context) <==> context > 0 || before == after
    ensures context == 0 ==> NonePosix(Script(Split(before), Split(after)), 0)
  {
    if context > 0 {
      HeadersArePosix(before, after, context);
    } else {
      PosixWithoutContext(before, after, Script(Split(before), Split(after)));
    }
  }

  lemma {:induction false} PosixWithoutContext(before: string, after: string, ops: seq<Op>)
    requires Diff(before, after, 0).Some? && ops == Script(Split(before), Split(after))
    ensures NonePosix(ops, 0) && (AllPosix(ops, 0) <==> before == after)
  {
    NoneIsPosix(ops);
    NoSpansExactlyWhenEqual(before, after);
  }

  lemma {:induction false} NoSpansExactlyWhenEqual(before: string, after: string)
    requires Diff(before, after, 0).Some?
    ensures Spans(Script(Split(before), Split(after)), 0) == [] <==> before == after
  {
    EmptyExactlyWhenEqual(before, after, 0);
    OneHunkEach(Script(Split(before), Split(after)));
  }

  lemma {:induction false} OneHunkEach(ops: seq<Op>)
    ensures |DiffOfScript(ops, 0).hunks| == |Spans(ops, 0)|
  {
  }

  /** One line added after the first, shown without context: the header says `-2,0` where
      POSIX has `-1,0`. */
  lemma {:induction false} AddedLineWithoutContext()
    ensures Diff("a", "a\nb", 0) == Some(DiffResult([Hunk(2, 0, 2, 1, ["+b"])], 1))
    ensures !PosixHeaders("a", "a\nb", 0) && PosixStart(1, 0) == 1
  {
    SplitLine("a");
    SplitLine("b");
    SplitFirst("a", "b");
    assert "a" + ("\n" + "b") == "a\nb" && ["a"] + ["b"] == ["a", "b"];
    AddedLineScript();
    AddedLineHunks();
    PosixExactlyWithContext("a", "a\nb", 0);
  }

  lemma {:induction false} AddedLineScript()
    ensures Script(["a"], ["a", "b"]) == [Op(Same, "a"), Op(Add, "b")]
  {
    assert ["a"][1..] == [] && ["a", "b"][1..] == ["b"] && ["b"][1..] == [];
    assert Script([], []) == [];
    assert Script([], ["b"]) == [Op(Add, "b")];
  }

  lemma {:induction false} AddedLineHunks()
    ensures DiffOfScript([Op(Same, "a"), Op(Add, "b")], 0) == DiffResult([Hunk(2, 0, 2, 1, ["+b"])], 1)
  {
    var ops := [Op(Same, "a"), Op(Add, "b")];
    assert ChangedBelow(ops, 1) == [] && ChangedBelow(ops, 2) == [1];
    assert Groups([1], 0, 0) == [] && Groups([1], 1, 0) == [Span(1, 1)];
    assert Spans(ops, 0) == [Span(1, 1)];
    assert ops[..1] == [ops[0]] && ops[1..2] == [ops[1]] && ops[1..] == [ops[1]];
    assert [ops[0]][1..] == [] && [ops[1]][1..] == [];
    assert OldSide([ops[0]]) == ["a"] && NewSide([ops[0]]) == ["a"];
    assert OldSide([ops[1]]) == [] && NewSide([ops[1]]) == ["b"];
    assert "+" + "b" == "+b";
    assert Printed([ops[1]]) == ["+b"];
    assert HunkOf(ops, Span(1, 1), 0) == Hunk(2, 0, 2, 1, ["+b"]);
    assert Changes([ops[1]]) == 1 && Changes(ops) == 1;
  }
}
