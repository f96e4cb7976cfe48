/** What a diff shows: exactly the lines near a change, in hunks that join changes which lie
    close together. */
module DiffContext {
  import opened Options
  import opened Text
  import opened LineDiff
  import opened DiffHunks

  /** Some change is at most `context` lines of the script away. */
  ghost predicate Near(ops: seq<Op>, c: nat, context: nat) {
    exists d :: 0 <= d < |ops| && !ops[d].kind.Same? && d - c <= context && c - d <= context
  }

  /** Two changes with nothing but kept lines in between. */
  ghost predicate Neighbours(ops: seq<Op>, d: nat, e: nat) {
    d < e < |ops| && !ops[d].kind.Same? && !ops[e].kind.Same? && forall c :: d < c < e ==> ops[c].kind.Same?
  }

  /** These pieces of the script, in order and apart from each other, are what the hunks show. */
  ghost predicate CutAt(ops: seq<Op>, hunks: seq<Hunk>, bounds: seq<(nat, nat)>) {
    && |bounds| == |hunks|
    && (forall k :: 0 <= k < |bounds| ==>
          bounds[k].0 < bounds[k].1 <= |ops| && hunks[k] == HunkAt(ops, bounds[k].0, bounds[k].1))
    && (forall j, k :: 0 <= j < k < |bounds| ==> bounds[j].1 <= bounds[k].0)
  }

  predicate Within(bounds: seq<(nat, nat)>, k: nat, c: nat)
    requires k < |bounds|
  {
    bounds[k].0 <= c < bounds[k].1
  }

  ghost predicate Shown(bounds: seq<(nat, nat)>, c: nat) {
    exists k :: 0 <= k < |bounds| && Within(bounds, k, c)
  }

  ghost predicate Together(bounds: seq<(nat, nat)>, c: nat, d: nat) {
    exists k :: 0 <= k < |bounds| && Within(bounds, k, c) && Within(bounds, k, d)
  }

  // ---------------------------------------------------------- groups

  /** Nothing inside a group is far from all changes. */
  lemma {:induction false} GroupsAreDense(changed: seq<nat>, n: nat, context: nat, k: nat, c: nat) returns (m: nat)
    requires Increasing(changed) && n <= |changed| && k < |Groups(changed, n, context)|
    requires Groups(changed, n, context)[k].first <= c <= Groups(changed, n, context)[k].final
    ensures m < |changed| && changed[m] - c <= context && c - changed[m] <= context
  {
    var groups := Groups(changed, n - 1, context);
    if k < |groups| && c <= groups[k].final {
      GroupStart(groups, changed[n - 1], context, k);
      m := GroupsAreDense(changed, n - 1, context, k, c);
    } else {
      if n > 1 {
        GroupsEndAtLast(changed, n - 1, context);
      }
      LastStretch(groups, changed[n - 1], context, k, c);
      if changed[n - 1] - c <= context {
        m := n - 1;
      } else {
        m := n - 2;
      }
    }
  }

  lemma {:induction false} GroupStart(groups: seq<Span>, index: nat, context: nat, k: nat)
    requires k < |groups|
    ensures k < |AddIndex(groups, index, context)| && AddIndex(groups, index, context)[k].first == groups[k].first
  {
  }

  /** What adding an index adds to a group: the index, or the stretch since its last change. */
  lemma {:induction false} LastStretch(groups: seq<Span>, index: nat, context: nat, k: nat, c: nat)
    requires k < |AddIndex(groups, index, context)| && (k < |groups| ==> groups[k].final < c)
    requires AddIndex(groups, index, context)[k].first <= c <= AddIndex(groups, index, context)[k].final
    ensures c == index
            || (groups != [] && groups[|groups| - 1].final < c <= index && index - groups[|groups| - 1].final <= context * 2)
  {
  }

  lemma {:induction false} AddIndexJoins(groups: seq<Span>, was: nat, index: nat, context: nat)
    requires groups != [] && groups[|groups| - 1].first <= groups[|groups| - 1].final == was && index - was <= context * 2
    ensures Spanning(AddIndex(groups, index, context), |groups| - 1, was, index)
  {
  }

  /** Group `k` reaches from `a` at the latest to `b` at the earliest. */
  predicate Spanning(groups: seq<Span>, k: nat, a: nat, b: nat) {
    k < |groups| && groups[k].first <= a && b <= groups[k].final
  }

  lemma {:induction false} SpanningLater(groups: seq<Span>, index: nat, context: nat, k: nat, a: nat, b: nat)
    requires Spanning(groups, k, a, b) && groups[|groups| - 1].final <= index
    ensures Spanning(AddIndex(groups, index, context), k, a, b)
  {
    AddIndexWidens(groups, index, context, k);
  }

  lemma {:induction false} GroupsJoin(changed: seq<nat>, n: nat, context: nat, m: nat) returns (k: nat)
    requires Increasing(changed) && m + 1 < n <= |changed| && changed[m + 1] - changed[m] <= context * 2
    ensures Spanning(Groups(changed, n, context), k, changed[m], changed[m + 1])
  {
    var groups := Groups(changed, n - 1, context);
    GroupsEndAtLast(changed, n - 1, context);
    if m + 1 < n - 1 {
      k := GroupsJoin(changed, n - 1, context, m);
      assert changed[n - 2] < changed[n - 1];
      SpanningLater(groups, changed[n - 1], context, k, changed[m], changed[m + 1]);
    } else {
      GroupsAreSeparated(changed, n - 1, context);
      AddIndexJoins(groups, changed[m], changed[m + 1], context);
      k := |groups| - 1;
    }
  }

  // ---------------------------------------------------------- bounds

  function Bounds(ops: seq<Op>, spans: seq<Span>, context: nat): seq<(nat, nat)> {
    seq(|spans|, k requires 0 <= k < |spans| => (From(spans[k], context), To(spans[k], context, |ops|)))
  }

  lemma {:induction false} BoundsCut(ops: seq<Op>, context: nat)
    ensures CutAt(ops, DiffOfScript(ops, context).hunks, Bounds(ops, Spans(ops, context), context))
  {
    SpansAreSeparated(ops, context);
    var spans := Spans(ops, context);
    var bounds := Bounds(ops, spans, context);
    forall j, k | 0 <= j < k < |bounds| ensures bounds[j].1 <= bounds[k].0 {
      assert spans[j].final + context * 2 < spans[k].first;
    }
  }

  lemma {:induction false} ShownIsNear(ops: seq<Op>, context: nat, k: nat, c: nat)
    requires k < |Spans(ops, context)| && Within(Bounds(ops, Spans(ops, context), context), k, c)
    ensures Near(ops, c, context)
  {
    var changed, span := ChangedBelow(ops, |ops|), Spans(ops, context)[k];
    ChangedBelowIncreases(ops, |ops|);
    ChangedBelowIsExact(ops, |ops|);
    GroupEdges(changed, |changed|, context, k);
    if c < span.first {
      assert !ops[span.first].kind.Same? && span.first - c <= context;
    } else if c > span.final {
      assert !ops[span.final].kind.Same? && c - span.final <= context;
    } else {
      var m := GroupsAreDense(changed, |changed|, context, k, c);
      assert changed[m] in changed;
    }
  }

  lemma {:induction false} NearIsShown(ops: seq<Op>, context: nat, c: nat)
    requires c < |ops| && Near(ops, c, context)
    ensures Shown(Bounds(ops, Spans(ops, context), context), c)
  {
    var d :| 0 <= d < |ops| && !ops[d].kind.Same? && d - c <= context && c - d <= context;
    var k := SpanOf(ops, context, d);
    assert Within(Bounds(ops, Spans(ops, context), context), k, c);
  }

  lemma {:induction false} NextIndex(ops: seq<Op>, d: nat, e: nat) returns (m: nat)
    requires Neighbours(ops, d, e)
    ensures var changed := ChangedBelow(ops, |ops|); m + 1 < |changed| && changed[m] == d && changed[m + 1] == e
  {
    var changed := ChangedBelow(ops, |ops|);
    ChangedBelowIncreases(ops, |ops|);
    ChangedBelowIsExact(ops, |ops|);
    assert d in changed && e in changed;
    forall i | 0 <= i < |changed| ensures changed[i] <= d || changed[i] >= e {
      assert changed[i] in changed;
    }
    m :| 0 <= m < |changed| && changed[m] == d;
    var l :| 0 <= l < |changed| && changed[l] == e;
  }

  lemma {:induction false} CloseTogether(ops: seq<Op>, context: nat, d: nat, e: nat)
    requires Neighbours(ops, d, e) && e - d <= context * 2
    ensures Together(Bounds(ops, Spans(ops, context), context), d, e)
  {
    var changed := ChangedBelow(ops, |ops|);
    ChangedBelowIncreases(ops, |ops|);
    var m := NextIndex(ops, d, e);
    var k := GroupsJoin(changed, |changed|, context, m);
    var bounds := Bounds(ops, Spans(ops, context), context);
    assert Within(bounds, k, d) && Within(bounds, k, e);
  }

  lemma {:induction false} SplitBetween(spans: seq<Span>, context: nat, n: nat, k: nat, j: nat, d: nat, e: nat)
    requires Inside(spans, n) && Separated(spans, context) && k < |spans| && j < |spans|
    requires spans[k].first == e && d < e && e - d > context * 2
    ensures !(From(spans[j], context) <= d && e < To(spans[j], context, n))
  {
    var apart := spans[j].final + context * 2 < spans[k].first;
    assert j < k ==> apart;
  }

  lemma {:induction false} FarApart(ops: seq<Op>, context: nat, d: nat, e: nat)
    requires Neighbours(ops, d, e) && e - d > context * 2
    ensures !Together(Bounds(ops, Spans(ops, context), context), d, e)
  {
    var changed, spans := ChangedBelow(ops, |ops|), Spans(ops, context);
    ChangedBelowIncreases(ops, |ops|);
    SpansAreSeparated(ops, context);
    var m := NextIndex(ops, d, e);
    var k := GroupsSplit(changed, |changed|, context, m);
    NotTogether(ops, spans, context, k, d, e);
  }

  lemma {:induction false} NotTogether(ops: seq<Op>, spans: seq<Span>, context: nat, k: nat, d: nat, e: nat)
    requires Inside(spans, |ops|) && Separated(spans, context) && k < |spans|
    requires spans[k].first == e && d < e && e - d > context * 2
    ensures !Together(Bounds(ops, spans, context), d, e)
  {
    var bounds := Bounds(ops, spans, context);
    forall j | 0 <= j < |bounds| ensures !(Within(bounds, j, d) && Within(bounds, j, e)) {
      SplitBetween(spans, context, |ops|, k, j, d, e);
    }
  }

  /** For any script: its hunks are pieces of it, in order and apart; a line is shown if and
      only if a change is within the context of it; and two neighbouring changes share a hunk
      if and only if they are at most twice the context apart. */
  lemma {:induction false} ScriptShowsNear(ops: seq<Op>, context: nat) returns (bounds: seq<(nat, nat)>)
    ensures CutAt(ops, DiffOfScript(ops, context).hunks, bounds)
    ensures forall c :: 0 <= c < |ops| ==> (Shown(bounds, c) <==> Near(ops, c, context))
    ensures forall d: nat, e: nat :: Neighbours(ops, d, e) ==> (Together(bounds, d, e) <==> e - d <= context * 2)
  {
    bounds := Bounds(ops, Spans(ops, context), context);
    BoundsCut(ops, context);
    forall c | 0 <= c < |ops| ensures Shown(bounds, c) <==> Near(ops, c, context) {
      if Near(ops, c, context) {
        NearIsShown(ops, context, c);
      }
      if Shown(bounds, c) {
        var k :| 0 <= k < |bounds| && Within(bounds, k, c);
        ShownIsNear(ops, context, k, c);
      }
    }
    forall d: nat, e: nat | Neighbours(ops, d, e) ensures Together(bounds, d, e) <==> e - d <= context * 2 {
      if e - d <= context * 2 {
        CloseTogether(ops, context, d, e);
      } else {
        FarApart(ops, context, d, e);
      }
    }
  }

  // ---------------------------------------------------------- the order of changes

  /** Of a run of changes the removals come first. */
  ghost predicate RemovalsFirst(ops: seq<Op>) {
    forall i :: 0 <= i < |ops| - 1 ==> !(ops[i].kind.Add? && ops[i + 1].kind.Remove?)
  }

  lemma {:induction false} LcsOfTail(a: seq<string>, b: seq<string>)
    ensures a != [] ==> Lcs(a[1..], b) <= Lcs(a, b)
    ensures b != [] ==> Lcs(a, b[1..]) <= Lcs(a, b)
  {
    if a != [] {
      TailIsNoLonger(a, b);
    }
    if b != [] {
      OtherTailIsNoLonger(a, b);
    }
  }

  lemma {:induction false} TailIsNoLonger(a: seq<string>, b: seq<string>)
    requires a != []
    ensures Lcs(a[1..], b) <= Lcs(a, b)
  {
    LcsIsLongest(a[1..], b);
    var c :| CommonSubsequence(c, a[1..], b) && |c| == Lcs(a[1..], b);
    LongerHolds(c, a);
    LcsIsUpperBound(c, a, b);
  }

  lemma {:induction false} OtherTailIsNoLonger(a: seq<string>, b: seq<string>)
    requires b != []
    ensures Lcs(a, b[1..]) <= Lcs(a, b)
  {
    LcsIsLongest(a, b[1..]);
    var c :| CommonSubsequence(c, a, b[1..]) && |c| == Lcs(a, b[1..]);
    LongerHolds(c, b);
    LcsIsUpperBound(c, a, b);
  }

  lemma {:induction false} LongerHolds(c: seq<string>, s: seq<string>)
    requires s != [] && Subsequence(c, s[1..])
    ensures Subsequence(c, s)
  {
    if c != [] {
      SubsequenceTail(c, s[1..]);
    }
  }

  /** After an added line the walk does not remove one. */
  lemma {:induction false} NoRemovalAfterAdd(a: seq<string>, b: seq<string>)
    requires a != [] && b != [] && a[0] != b[0] && Lcs(a[1..], b) < Lcs(a, b[1..])
    ensures Script(a, b[1..]) != [] && !Script(a, b[1..])[0].kind.Remove?
  {
    LcsOfTail(a[1..], b);
    assert Lcs(a[1..], b[1..]) < Lcs(a, b[1..]);
  }

  lemma {:induction false} OneMoreFirst(op: Op, rest: seq<Op>)
    requires RemovalsFirst(rest) && (op.kind.Add? && rest != [] ==> !rest[0].kind.Remove?)
    ensures RemovalsFirst([op] + rest)
  {
    var ops := [op] + rest;
    forall i | 0 <= i < |ops| - 1 ensures !(ops[i].kind.Add? && ops[i + 1].kind.Remove?) {
      assert i > 0 ==> ops[i] == rest[i - 1] && ops[i + 1] == rest[i];
    }
  }

  lemma {:induction false} OnlyAdds(b: seq<string>)
    ensures RemovalsFirst(Script([], b)) && (b != [] ==> !Script([], b)[0].kind.Remove?)
  {
    if b != [] {
      OnlyAdds(b[1..]);
      OneMoreFirst(Op(Add, b[0]), Script([], b[1..]));
    }
  }

  /** Between two kept lines the removed lines stand before the added ones, as readers of
      unified diffs expect. */
  lemma {:induction false} ScriptRemovesFirst(a: seq<string>, b: seq<string>)
    ensures RemovalsFirst(Script(a, b))
    decreases |a| + |b|
  {
    if a == [] {
      OnlyAdds(b);
    } else if b == [] || (a[0] != b[0] && Lcs(a[1..], b) >= Lcs(a, b[1..])) {
      ScriptRemovesFirst(a[1..], b);
      OneMoreFirst(Op(Remove, a[0]), Script(a[1..], b));
    } else if a[0] == b[0] {
      ScriptRemovesFirst(a[1..], b[1..]);
      OneMoreFirst(Op(Same, a[0]), Script(a[1..], b[1..]));
    } else {
      ScriptRemovesFirst(a, b[1..]);
      NoRemovalAfterAdd(a, b);
      OneMoreFirst(Op(Add, b[0]), Script(a, b[1..]));
    }
  }

  // ---------------------------------------------------------- two texts

  /** Texts are compared unless one has more than 4000 lines; then the hunks are cut from a
      script that turns one into the other with as few changes as there can be, removals
      first, and show exactly the lines within the context of a change. */
  lemma {:induction false} DiffShowsNear(before: string, after: string, context: nat) returns (ops: seq<Op>, bounds: seq<(nat, nat)>)
    ensures Diff(before, after, context).None? <==> |Split(before)| > 4000 || |Split(after)| > 4000
    ensures Diff(before, after, context).Some? ==>
              && Transforms(ops, Split(before), Split(after)) && RemovalsFirst(ops)
              && Diff(before, after, context).value.changedLines == Changes(ops)
              && (forall other :: Transforms(other, Split(before), Split(after)) ==> Changes(ops) <= Changes(other))
              && CutAt(ops, Diff(before, after, context).value.hunks, bounds)
              && (forall c :: 0 <= c < |ops| ==> (Shown(bounds, c) <==> Near(ops, c, context)))
              && (forall d: nat, e: nat :: Neighbours(ops, d, e) ==> (Together(bounds, d, e) <==> e - d <= context * 2))
  {
    ops := Script(Split(before), Split(after));
    bounds := ScriptShowsNear(ops, context);
    ScriptReplays(Split(before), Split(after));
    ScriptIsMinimal(Split(before), Split(after));
    ScriptRemovesFirst(Split(before), Split(after));
  }
}
