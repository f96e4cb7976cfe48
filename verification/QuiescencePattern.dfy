/** What the two patterns of the completion judge mean, and what its count counts. */
module QuiescencePattern {
  import opened Options
  import opened Sequences
  import opened JsonLines
  import opened ChatBlocks
  import opened ChatPattern
  import opened Quiescence

  /** Three backticks or more, blanks, the tag. */
  ghost predicate Tagged(s: string, n: nat, rest: string) {
    exists fence, gap :: |fence| == n >= 3 && Fence(fence) && Gaps(gap) && s == fence + (gap + ("dwtd" + rest))
  }

  lemma {:induction false} TagAtMeans(s: string, n: nat, rest: string)
    ensures TagAt(s) == Some((n, rest)) <==> Tagged(s, n, rest)
  {
    if Tagged(s, n, rest) {
      var fence, gap :| |fence| == n >= 3 && Fence(fence) && Gaps(gap) && s == fence + (gap + ("dwtd" + rest));
      FenceThenGap(fence, gap, "dwtd" + rest);
      SkipGapsOver(gap, "dwtd" + rest);
      DropPrefix("dwtd", rest);
    }
    if TagAt(s) == Some((n, rest)) {
      TagIsSpelled(s);
    }
  }

  lemma {:induction false} TagOf(s: string, fence: string, g: string, gap: string, t: string, rest: string)
    requires Fence(fence) && |fence| >= 3 && Gaps(gap) && s == fence + g && g == gap + t && t == "dwtd" + rest
    ensures Tagged(s, |fence|, rest)
  {
  }

  lemma {:induction false} TagIsSpelled(s: string)
    requires TagAt(s).Some?
    ensures Tagged(s, TagAt(s).value.0, TagAt(s).value.1)
  {
    var n := Ticks(s);
    var t := SkipGaps(s[n..]);
    var gap := SkipGapsSplits(s[n..]);
    TicksSplit(s);
    SplitAt(s, n);
    SplitAt(t, 4);
    TagOf(s, s[..n], s[n..], gap, t, t[4..]);
  }

  lemma {:induction false} LineBreakMeans(s: string, rest: string)
    ensures LineBreakAt(s) == Some(rest) <==> exists end :: Newline(end) && s == end + rest
  {
    if LineBreakAt(s) == Some(rest) {
      var end := NewlineSplits(s, rest);
    }
    forall end | Newline(end) && s == end + rest ensures LineBreakAt(s) == Some(rest) {
      assert end == "\n" ==> s[0] == '\n' && s[1..] == rest;
      assert end == "\r\n" ==> s[0] == '\r' && s[1] == '\n' && s[2..] == rest;
    }
  }

  /** A line end, blanks, and as many backticks as opened the block; more may follow. */
  ghost predicate Fenced(s: string, n: nat, rest: string) {
    exists end, indent, fence :: |fence| == n && Newline(end) && Gaps(indent) && Fence(fence)
                                 && s == end + (indent + (fence + rest))
  }

  lemma {:induction false} TicksAtLeast(fence: string, rest: string)
    requires Fence(fence)
    ensures Ticks(fence + rest) >= |fence| && (fence + rest)[|fence|..] == rest
  {
    if fence == "" {
      assert fence + rest == rest;
    } else {
      FirstAndRest(fence, rest);
      DropFirst(fence[0], fence[1..] + rest);
      TicksAtLeast(fence[1..], rest);
    }
  }

  lemma {:induction false} FenceSlice(s: string, n: nat)
    requires n <= Ticks(s)
    ensures Fence(s[..n])
  {
    TicksSplit(s);
    assert forall i :: 0 <= i < n ==> s[..n][i] == s[..Ticks(s)][i];
  }

  lemma {:induction false} FenceAtMeans(s: string, n: nat, rest: string)
    requires n > 0
    ensures FenceAt(s, n) == Some(rest) <==> Fenced(s, n, rest)
  {
    if Fenced(s, n, rest) {
      var end, indent, fence :| |fence| == n && Newline(end) && Gaps(indent) && Fence(fence) && s == end + (indent + (fence + rest));
      LineBreakMeans(s, indent + (fence + rest));
      assert (fence + rest)[0] == fence[0];
      SkipGapsOver(indent, fence + rest);
      TicksAtLeast(fence, rest);
    }
    if FenceAt(s, n) == Some(rest) {
      FenceIsSpelled(s, n);
    }
  }

  lemma {:induction false} FencedOf(s: string, end: string, l: string, indent: string, t: string, fence: string, rest: string)
    requires Newline(end) && Gaps(indent) && Fence(fence) && s == end + l && l == indent + t && t == fence + rest
    ensures Fenced(s, |fence|, rest)
  {
  }

  lemma {:induction false} FenceIsSpelled(s: string, n: nat)
    requires FenceAt(s, n).Some?
    ensures Fenced(s, n, FenceAt(s, n).value)
  {
    var l := LineBreakAt(s).value;
    var t := SkipGaps(l);
    var end := NewlineSplits(s, l);
    var indent := SkipGapsSplits(l);
    FenceSlice(t, n);
    SplitAt(t, n);
    FencedOf(s, end, l, indent, t, t[..n], t[n..]);
  }

  /** The first place at which a fence stands, counted from the front. */
  ghost predicate FencedFirst(s: string, n: nat, i: nat, rest: string) {
    i <= |s| && Fenced(s[i..], n, rest) && forall j, other :: 0 <= j < i ==> !Fenced(s[j..], n, other)
  }

  lemma {:induction false} FindFenceMeans(s: string, n: nat, rest: string)
    requires n > 0
    ensures FindFence(s, n) == Some(rest) <==> exists i :: FencedFirst(s, n, i, rest)
    decreases |s|
  {
    assert s[0..] == s;
    if FenceAt(s, n).Some? {
      FenceAtMeans(s, n, FenceAt(s, n).value);
      FenceAtMeans(s, n, rest);
      assert Fenced(s[0..], n, FenceAt(s, n).value);
      assert FencedFirst(s, n, 0, FenceAt(s, n).value);
    } else if s == "" {
      FenceAtMeans(s, n, rest);
    } else {
      FindFenceMeans(s[1..], n, rest);
      FencedLater(s, n, rest);
    }
  }

  lemma {:induction false} FencedLater(s: string, n: nat, rest: string)
    requires n > 0 && s != "" && FenceAt(s, n).None?
    ensures (exists i :: FencedFirst(s, n, i, rest)) <==> exists i :: FencedFirst(s[1..], n, i, rest)
  {
    forall other ensures !Fenced(s[0..], n, other) {
      assert s[0..] == s;
      FenceAtMeans(s, n, other);
    }
    forall i: nat | 0 < i <= |s| ensures FencedFirst(s, n, i, rest) <==> FencedFirst(s[1..], n, i - 1, rest) {
      forall j | 0 < j <= |s| ensures s[1..][j - 1..] == s[j..] {
      }
      if FencedFirst(s[1..], n, i - 1, rest) {
        forall j, other | 0 <= j < i ensures !Fenced(s[j..], n, other) {
          assert j > 0 ==> s[1..][j - 1..] == s[j..];
        }
      }
      if FencedFirst(s, n, i, rest) {
        forall j, other | 0 <= j < i - 1 ensures !Fenced(s[1..][j..], n, other) {
          assert s[1..][j..] == s[j + 1..];
        }
      }
    }
    if exists i :: FencedFirst(s[1..], n, i, rest) {
      var i: nat :| FencedFirst(s[1..], n, i, rest);
      assert FencedFirst(s, n, i + 1, rest);
    }
    if exists i :: FencedFirst(s, n, i, rest) {
      var i: nat :| FencedFirst(s, n, i, rest);
      assert i > 0;
      assert FencedFirst(s[1..], n, i - 1, rest);
    }
  }

  /** A complete block: its opening line, and the first fence of its length on a later line. */
  ghost predicate Complete(s: string, rest: string) {
    exists n: nat, tagged: string, more: string, end: string, inside: string, i: nat ::
      Tagged(s, n, tagged) && Gaps(more) && Newline(end) && tagged == more + (end + inside) && FencedFirst(inside, n, i, rest)
  }

  lemma {:induction false} BodyBegins(tagged: string, inside: string)
    ensures LineBreakAt(SkipGaps(tagged)) == Some(inside)
       <==> exists more, end :: Gaps(more) && Newline(end) && tagged == more + (end + inside)
  {
    LineBreakMeans(SkipGaps(tagged), inside);
    if LineBreakAt(SkipGaps(tagged)) == Some(inside) {
      var more := SkipGapsSplits(tagged);
      var end :| Newline(end) && SkipGaps(tagged) == end + inside;
      assert tagged == more + (end + inside);
    }
    forall more, end | Gaps(more) && Newline(end) && tagged == more + (end + inside)
      ensures SkipGaps(tagged) == end + inside
    {
      SkipGapsOver(more, end + inside);
    }
  }

  lemma {:induction false} ClosedAtMeans(s: string, rest: string)
    ensures ClosedAt(s) == Some(rest) <==> Complete(s, rest)
  {
    if ClosedAt(s) == Some(rest) {
      var n, tagged := TagAt(s).value.0, TagAt(s).value.1;
      var inside := LineBreakAt(SkipGaps(tagged)).value;
      TagAtMeans(s, n, tagged);
      BodyBegins(tagged, inside);
      FindFenceMeans(inside, n, rest);
    }
    if Complete(s, rest) {
      var n: nat, tagged: string, more: string, end: string, inside: string, i: nat :|
        Tagged(s, n, tagged) && Gaps(more) && Newline(end) && tagged == more + (end + inside) && FencedFirst(inside, n, i, rest);
      TagAtMeans(s, n, tagged);
      BodyBegins(tagged, inside);
      FindFenceMeans(inside, n, rest);
    }
  }

  /** The first complete block of a text, wherever it begins, and what comes after it. */
  lemma {:induction false} FirstComplete(s: string) returns (i: nat)
    ensures ExecClosed(s).None? ==> forall j, rest :: 0 <= j < |s| ==> !Complete(s[j..], rest)
    ensures ExecClosed(s).Some? ==>
              i < |s| && Complete(s[i..], ExecClosed(s).value) && forall j, rest :: 0 <= j < i ==> !Complete(s[j..], rest)
  {
    i := 0;
    if s != "" {
      assert s[0..] == s;
      if ClosedAt(s).Some? {
        ClosedAtMeans(s, ClosedAt(s).value);
      } else {
        forall rest ensures !Complete(s[0..], rest) {
          ClosedAtMeans(s, rest);
        }
        i := FirstComplete(s[1..]);
        forall j | 0 < j <= |s| ensures s[1..][j - 1..] == s[j..] {
        }
        forall j, rest | 0 < j < |s| && !Complete(s[1..][j - 1..], rest) ensures !Complete(s[j..], rest) {
        }
        i := i + 1;
      }
    }
  }
}
