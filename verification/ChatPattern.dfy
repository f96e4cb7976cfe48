/** What the block pattern means: the readers of the pattern against its parts, spelled out. */
module ChatPattern {
  import opened Options
  import opened Sequences
  import opened JsonLines
  import opened ChatBlocks

  predicate Gaps(s: string) {
    forall i :: 0 <= i < |s| ==> s[i] == ' ' || s[i] == '\t'
  }

  predicate Fence(s: string) {
    forall i :: 0 <= i < |s| ==> s[i] == '`'
  }

  /** How a line ends before the body. */
  predicate Newline(s: string) {
    s == "\n" || s == "\r\n"
  }

  /** Whether there is a line end before the closing fence, or half of one. */
  predicate MaybeNewline(s: string) {
    s == "" || s == "\r" || s == "\n" || s == "\r\n"
  }

  /** An opening line: blanks, three backticks or more, blanks, the tag, blanks, a line end. */
  ghost predicate OpensWith(s: string, indent: string, fence: string, gap: string, more: string, end: string, rest: string) {
    Gaps(indent) && Fence(fence) && |fence| >= 3 && Gaps(gap) && Gaps(more) && Newline(end)
    && s == indent + (fence + (gap + ("dwtd" + (more + (end + rest)))))
  }

  ghost predicate Opens(s: string, n: nat, rest: string) {
    exists indent, fence, gap, more, end :: |fence| == n && OpensWith(s, indent, fence, gap, more, end, rest)
  }

  /** A closing fence of exactly as many backticks, and then the end of the line. */
  ghost predicate ClosesWith(s: string, start: string, indent: string, fence: string, gap: string, rest: string) {
    MaybeNewline(start) && Gaps(indent) && Fence(fence) && Gaps(gap) && AtLineEnd(rest)
    && s == start + (indent + (fence + (gap + rest)))
  }

  ghost predicate Closes(s: string, n: nat, rest: string) {
    exists start, indent, fence, gap :: |fence| == n && ClosesWith(s, start, indent, fence, gap, rest)
  }

  // ---------------------------------------------------------- runs

  lemma {:induction false} SkipGapsOver(gaps: string, rest: string)
    requires Gaps(gaps) && (rest != "" ==> !Gap(rest[0]))
    ensures SkipGaps(gaps + rest) == rest
  {
    if gaps == "" {
      assert gaps + rest == rest;
    } else {
      FirstAndRest(gaps, rest);
      DropFirst(gaps[0], gaps[1..] + rest);
      SkipGapsOver(gaps[1..], rest);
    }
  }

  lemma {:induction false} SkipGapsSplits(s: string) returns (gaps: string)
    ensures Gaps(gaps) && s == gaps + SkipGaps(s) && (SkipGaps(s) != "" ==> !Gap(SkipGaps(s)[0]))
  {
    if s != "" && Gap(s[0]) {
      gaps := SkipGapsSplits(s[1..]);
      assert s == [s[0]] + s[1..];
      Associative([s[0]], gaps, SkipGaps(s));
      gaps := [s[0]] + gaps;
    } else {
      gaps := "";
      assert s == "" + s;
    }
  }

  lemma {:induction false} TicksOver(fence: string, rest: string)
    requires Fence(fence) && (rest != "" ==> rest[0] != '`')
    ensures Ticks(fence + rest) == |fence| && (fence + rest)[|fence|..] == rest
  {
    if fence == "" {
      assert fence + rest == rest;
    } else {
      FirstAndRest(fence, rest);
      DropFirst(fence[0], fence[1..] + rest);
      TicksOver(fence[1..], rest);
    }
  }

  lemma {:induction false} TicksSplit(s: string)
    ensures Fence(s[..Ticks(s)]) && (Ticks(s) < |s| ==> s[Ticks(s)] != '`')
  {
    if s != "" && s[0] == '`' {
      TicksSplit(s[1..]);
      assert s[..Ticks(s)] == [s[0]] + s[1..][..Ticks(s[1..])];
    }
  }

  // ---------------------------------------------------------- the opening line

  lemma {:induction false} OpenIsFound(s: string, indent: string, fence: string, gap: string, more: string, end: string, rest: string)
    requires OpensWith(s, indent, fence, gap, more, end, rest)
    ensures OpenAt(s) == Some((|fence|, rest))
  {
    var tail := end + rest;
    var tagged := "dwtd" + (more + tail);
    SkipGapsOver(indent, fence + (gap + tagged));
    FenceThenGap(fence, gap, tagged);
    SkipGapsOver(gap, tagged);
    DropPrefix("dwtd", more + tail);
    SkipGapsOver(more, tail);
    assert end == "\n" ==> tail[0] == '\n' && tail[1..] == rest;
    assert end == "\r\n" ==> tail[0] == '\r' && tail[1] == '\n' && tail[2..] == rest;
  }

  lemma {:induction false} FenceThenGap(fence: string, gap: string, rest: string)
    requires Fence(fence) && Gaps(gap) && (rest != "" ==> rest[0] != '`')
    ensures Ticks(fence + (gap + rest)) == |fence| && (fence + (gap + rest))[|fence|..] == gap + rest
  {
    assert gap != "" ==> (gap + rest)[0] == gap[0];
    assert gap == "" ==> gap + rest == rest;
    TicksOver(fence, gap + rest);
  }

  lemma {:induction false} OpenOf(s: string, indent: string, t: string, fence: string, g: string, gap: string, u: string,
                                  v: string, more: string, w: string, end: string, rest: string)
    requires Gaps(indent) && Fence(fence) && |fence| >= 3 && Gaps(gap) && Gaps(more) && Newline(end)
    requires s == indent + t && t == fence + g && g == gap + u && u == "dwtd" + v && v == more + w && w == end + rest
    ensures Opens(s, |fence|, rest)
  {
    assert OpensWith(s, indent, fence, gap, more, end, rest);
  }

  lemma {:induction false} SplitAt(s: string, n: nat)
    requires n <= |s|
    ensures s == s[..n] + s[n..]
  {
  }

  lemma {:induction false} NewlineSplits(w: string, rest: string) returns (end: string)
    requires (w != "" && w[0] == '\n' && rest == w[1..]) || (|w| > 1 && w[0] == '\r' && w[1] == '\n' && rest == w[2..])
    ensures Newline(end) && w == end + rest
  {
    end := if w[0] == '\n' then "\n" else "\r\n";
  }

  lemma {:induction false} OpenIsSpelled(s: string)
    requires OpenAt(s).Some?
    ensures Opens(s, OpenAt(s).value.0, OpenAt(s).value.1)
  {
    var t := SkipGaps(s);
    var n := Ticks(t);
    var u := SkipGaps(t[n..]);
    var w := SkipGaps(u[4..]);
    var indent := SkipGapsSplits(s);
    var gap := SkipGapsSplits(t[n..]);
    var more := SkipGapsSplits(u[4..]);
    var end := NewlineSplits(w, OpenAt(s).value.1);
    TicksSplit(t);
    SplitAt(t, n);
    SplitAt(u, 4);
    OpenOf(s, indent, t, t[..n], t[n..], gap, u, u[4..], more, w, end, OpenAt(s).value.1);
  }

  /** The opening line is read exactly as it is spelled. */
  lemma {:induction false} OpenAtMeans(s: string, n: nat, rest: string)
    ensures OpenAt(s) == Some((n, rest)) <==> Opens(s, n, rest)
  {
    if Opens(s, n, rest) {
      var indent, fence, gap, more, end :| |fence| == n && OpensWith(s, indent, fence, gap, more, end, rest);
      OpenIsFound(s, indent, fence, gap, more, end, rest);
    }
    if OpenAt(s) == Some((n, rest)) {
      OpenIsSpelled(s);
    }
  }

  // ---------------------------------------------------------- the closing fence

  lemma {:induction false} SkipLineBreakOver(start: string, rest: string)
    requires MaybeNewline(start) && (rest != "" ==> rest[0] != '\n' && rest[0] != '\r')
    ensures SkipLineBreak(start + rest) == rest
  {
    assert start == "" ==> start + rest == rest;
    assert start == "\r" ==> (start + rest)[1..] == rest;
    assert start == "\n" ==> (start + rest)[1..] == rest;
    assert start == "\r\n" ==> (start + rest)[1..] == "\n" + rest && ("\n" + rest)[1..] == rest;
  }

  lemma {:induction false} CloseIsFound(s: string, start: string, indent: string, fence: string, gap: string, rest: string)
    requires ClosesWith(s, start, indent, fence, gap, rest) && fence != ""
    ensures CloseAt(s, |fence|) == Some(rest)
  {
    var fenced := fence + (gap + rest);
    assert fenced[0] == '`';
    assert indent != "" ==> (indent + fenced)[0] == indent[0];
    assert indent == "" ==> indent + fenced == fenced;
    SkipLineBreakOver(start, indent + fenced);
    SkipGapsOver(indent, fenced);
    FenceThenGap(fence, gap, rest);
    SkipGapsOver(gap, rest);
  }

  lemma {:induction false} LineBreakSplits(s: string) returns (start: string)
    ensures MaybeNewline(start) && s == start + SkipLineBreak(s)
  {
    var t := if s != "" && s[0] == '\r' then s[1..] else s;
    start := (if s != "" && s[0] == '\r' then "\r" else "") + (if t != "" && t[0] == '\n' then "\n" else "");
    assert s != "" && s[0] == '\r' ==> s == "\r" + t;
    assert t != "" && t[0] == '\n' ==> t == "\n" + t[1..];
  }

  lemma {:induction false} CloseOf(s: string, start: string, l: string, indent: string, t: string, fence: string, g: string,
                                   gap: string, rest: string)
    requires MaybeNewline(start) && Gaps(indent) && Fence(fence) && Gaps(gap) && AtLineEnd(rest)
    requires s == start + l && l == indent + t && t == fence + g && g == gap + rest
    ensures Closes(s, |fence|, rest)
  {
    assert ClosesWith(s, start, indent, fence, gap, rest);
  }

  lemma {:induction false} CloseIsSpelled(s: string, n: nat)
    requires CloseAt(s, n).Some?
    ensures Closes(s, n, CloseAt(s, n).value)
  {
    var l := SkipLineBreak(s);
    var t := SkipGaps(l);
    var start := LineBreakSplits(s);
    var indent := SkipGapsSplits(l);
    var gap := SkipGapsSplits(t[n..]);
    TicksSplit(t);
    SplitAt(t, n);
    CloseOf(s, start, l, indent, t, t[..n], t[n..], gap, CloseAt(s, n).value);
  }

  /** The closing fence is read exactly as it is spelled. */
  lemma {:induction false} CloseAtMeans(s: string, n: nat, rest: string)
    requires n > 0
    ensures CloseAt(s, n) == Some(rest) <==> Closes(s, n, rest)
  {
    if Closes(s, n, rest) {
      var start, indent, fence, gap :| |fence| == n && ClosesWith(s, start, indent, fence, gap, rest);
      CloseIsFound(s, start, indent, fence, gap, rest);
    }
    if CloseAt(s, n) == Some(rest) {
      CloseIsSpelled(s, n);
    }
  }

  // ---------------------------------------------------------- a whole block

  /** No fence of that length closes before the end of this body. */
  ghost predicate Shortest(s: string, body: string, n: nat) {
    forall k, rest :: 0 <= k < |body| && k <= |s| ==> !Closes(s[k..], n, rest)
  }

  lemma {:induction false} FindCloseMeans(s: string, n: nat, body: string, rest: string)
    requires n > 0
    ensures FindClose(s, n) == Some((body, rest))
       <==> body <= s && Closes(s[|body|..], n, rest) && Shortest(s, body, n)
    decreases |s|
  {
    assert s[0..] == s;
    if CloseAt(s, n).Some? {
      CloseAtMeans(s, n, CloseAt(s, n).value);
      CloseAtMeans(s, n, rest);
      assert Closes(s[0..], n, CloseAt(s, n).value);
    } else if s == "" {
      CloseAtMeans(s, n, rest);
    } else {
      FindCloseLater(s, n, body, rest);
    }
  }

  lemma {:induction false} FindCloseMore(s: string, n: nat, body: string, rest: string)
    requires s != "" && body != "" && CloseAt(s, n).None?
    ensures FindClose(s, n) == Some((body, rest)) <==> body[0] == s[0] && FindClose(s[1..], n) == Some((body[1..], rest))
  {
    assert body == [body[0]] + body[1..];
    if FindClose(s[1..], n).Some? {
      DropFirst(s[0], FindClose(s[1..], n).value.0);
    }
  }

  lemma {:induction false} PrefixLater(s: string, body: string)
    requires s != "" && body != ""
    ensures body <= s <==> body[0] == s[0] && body[1..] <= s[1..]
    ensures body <= s ==> s[1..][|body[1..]|..] == s[|body|..]
  {
    if body[0] == s[0] && body[1..] <= s[1..] {
      assert body == [body[0]] + body[1..];
    }
  }

  lemma {:induction false} FindCloseLater(s: string, n: nat, body: string, rest: string)
    requires n > 0 && s != "" && CloseAt(s, n).None?
    ensures FindClose(s, n) == Some((body, rest))
       <==> body <= s && Closes(s[|body|..], n, rest) && Shortest(s, body, n)
    decreases |s|, 0
  {
    if body == "" {
      CloseAtMeans(s, n, rest);
      assert s[0..] == s;
    } else {
      FindCloseMore(s, n, body, rest);
      PrefixLater(s, body);
      FindCloseMeans(s[1..], n, body[1..], rest);
      ShortestLater(s, body, n);
    }
  }

  lemma {:induction false} ShortestLater(s: string, body: string, n: nat)
    requires n > 0 && s != "" && body != "" && CloseAt(s, n).None?
    ensures Shortest(s, body, n) <==> Shortest(s[1..], body[1..], n)
  {
    forall rest ensures !Closes(s[0..], n, rest) {
      assert s[0..] == s;
      CloseAtMeans(s, n, rest);
    }
    if Shortest(s, body, n) {
      forall k, rest | 0 <= k < |body[1..]| && k <= |s[1..]| ensures !Closes(s[1..][k..], n, rest) {
        assert s[1..][k..] == s[k + 1..];
      }
    }
    if Shortest(s[1..], body[1..], n) {
      forall k, rest | 0 <= k < |body| && k <= |s| ensures !Closes(s[k..], n, rest) {
        if k > 0 {
          assert s[1..][k - 1..] == s[k..];
        }
      }
    }
  }

  /** A block spelled at the front of a text: an opening line, the shortest body that a fence of
      the same length closes at the end of a line, and what comes after. */
  ghost predicate BlockSpelled(s: string, m: Found, rest: string) {
    exists n: nat, inside: string ::
      Opens(s, n, inside) && m.body <= inside && Closes(inside[|m.body|..], n, rest) && Shortest(inside, m.body, n)
      && m.text + rest == s
  }

  predicate EndsIn(s: string, rest: string) {
    |rest| <= |s| && s[|s| - |rest|..] == rest
  }

  lemma {:induction false} EndsInLast(front: string, rest: string)
    ensures EndsIn(front + rest, rest)
  {
  }

  lemma {:induction false} ClosesIsEnd(s: string, n: nat, rest: string)
    requires Closes(s, n, rest)
    ensures EndsIn(s, rest)
  {
    var start, indent, fence, gap :| |fence| == n && ClosesWith(s, start, indent, fence, gap, rest);
    Associative(fence, gap, rest);
    Associative(indent, fence + gap, rest);
    Associative(start, indent + (fence + gap), rest);
    EndsInLast(start + (indent + (fence + gap)), rest);
  }

  lemma {:induction false} CloseIsEnd(s: string, n: nat)
    requires CloseAt(s, n).Some?
    ensures EndsIn(s, CloseAt(s, n).value)
  {
    CloseIsSpelled(s, n);
    ClosesIsEnd(s, n, CloseAt(s, n).value);
  }

  lemma {:induction false} OpensIsEnd(s: string, n: nat, rest: string)
    requires Opens(s, n, rest)
    ensures EndsIn(s, rest)
  {
    var indent, fence, gap, more, end :| |fence| == n && OpensWith(s, indent, fence, gap, more, end, rest);
    Associative(more, end, rest);
    Associative("dwtd", more + end, rest);
    Associative(gap, "dwtd" + (more + end), rest);
    Associative(fence, gap + ("dwtd" + (more + end)), rest);
    Associative(indent, fence + (gap + ("dwtd" + (more + end))), rest);
    EndsInLast(indent + (fence + (gap + ("dwtd" + (more + end)))), rest);
  }

  lemma {:induction false} OpenIsEnd(s: string)
    requires OpenAt(s).Some?
    ensures EndsIn(s, OpenAt(s).value.1)
  {
    OpenIsSpelled(s);
    OpensIsEnd(s, OpenAt(s).value.0, OpenAt(s).value.1);
  }

  lemma {:induction false} CloseIsSuffix(s: string, n: nat)
    ensures FindClose(s, n).Some? ==> EndsIn(s, FindClose(s, n).value.1)
  {
    if CloseAt(s, n).Some? {
      CloseIsEnd(s, n);
    } else if s != "" {
      CloseIsSuffix(s[1..], n);
      if FindClose(s, n).Some? {
        var rest := FindClose(s, n).value.1;
        assert s[1..][|s[1..]| - |rest|..] == s[|s| - |rest|..];
      }
    }
  }

  lemma {:induction false} MatchSplits(s: string)
    requires MatchAt(s).Some?
    ensures MatchAt(s).value.0.text + MatchAt(s).value.1 == s
  {
    var inside, rest := OpenAt(s).value.1, MatchAt(s).value.1;
    OpenIsEnd(s);
    CloseIsSuffix(inside, OpenAt(s).value.0);
    assert inside[|inside| - |rest|..] == s[|s| - |rest|..];
  }

  /** The pattern matches at the start of a line exactly the block that is spelled there. */
  lemma {:induction false} MatchAtMeans(s: string, m: Found, rest: string)
    ensures MatchAt(s) == Some((m, rest)) <==> BlockSpelled(s, m, rest)
  {
    if MatchAt(s) == Some((m, rest)) {
      var n, inside := OpenAt(s).value.0, OpenAt(s).value.1;
      OpenAtMeans(s, n, inside);
      FencesAreLong(s);
      FindCloseMeans(inside, n, m.body, rest);
      MatchSplits(s);
    }
    if BlockSpelled(s, m, rest) {
      var n: nat, inside: string :|
        Opens(s, n, inside) && m.body <= inside && Closes(inside[|m.body|..], n, rest) && Shortest(inside, m.body, n)
        && m.text + rest == s;
      OpenAtMeans(s, n, inside);
      FencesAreLong(s);
      FindCloseMeans(inside, n, m.body, rest);
      assert s[..|s| - |rest|] == m.text;
    }
  }

  lemma {:induction false} FencesAreLong(s: string)
    ensures OpenAt(s).Some? ==> OpenAt(s).value.0 >= 3
  {
  }

  // ---------------------------------------------------------- all the matches

  predicate LineStarts(s: string, lineStart: bool, i: nat)
    requires i <= |s|
  {
    if i == 0 then lineStart else LineEnd(s[i - 1])
  }

  ghost predicate BlockAt(s: string, lineStart: bool, i: nat) {
    i < |s| && LineStarts(s, lineStart, i) && exists m, rest :: BlockSpelled(s[i..], m, rest)
  }

  lemma {:induction false} NoBlockHere(s: string, lineStart: bool)
    requires s != ""
    ensures BlockAt(s, lineStart, 0) <==> lineStart && MatchAt(s).Some?
  {
    assert s[0..] == s;
    if MatchAt(s).Some? {
      MatchAtMeans(s, MatchAt(s).value.0, MatchAt(s).value.1);
    }
    if BlockAt(s, lineStart, 0) {
      var m, rest :| BlockSpelled(s[0..], m, rest);
      MatchAtMeans(s, m, rest);
    }
  }

  lemma {:induction false} BlockLater(s: string, lineStart: bool, i: nat)
    requires s != "" && 0 < i
    ensures BlockAt(s, lineStart, i) <==> BlockAt(s[1..], LineEnd(s[0]), i - 1)
  {
    if i < |s| {
      assert s[1..][i - 1..] == s[i..];
    }
  }

  /** The matches of a text: the first block that starts a line, and then those of what comes
      after it, which starts no line; none when no block starts one. */
  lemma {:induction false} MatchesInOrder(s: string, lineStart: bool) returns (i: nat)
    ensures MatchAll(s, lineStart) == [] ==> forall j: nat :: !BlockAt(s, lineStart, j)
    ensures MatchAll(s, lineStart) != [] ==>
              i < |s| && LineStarts(s, lineStart, i) && (forall j: nat :: j < i ==> !BlockAt(s, lineStart, j))
              && exists rest :: BlockSpelled(s[i..], MatchAll(s, lineStart)[0], rest)
                                && MatchAll(s, lineStart) == [MatchAll(s, lineStart)[0]] + MatchAll(rest, false)
    decreases |s|
  {
    i := 0;
    if s != "" {
      NoBlockHere(s, lineStart);
      assert s[0..] == s;
      if lineStart && MatchAt(s).Some? {
        var m, rest := MatchAt(s).value.0, MatchAt(s).value.1;
        MatchAtMeans(s, m, rest);
        DropFirst(m, MatchAll(rest, false));
      } else {
        i := MatchesInOrder(s[1..], LineEnd(s[0]));
        forall j: nat | 0 < j ensures BlockAt(s, lineStart, j) <==> BlockAt(s[1..], LineEnd(s[0]), j - 1) {
          BlockLater(s, lineStart, j);
        }
        if MatchAll(s, lineStart) != [] {
          assert s[1..][i..] == s[i + 1..];
          i := i + 1;
        }
      }
    }
  }
}
