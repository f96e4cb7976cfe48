/** What is left of a message when its blocks are taken out: its paragraphs. */
module ChatProse {
  import opened Sequences
  import opened Text
  import opened ChatBlocks
  import opened ChatRoundTrip

  function Breaks(n: nat): string {
    if n == 0 then "" else "\n" + Breaks(n - 1)
  }

  predicate NoTripleBreak(s: string) {
    |s| < 3 || (!(s[0] == '\n' && s[1] == '\n' && s[2] == '\n') && NoTripleBreak(s[1..]))
  }

  /** A paragraph: not empty, no space at either end, no run of three newlines. */
  predicate Neat(s: string) {
    s != "" && !IsSpace(s[0]) && !IsSpace(s[|s| - 1]) && NoTripleBreak(s)
  }

  predicate AllNeat(parts: seq<Part>) {
    forall p :: p in parts && p.Prose? ==> Neat(p.text)
  }

  function Paragraphs(parts: seq<Part>): seq<string> {
    if parts == [] then []
    else (if parts[0].Prose? then [parts[0].text] else []) + Paragraphs(parts[1..])
  }

  function Spaced(paragraphs: seq<string>): string {
    if paragraphs == [] then ""
    else if |paragraphs| == 1 then paragraphs[0]
    else paragraphs[0] + ("\n\n" + Spaced(paragraphs[1..]))
  }

  // ---------------------------------------------------------- collapsing

  lemma {:induction false} NewlinesStep(c: char, rest: string)
    ensures Newlines([c] + rest) == if c == '\n' then 1 + Newlines(rest) else 0
  {
    DropFirst(c, rest);
  }

  lemma {:induction false} NewlinesOfThree(a: char, b: char, c: char, rest: string)
    requires !(a == '\n' && b == '\n' && c == '\n')
    ensures Newlines([a] + ([b] + ([c] + rest))) < 3
  {
    NewlinesStep(a, [b] + ([c] + rest));
    NewlinesStep(b, [c] + rest);
    NewlinesStep(c, rest);
  }

  lemma {:induction false} FirstThree(s: string, tail: string)
    requires |s| >= 3
    ensures s + tail == [s[0]] + ([s[1]] + ([s[2]] + (s[3..] + tail)))
  {
  }

  lemma {:induction false} NewlinesStop(s: string, tail: string)
    requires s != "" && s[|s| - 1] != '\n' && NoTripleBreak(s)
    ensures Newlines(s + tail) < 3
  {
    if |s| >= 3 {
      FirstThree(s, tail);
      NewlinesOfThree(s[0], s[1], s[2], s[3..] + tail);
    } else {
      NewlinesStep(s[0], s[1..] + tail);
      FirstAndRest(s, tail);
      if |s| == 2 {
        NewlinesStep(s[1], s[1..][1..] + tail);
        FirstAndRest(s[1..], tail);
      }
    }
  }

  lemma {:induction false} CollapseText(s: string, tail: string)
    requires s != "" ==> s[|s| - 1] != '\n' && NoTripleBreak(s)
    ensures Collapse(s + tail) == s + Collapse(tail)
  {
    if s == "" {
      assert s + tail == tail;
    } else {
      NewlinesStop(s, tail);
      FirstAndRest(s, tail);
      DropFirst(s[0], s[1..] + tail);
      CollapseText(s[1..], tail);
      Associative([s[0]], s[1..], Collapse(tail));
      assert [s[0]] + s[1..] == s;
    }
  }

  predicate NoBreakFirst(s: string) {
    s == "" || s[0] != '\n'
  }

  lemma {:induction false} CountBreaks(n: nat, rest: string)
    requires NoBreakFirst(rest)
    ensures Newlines(Breaks(n) + rest) == n && (Breaks(n) + rest)[n..] == rest
  {
    if n == 0 {
      assert Breaks(0) + rest == rest;
    } else {
      CountBreaks(n - 1, rest);
      Associative("\n", Breaks(n - 1), rest);
      DropFirst('\n', Breaks(n - 1) + rest);
      assert (Breaks(n) + rest)[1..][n - 1..] == (Breaks(n) + rest)[n..];
    }
  }

  function AtMostTwo(n: nat): nat {
    if n > 2 then 2 else n
  }

  lemma {:induction false} CollapseBreaks(n: nat, rest: string)
    requires NoBreakFirst(rest)
    ensures Collapse(Breaks(n) + rest) == Breaks(AtMostTwo(n)) + Collapse(rest)
  {
    CountBreaks(n, rest);
    if n == 0 {
      assert Breaks(0) + rest == rest && Breaks(0) + Collapse(rest) == Collapse(rest);
    } else if n < 3 {
      CollapseBreaks(n - 1, rest);
      Associative("\n", Breaks(n - 1), rest);
      DropFirst('\n', Breaks(n - 1) + rest);
      Associative("\n", Breaks(n - 1), Collapse(rest));
    } else {
      assert Breaks(2) == "\n\n" by {
        assert Breaks(1) == "\n" + Breaks(0) == "\n";
      }
    }
  }

  lemma {:induction false} BreaksAdd(m: nat, rest: string)
    ensures Breaks(m) + ("\n\n" + rest) == Breaks(m + 2) + rest
  {
    if m == 0 {
      assert Breaks(2) == "\n" + Breaks(1) && Breaks(1) == "\n" + Breaks(0);
      assert Breaks(2) == "\n\n" && Breaks(0) + ("\n\n" + rest) == "\n\n" + rest;
    } else {
      BreaksAdd(m - 1, rest);
      Associative("\n", Breaks(m - 1), "\n\n" + rest);
      Associative("\n", Breaks(m + 1), rest);
    }
  }

  // ---------------------------------------------------------- a whole message

  /** The prose, collapsed, is its paragraphs with blank lines between them and, at either
      end, no break or two. */
  lemma {:induction false} CollapseParts(m: nat, parts: seq<Part>) returns (a: nat, b: nat)
    requires AllNeat(parts)
    ensures Paragraphs(parts) != [] ==>
              Collapse(Breaks(m) + ProseOnly(parts)) == Breaks(a) + (Spaced(Paragraphs(parts)) + Breaks(b))
    ensures Paragraphs(parts) == [] ==> Collapse(Breaks(m) + ProseOnly(parts)) == Breaks(a)
    ensures m >= 2 ==> a == 2
    decreases |parts|
  {
    a, b := AtMostTwo(m), 0;
    if parts == [] {
      CollapseOnlyBreaks(m);
    } else if parts[0].Prose? {
      b := CollapseProse(m, parts);
    } else {
      SkipBlock(m, parts);
      if |parts| == 1 {
        CollapseOnlyBreaks(m);
      } else {
        a, b := CollapseParts(m + 2, parts[1..]);
      }
    }
  }

  lemma {:induction false} CollapseOnlyBreaks(m: nat)
    ensures Collapse(Breaks(m) + "") == Breaks(AtMostTwo(m))
  {
    CollapseBreaks(m, "");
    assert Breaks(AtMostTwo(m)) + Collapse("") == Breaks(AtMostTwo(m));
  }

  /** A block leaves nothing but the blank line after it. */
  lemma {:induction false} SkipBlock(m: nat, parts: seq<Part>)
    requires parts != [] && parts[0].Block?
    ensures Paragraphs(parts) == Paragraphs(parts[1..])
    ensures |parts| > 1 ==> Breaks(m) + ProseOnly(parts) == Breaks(m + 2) + ProseOnly(parts[1..])
    ensures |parts| == 1 ==> ProseOnly(parts) == "" && Paragraphs(parts) == []
  {
    assert [] + Paragraphs(parts[1..]) == Paragraphs(parts[1..]);
    if |parts| > 1 {
      assert ProseOnly(parts) == "\n\n" + ProseOnly(parts[1..]);
      BreaksAdd(m, ProseOnly(parts[1..]));
    }
  }

  lemma {:induction false} CollapseProse(m: nat, parts: seq<Part>) returns (b: nat)
    requires AllNeat(parts) && parts != [] && parts[0].Prose?
    ensures Paragraphs(parts) != []
    ensures Collapse(Breaks(m) + ProseOnly(parts)) == Breaks(AtMostTwo(m)) + (Spaced(Paragraphs(parts)) + Breaks(b))
    decreases |parts|, 0
  {
    var p := parts[0].text;
    assert Neat(p);
    var tail := if |parts| == 1 then "" else "\n\n" + ProseOnly(parts[1..]);
    assert ProseOnly(parts) == p + tail by {
      assert p + "" == p;
    }
    assert NoBreakFirst(p + tail);
    CollapseBreaks(m, p + tail);
    CollapseText(p, tail);
    var later := Paragraphs(parts[1..]);
    assert Paragraphs(parts) == [p] + later;
    DropFirst(p, later);
    if |parts| == 1 {
      b := 0;
      assert later == [] && p + Collapse("") == p + Breaks(0);
    } else {
      var a;
      BreaksAdd(0, ProseOnly(parts[1..]));
      assert Breaks(0) + tail == tail;
      a, b := CollapseParts(2, parts[1..]);
      if later == [] {
        b := a;
      } else {
        assert Breaks(2) == "\n\n" by {
          assert Breaks(1) == "\n" + Breaks(0) == "\n";
        }
        Associative(p, "\n\n", Spaced(later) + Breaks(b));
        Associative(p + "\n\n", Spaced(later), Breaks(b));
        Associative(p, "\n\n", Spaced(later));
      }
    }
  }

  // ---------------------------------------------------------- trimming

  lemma {:induction false} TrimBreaksStart(n: nat, s: string)
    requires s != "" && !IsSpace(s[0])
    ensures TrimStart(Breaks(n) + s) == s
  {
    if n == 0 {
      assert Breaks(0) + s == s;
    } else {
      Associative("\n", Breaks(n - 1), s);
      DropFirst('\n', Breaks(n - 1) + s);
      TrimBreaksStart(n - 1, s);
    }
  }

  lemma {:induction false} BreaksAtEnd(n: nat)
    requires n > 0
    ensures Breaks(n) == Breaks(n - 1) + "\n"
  {
    if n > 1 {
      BreaksAtEnd(n - 1);
      Associative("\n", Breaks(n - 2), "\n");
    }
  }

  lemma {:induction false} TrimBreaksEnd(s: string, n: nat)
    requires s != "" && !IsSpace(s[|s| - 1])
    ensures TrimEnd(s + Breaks(n)) == s
  {
    if n == 0 {
      assert s + Breaks(0) == s;
    } else {
      BreaksAtEnd(n);
      Associative(s, Breaks(n - 1), "\n");
      var whole := (s + Breaks(n - 1)) + "\n";
      assert whole[..|whole| - 1] == s + Breaks(n - 1) && whole[|whole| - 1] == '\n';
      TrimBreaksEnd(s, n - 1);
    }
  }

  lemma {:induction false} TrimAllBreaks(n: nat)
    ensures TrimStart(Breaks(n)) == ""
  {
    if n > 0 {
      DropFirst('\n', Breaks(n - 1));
      TrimAllBreaks(n - 1);
    }
  }

  lemma {:induction false} SpacedEnds(paragraphs: seq<string>)
    requires paragraphs != [] && forall p :: p in paragraphs ==> Neat(p)
    ensures var s := Spaced(paragraphs); s != "" && !IsSpace(s[0]) && !IsSpace(s[|s| - 1])
  {
    assert Neat(paragraphs[0]);
    if |paragraphs| > 1 {
      SpacedEnds(paragraphs[1..]);
    }
  }

  lemma {:induction false} ParagraphsAreNeat(parts: seq<Part>)
    requires AllNeat(parts)
    ensures forall p :: p in Paragraphs(parts) ==> Neat(p)
  {
    if parts != [] {
      ParagraphsAreNeat(parts[1..]);
      assert parts[0] in parts;
    }
  }

  /** Extracting from a message leaves exactly its paragraphs, one blank line apart, however
      many blocks stood between, before or after them. */
  lemma {:induction false} OnlyTheProseIsLeft(parts: seq<Part>)
    requires Legal(parts) && |Blocks(parts)| <= MAX_BLOCKS_PER_MESSAGE && AllNeat(parts)
    ensures Extract(Message(parts)).prose == Spaced(Paragraphs(parts))
  {
    ExtractMessage(parts);
    TidyParts(parts);
  }

  lemma {:induction false} TidyParts(parts: seq<Part>)
    requires AllNeat(parts)
    ensures Tidy(ProseOnly(parts)) == Spaced(Paragraphs(parts))
  {
    var a, b := CollapseParts(0, parts);
    assert Breaks(0) + ProseOnly(parts) == ProseOnly(parts);
    if Paragraphs(parts) == [] {
      TrimAllBreaks(a);
    } else {
      ParagraphsAreNeat(parts);
      TrimAround(a, Spaced(Paragraphs(parts)), b, Paragraphs(parts));
    }
  }

  lemma {:induction false} TrimAround(a: nat, s: string, b: nat, paragraphs: seq<string>)
    requires s == Spaced(paragraphs) && paragraphs != [] && forall p :: p in paragraphs ==> Neat(p)
    ensures TrimEnd(TrimStart(Breaks(a) + (s + Breaks(b)))) == s
  {
    SpacedEnds(paragraphs);
    TrimBreaksStart(a, s + Breaks(b));
    TrimBreaksEnd(s, b);
  }

  // ---------------------------------------------------------- any prose at all

  /** The characters that are not white space, in order. */
  function Ink(s: string): string {
    if s == "" then "" else (if IsSpace(s[0]) then "" else [s[0]]) + Ink(s[1..])
  }

  lemma {:induction false} InkAppend(a: string, b: string)
    ensures Ink(a + b) == Ink(a) + Ink(b)
  {
    if a == "" {
      assert a + b == b;
    } else {
      InkAppend(a[1..], b);
      FirstAndRest(a, b);
      DropFirst(a[0], a[1..] + b);
      Associative(if IsSpace(a[0]) then "" else [a[0]], Ink(a[1..]), Ink(b));
    }
  }

  lemma {:induction false} InkOfBreaks(s: string)
    ensures Ink(s[Newlines(s)..]) == Ink(s)
  {
    if s != "" && s[0] == '\n' {
      InkOfBreaks(s[1..]);
      assert s[1..][Newlines(s[1..])..] == s[Newlines(s)..];
      assert "" + Ink(s[1..]) == Ink(s[1..]);
    } else {
      assert s[0..] == s;
    }
  }

  lemma {:induction false} NoBreakAfterBreaks(s: string)
    ensures NoBreakFirst(s[Newlines(s)..])
  {
    if s != "" && s[0] == '\n' {
      NoBreakAfterBreaks(s[1..]);
      assert s[1..][Newlines(s[1..])..] == s[Newlines(s)..];
    } else {
      assert s[0..] == s;
    }
  }

  lemma {:induction false} CollapseKeepsInk(s: string)
    ensures Ink(Collapse(s)) == Ink(s)
    decreases |s|
  {
    if s != "" {
      if Newlines(s) >= 3 {
        var rest := s[Newlines(s)..];
        CollapseKeepsInk(rest);
        InkOfBreaks(s);
        InkAppend("\n\n", Collapse(rest));
        assert Ink("\n\n") == "" by {
          assert "\n\n"[1..] == "\n" && "\n"[1..] == "";
        }
        assert "" + Ink(Collapse(rest)) == Ink(Collapse(rest));
      } else {
        CollapseKeepsInk(s[1..]);
        DropFirst(s[0], Collapse(s[1..]));
      }
    }
  }

  lemma {:induction false} BreaksAfterCollapse(s: string)
    ensures Newlines(Collapse(s)) == AtMostTwo(Newlines(s))
    decreases |s|
  {
    if s != "" {
      if Newlines(s) >= 3 {
        var rest := s[Newlines(s)..];
        NoBreakAfterBreaks(s);
        BreaksAfterCollapse(rest);
        NewlinesStep('\n', Collapse(rest));
        NewlinesStep('\n', "\n" + Collapse(rest));
        assert "\n\n" + Collapse(rest) == "\n" + ("\n" + Collapse(rest));
      } else {
        BreaksAfterCollapse(s[1..]);
        NewlinesStep(s[0], Collapse(s[1..]));
      }
    }
  }

  lemma {:induction false} ThreeNewlines(s: string)
    ensures Newlines(s) >= 3 <==> |s| >= 3 && s[0] == '\n' && s[1] == '\n' && s[2] == '\n'
  {
    if |s| >= 3 {
      assert s[1..][0] == s[1] && s[1..][1..][0] == s[2];
      assert Newlines(s[1..]) == if s[1] == '\n' then 1 + Newlines(s[1..][1..]) else 0;
      assert Newlines(s[1..][1..]) == if s[2] == '\n' then 1 + Newlines(s[1..][1..][1..]) else 0;
    }
  }

  lemma {:induction false} FewBreaksFirst(c: char, rest: string)
    requires NoTripleBreak(rest) && Newlines([c] + rest) < 3
    ensures NoTripleBreak([c] + rest)
  {
    var s := [c] + rest;
    DropFirst(c, rest);
    ThreeNewlines(s);
  }

  /** Collapsing leaves no three newlines in a row, and changes nothing when there are none. */
  lemma {:induction false} CollapseIsTidy(s: string)
    ensures NoTripleBreak(Collapse(s)) && (NoTripleBreak(s) ==> Collapse(s) == s)
    decreases |s|
  {
    BreaksAfterCollapse(s);
    if s != "" {
      if Newlines(s) >= 3 {
        TripleIsThere(s);
        var rest := s[Newlines(s)..];
        CollapseIsTidy(rest);
        BreaksAfterCollapse(rest);
        NoBreakAfterBreaks(s);
        NewlinesStep('\n', Collapse(rest));
        NewlinesStep('\n', "\n" + Collapse(rest));
        FewBreaksFirst('\n', Collapse(rest));
        FewBreaksFirst('\n', "\n" + Collapse(rest));
        assert "\n\n" + Collapse(rest) == "\n" + ("\n" + Collapse(rest));
      } else {
        CollapseIsTidy(s[1..]);
        FewBreaksFirst(s[0], Collapse(s[1..]));
        assert [s[0]] + s[1..] == s;
        assert NoTripleBreak(s) ==> NoTripleBreak(s[1..]);
      }
    }
  }

  lemma {:induction false} TripleIsThere(s: string)
    requires Newlines(s) >= 3
    ensures !NoTripleBreak(s)
  {
    ThreeNewlines(s);
  }

  predicate AllSpace(s: string) {
    forall i :: 0 <= i < |s| ==> IsSpace(s[i])
  }

  /** No white space at either end. */
  predicate Bounded(s: string) {
    s == "" || (!IsSpace(s[0]) && !IsSpace(s[|s| - 1]))
  }

  /** `t` is `s` without the white space at its ends. */
  ghost predicate IsTrimmed(s: string, t: string) {
    Bounded(t) && exists i, j :: 0 <= i <= j <= |s| && t == s[i..j] && AllSpace(s[..i]) && AllSpace(s[j..])
  }

  lemma {:induction false} TrimStartCut(s: string) returns (i: nat)
    ensures i <= |s| && TrimStart(s) == s[i..] && AllSpace(s[..i]) && (i < |s| ==> !IsSpace(s[i]))
  {
    if s != "" && IsSpace(s[0]) {
      i := TrimStartCut(s[1..]);
      assert s[1..][i..] == s[i + 1..] && s[..i + 1] == [s[0]] + s[1..][..i];
      i := i + 1;
    } else {
      i := 0;
      assert s[0..] == s;
    }
  }

  lemma {:induction false} TrimEndCut(s: string) returns (j: nat)
    ensures j <= |s| && TrimEnd(s) == s[..j] && AllSpace(s[j..]) && (j > 0 ==> !IsSpace(s[j - 1]))
  {
    if s != "" && IsSpace(s[|s| - 1]) {
      var n := |s| - 1;
      j := TrimEndCut(s[..n]);
      assert s[..n][..j] == s[..j] && s[j..] == s[..n][j..] + [s[n]];
    } else {
      j := |s|;
      assert s[..j] == s && s[j..] == "";
    }
  }

  lemma {:induction false} TrimIsTrimmed(s: string)
    ensures IsTrimmed(s, TrimEnd(TrimStart(s)))
  {
    var i := TrimStartCut(s);
    var j := TrimEndCut(s[i..]);
    assert s[i..][..j] == s[i..i + j] && s[i..][j..] == s[i + j..];
    if j > 0 {
      assert s[i..][j - 1] == s[i + j - 1];
    }
  }

  lemma {:induction false} SpaceHasNoInk(s: string)
    requires AllSpace(s)
    ensures Ink(s) == ""
  {
    if s != "" {
      SpaceHasNoInk(s[1..]);
    }
  }

  lemma {:induction false} TrimmedInk(s: string, t: string)
    requires IsTrimmed(s, t)
    ensures Ink(t) == Ink(s)
  {
    var i, j :| 0 <= i <= j <= |s| && t == s[i..j] && AllSpace(s[..i]) && AllSpace(s[j..]);
    InkBetween(s[..i], t, s[j..]);
    InThree(s, i, j);
  }

  lemma {:induction false} InThree(s: string, i: nat, j: nat)
    requires i <= j <= |s|
    ensures s == s[..i] + (s[i..j] + s[j..])
  {
  }

  lemma {:induction false} InkBetween(a: string, t: string, b: string)
    requires AllSpace(a) && AllSpace(b)
    ensures Ink(a + (t + b)) == Ink(t)
  {
    InkAppend(a, t + b);
    InkAppend(t, b);
    SpaceHasNoInk(a);
    SpaceHasNoInk(b);
    assert "" + (Ink(t) + "") == Ink(t);
  }

  predicate TripleAt(s: string, k: nat) {
    k + 2 < |s| && s[k] == '\n' && s[k + 1] == '\n' && s[k + 2] == '\n'
  }

  lemma {:induction false} NoTripleAt(s: string, k: nat)
    requires NoTripleBreak(s)
    ensures !TripleAt(s, k)
  {
    if k > 0 && k + 2 < |s| {
      NoTripleAt(s[1..], k - 1);
      assert TripleAt(s, k) == TripleAt(s[1..], k - 1);
    }
  }

  lemma {:induction false} NoTripleAnywhere(s: string)
    requires forall k: nat :: !TripleAt(s, k)
    ensures NoTripleBreak(s)
  {
    if |s| >= 3 {
      assert !TripleAt(s, 0);
      forall k: nat ensures !TripleAt(s[1..], k) {
        assert !TripleAt(s, k + 1);
      }
      NoTripleAnywhere(s[1..]);
    }
  }

  lemma {:induction false} SliceHasNoTriple(s: string, i: nat, j: nat)
    requires NoTripleBreak(s) && i <= j <= |s|
    ensures NoTripleBreak(s[i..j])
  {
    forall k: nat ensures !TripleAt(s[i..j], k) {
      NoTripleAt(s, i + k);
    }
    NoTripleAnywhere(s[i..j]);
  }

  /** What is left of any prose: no white space at its ends, no three newlines in a row, and
      every other character in its place. */
  lemma {:induction false} TidyKeepsInk(prose: string)
    ensures Bounded(Tidy(prose)) && NoTripleBreak(Tidy(prose)) && Ink(Tidy(prose)) == Ink(prose)
    ensures NoTripleBreak(prose) ==> IsTrimmed(prose, Tidy(prose))
  {
    var s := Collapse(prose);
    CollapseIsTidy(prose);
    CollapseKeepsInk(prose);
    TrimIsTrimmed(s);
    TrimmedInk(s, Tidy(prose));
    var i, j :| 0 <= i <= j <= |s| && Tidy(prose) == s[i..j] && AllSpace(s[..i]) && AllSpace(s[j..]);
    SliceHasNoTriple(s, i, j);
  }

  lemma {:induction false} NoInkNoText(s: string)
    ensures Ink(s) == "" <==> AllSpace(s)
  {
    if s != "" {
      NoInkNoText(s[1..]);
      assert AllSpace(s) ==> AllSpace(s[1..]);
      assert AllSpace(s[1..]) && IsSpace(s[0]) ==> AllSpace(s) by {
        assert s == [s[0]] + s[1..];
      }
    }
  }

  lemma {:induction false} NoInkIsEmpty(s: string)
    requires Bounded(s)
    ensures Ink(s) == "" <==> s == ""
  {
    NoInkNoText(s);
  }

  /** Trimming leaves nothing of white space, and of nothing else. */
  lemma {:induction false} BlankExactly(s: string)
    ensures TrimEnd(TrimStart(s)) == "" <==> AllSpace(s)
  {
    TrimIsTrimmed(s);
    TrimmedInk(s, TrimEnd(TrimStart(s)));
    NoInkNoText(s);
    NoInkIsEmpty(TrimEnd(TrimStart(s)));
  }
}
