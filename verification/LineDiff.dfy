/** The line diff: a longest-common-subsequence table over lines and a walk back
    through it that yields an edit script. */
module LineDiff {

  datatype Kind = Same | Add | Remove

  datatype Op = Op(kind: Kind, text: string)

  // ---------------------------------------------------------- edit scripts

  /** The lines a script reads: everything it does not add. */
  function OldSide(ops: seq<Op>): seq<string> {
    if ops == [] then [] else OldPart(ops[0]) + OldSide(ops[1..])
  }

  function OldPart(op: Op): seq<string> {
    if op.kind.Add? then [] else [op.text]
  }

  /** The lines a script writes: everything it does not remove. */
  function NewSide(ops: seq<Op>): seq<string> {
    if ops == [] then [] else NewPart(ops[0]) + NewSide(ops[1..])
  }

  function NewPart(op: Op): seq<string> {
    if op.kind.Remove? then [] else [op.text]
  }

  function Kept(ops: seq<Op>): seq<string> {
    if ops == [] then []
    else (if ops[0].kind.Same? then [ops[0].text] else []) + Kept(ops[1..])
  }

  function Changes(ops: seq<Op>): nat {
    if ops == [] then 0
    else (if ops[0].kind.Same? then 0 else 1) + Changes(ops[1..])
  }

  /** `ops` is a valid way of turning `before` into `after`. */
  predicate Transforms(ops: seq<Op>, before: seq<string>, after: seq<string>) {
    OldSide(ops) == before && NewSide(ops) == after
  }

  lemma {:induction false} OldSideAppend(a: seq<Op>, b: seq<Op>)
    ensures OldSide(a + b) == OldSide(a) + OldSide(b)
  {
    if a == [] {
      assert a + b == b;
    } else {
      calc {
        OldSide(a + b);
        { assert (a + b)[0] == a[0] && (a + b)[1..] == a[1..] + b; }
        OldPart(a[0]) + OldSide(a[1..] + b);
        { OldSideAppend(a[1..], b); }
        OldPart(a[0]) + (OldSide(a[1..]) + OldSide(b));
        (OldPart(a[0]) + OldSide(a[1..])) + OldSide(b);
      }
    }
  }

  lemma {:induction false} NewSideAppend(a: seq<Op>, b: seq<Op>)
    ensures NewSide(a + b) == NewSide(a) + NewSide(b)
  {
    if a == [] {
      assert a + b == b;
    } else {
      calc {
        NewSide(a + b);
        { assert (a + b)[0] == a[0] && (a + b)[1..] == a[1..] + b; }
        NewPart(a[0]) + NewSide(a[1..] + b);
        { NewSideAppend(a[1..], b); }
        NewPart(a[0]) + (NewSide(a[1..]) + NewSide(b));
        (NewPart(a[0]) + NewSide(a[1..])) + NewSide(b);
      }
    }
  }

  /** Each change accounts for one line on one side, each kept line for one on both. */
  lemma {:induction false} LinesAreKeptOrChanged(ops: seq<Op>)
    ensures Changes(ops) + 2 * |Kept(ops)| == |OldSide(ops)| + |NewSide(ops)|
  {
    if ops != [] {
      LinesAreKeptOrChanged(ops[1..]);
    }
  }

  // ---------------------------------------------------------- subsequences

  predicate Subsequence(c: seq<string>, s: seq<string>) {
    c == []
    || (s != [] && c[0] == s[0] && Subsequence(c[1..], s[1..]))
    || (s != [] && Subsequence(c, s[1..]))
  }

  predicate CommonSubsequence(c: seq<string>, a: seq<string>, b: seq<string>) {
    Subsequence(c, a) && Subsequence(c, b)
  }

  lemma {:induction false} SubsequenceTail(c: seq<string>, s: seq<string>)
    requires c != [] && Subsequence(c, s)
    ensures s != [] && Subsequence(c[1..], s[1..])
  {
    if !(c[0] == s[0] && Subsequence(c[1..], s[1..])) {
      SubsequenceTail(c, s[1..]);
      if c[1..] != [] {
        assert Subsequence(c[1..], s[1..][1..]);
      }
    }
  }

  lemma {:induction false} KeptIsCommon(ops: seq<Op>)
    ensures CommonSubsequence(Kept(ops), OldSide(ops), NewSide(ops))
  {
    if ops != [] {
      KeptIsCommon(ops[1..]);
      var kept, old', new' := Kept(ops), OldSide(ops), NewSide(ops);
      match ops[0].kind
      case Same =>
        assert kept[1..] == Kept(ops[1..]);
        assert old'[1..] == OldSide(ops[1..]);
        assert new'[1..] == NewSide(ops[1..]);
      case Remove =>
        assert kept == Kept(ops[1..]) && new' == NewSide(ops[1..]);
        assert old'[1..] == OldSide(ops[1..]);
      case Add =>
        assert kept == Kept(ops[1..]) && old' == OldSide(ops[1..]);
        assert new'[1..] == NewSide(ops[1..]);
    }
  }

  // ---------------------------------------------------------- the table

  function Max(x: nat, y: nat): nat {
    if x >= y then x else y
  }

  /** The recurrence the table follows. */
  function Lcs(a: seq<string>, b: seq<string>): nat {
    if a == [] || b == [] then 0
    else if a[0] == b[0] then Lcs(a[1..], b[1..]) + 1
    else Max(Lcs(a[1..], b), Lcs(a, b[1..]))
  }

  /** No common subsequence is longer than the recurrence says. */
  lemma {:induction false} LcsIsUpperBound(c: seq<string>, a: seq<string>, b: seq<string>)
    requires CommonSubsequence(c, a, b)
    ensures |c| <= Lcs(a, b)
    decreases |a| + |b|
  {
    if c != [] {
      if a[0] == b[0] {
        SubsequenceTail(c, a);
        SubsequenceTail(c, b);
        LcsIsUpperBound(c[1..], a[1..], b[1..]);
      } else if c[0] != a[0] {
        LcsIsUpperBound(c, a[1..], b);
      } else {
        LcsIsUpperBound(c, a, b[1..]);
      }
    }
  }

  /** The length for the suffixes that start at line `i` and line `j`. */
  function Cell(a: seq<string>, b: seq<string>, i: nat, j: nat): nat
    requires i <= |a| && j <= |b|
  {
    Lcs(a[i..], b[j..])
  }

  /** Row `i` is filled from column `from` on. */
  ghost predicate RowFilled(table: array2<nat>, a: seq<string>, b: seq<string>, i: nat, from: nat)
    requires table.Length0 == |a| + 1 && table.Length1 == |b| + 1 && i <= |a|
    reads table
  {
    forall j :: from <= j <= |b| ==> table[i, j] == Cell(a, b, i, j)
  }

  method FillRow(table: array2<nat>, a: seq<string>, b: seq<string>, i: nat)
    requires table.Length0 == |a| + 1 && table.Length1 == |b| + 1 && i < |a|
    requires RowFilled(table, a, b, i + 1, 0) && table[i, |b|] == 0
    modifies table
    ensures RowFilled(table, a, b, i, 0)
    ensures forall p, q :: 0 <= p <= |a| && 0 <= q <= |b| && p != i ==> table[p, q] == old(table[p, q])
  {
    var j := |b| - 1;
    while j >= 0
      invariant -1 <= j < |b|
      invariant RowFilled(table, a, b, i, j + 1)
      invariant forall p, q :: 0 <= p <= |a| && 0 <= q <= |b| && p != i ==> table[p, q] == old(table[p, q])
    {
      table[i, j] := if a[i] == b[j] then table[i + 1, j + 1] + 1
                     else Max(table[i + 1, j], table[i, j + 1]);
      j := j - 1;
    }
  }

  /** The table: cell (i, j) is the true length for the suffixes at i and j. */
  method FillTable(oldLines: seq<string>, newLines: seq<string>) returns (table: array2<nat>)
    ensures fresh(table)
    ensures table.Length0 == |oldLines| + 1 && table.Length1 == |newLines| + 1
    ensures forall i, j :: 0 <= i <= |oldLines| && 0 <= j <= |newLines| ==>
              table[i, j] == Cell(oldLines, newLines, i, j)
  {
    var rows, columns := |oldLines|, |newLines|;
    table := new nat[rows + 1, columns + 1]((_, _) => 0);
    var i := rows - 1;
    while i >= 0
      invariant -1 <= i < rows
      invariant forall p, q :: i < p <= rows && 0 <= q <= columns ==>
                  table[p, q] == Cell(oldLines, newLines, p, q)
      invariant forall p :: 0 <= p <= rows ==> table[p, columns] == 0
    {
      FillRow(table, oldLines, newLines, i);
      i := i - 1;
    }
  }

  // ---------------------------------------------------------- the walk

  /** The script the walk produces. A tie goes to the removal. */
  function Script(a: seq<string>, b: seq<string>): seq<Op> {
    if a == [] && b == [] then []
    else if b == [] then [Op(Remove, a[0])] + Script(a[1..], b)
    else if a == [] then [Op(Add, b[0])] + Script(a, b[1..])
    else if a[0] == b[0] then [Op(Same, a[0])] + Script(a[1..], b[1..])
    else if Lcs(a[1..], b) >= Lcs(a, b[1..]) then [Op(Remove, a[0])] + Script(a[1..], b)
    else [Op(Add, b[0])] + Script(a, b[1..])
  }

  lemma {:induction false} SidesCons(op: Op, rest: seq<Op>)
    ensures OldSide([op] + rest) == OldPart(op) + OldSide(rest)
    ensures NewSide([op] + rest) == NewPart(op) + NewSide(rest)
    ensures |Kept([op] + rest)| == (if op.kind.Same? then 1 else 0) + |Kept(rest)|
  {
    assert ([op] + rest)[1..] == rest;
  }

  lemma {:induction false} ScriptReplays(a: seq<string>, b: seq<string>)
    ensures Transforms(Script(a, b), a, b)
    decreases |a| + |b|
  {
    if a != [] && b != [] && a[0] == b[0] {
      ScriptReplays(a[1..], b[1..]);
      SidesCons(Op(Same, a[0]), Script(a[1..], b[1..]));
      assert [a[0]] + a[1..] == a && [b[0]] + b[1..] == b;
    } else if b == [] && a == [] {
    } else if b == [] || (a != [] && Lcs(a[1..], b) >= Lcs(a, b[1..])) {
      ScriptReplays(a[1..], b);
      SidesCons(Op(Remove, a[0]), Script(a[1..], b));
      assert [a[0]] + a[1..] == a;
    } else {
      ScriptReplays(a, b[1..]);
      SidesCons(Op(Add, b[0]), Script(a, b[1..]));
      assert [b[0]] + b[1..] == b;
    }
  }

  lemma {:induction false} ScriptKeepsLcs(a: seq<string>, b: seq<string>)
    ensures |Kept(Script(a, b))| == Lcs(a, b)
    decreases |a| + |b|
  {
    if a != [] && b != [] && a[0] == b[0] {
      ScriptKeepsLcs(a[1..], b[1..]);
      SidesCons(Op(Same, a[0]), Script(a[1..], b[1..]));
    } else if b == [] && a == [] {
    } else if b == [] || (a != [] && Lcs(a[1..], b) >= Lcs(a, b[1..])) {
      ScriptKeepsLcs(a[1..], b);
      SidesCons(Op(Remove, a[0]), Script(a[1..], b));
    } else {
      ScriptKeepsLcs(a, b[1..]);
      SidesCons(Op(Add, b[0]), Script(a, b[1..]));
    }
  }

  /** `Lcs` is exactly the length of a longest common subsequence. */
  lemma {:induction false} LcsIsLongest(a: seq<string>, b: seq<string>)
    ensures exists c :: CommonSubsequence(c, a, b) && |c| == Lcs(a, b)
    ensures forall c :: CommonSubsequence(c, a, b) ==> |c| <= Lcs(a, b)
  {
    ScriptReplays(a, b);
    ScriptKeepsLcs(a, b);
    KeptIsCommon(Script(a, b));
    assert CommonSubsequence(Kept(Script(a, b)), a, b);
    forall c | CommonSubsequence(c, a, b) ensures |c| <= Lcs(a, b) {
      LcsIsUpperBound(c, a, b);
    }
  }

  /** The edit script is minimal, with n + m - 2 * LCS changes. */
  lemma {:induction false} ScriptIsMinimal(a: seq<string>, b: seq<string>)
    ensures Changes(Script(a, b)) == |a| + |b| - 2 * Lcs(a, b)
    ensures forall ops :: Transforms(ops, a, b) ==> Changes(Script(a, b)) <= Changes(ops)
  {
    ScriptReplays(a, b);
    ScriptKeepsLcs(a, b);
    LinesAreKeptOrChanged(Script(a, b));
    forall ops | Transforms(ops, a, b) ensures Changes(Script(a, b)) <= Changes(ops) {
      LinesAreKeptOrChanged(ops);
      KeptIsCommon(ops);
      LcsIsUpperBound(Kept(ops), a, b);
    }
  }

  /** No changes exactly when there is nothing to change. */
  lemma NoChangesMeansEqual(ops: seq<Op>)
    ensures Changes(ops) == 0 ==> OldSide(ops) == NewSide(ops)
  {
  }

  /** What is left of the walk at line `i` and line `j`. */
  function ScriptFrom(a: seq<string>, b: seq<string>, i: nat, j: nat): seq<Op>
    requires i <= |a| && j <= |b|
  {
    Script(a[i..], b[j..])
  }

  /** `ops.push(op)`. */
  function Push(ops: seq<Op>, op: Op): (r: seq<Op>)
    ensures |r| == |ops| + 1 && r[|ops|] == op && r[..|ops|] == ops
    ensures forall rest :: ops + ([op] + rest) == r + rest
  {
    ops + [op]
  }

  method Operations(oldLines: seq<string>, newLines: seq<string>) returns (ops: seq<Op>)
    ensures ops == Script(oldLines, newLines)
    ensures Transforms(ops, oldLines, newLines)
    ensures forall other :: Transforms(other, oldLines, newLines) ==> Changes(ops) <= Changes(other)
  {
    var rows, columns := |oldLines|, |newLines|;
    var table := FillTable(oldLines, newLines);
    ops := [];
    var i, j := 0, 0;
    while i < rows && j < columns
      invariant 0 <= i <= rows && 0 <= j <= columns
      invariant Script(oldLines, newLines) == ops + ScriptFrom(oldLines, newLines, i, j)
      decreases rows + columns - i - j
      modifies {}
    {
      if oldLines[i] == newLines[j] {
        ops := Push(ops, Op(Same, oldLines[i]));
        i, j := i + 1, j + 1;
      } else if table[i + 1, j] >= table[i, j + 1] {
        ops := Push(ops, Op(Remove, oldLines[i]));
        i := i + 1;
      } else {
        ops := Push(ops, Op(Add, newLines[j]));
        j := j + 1;
      }
    }
    while i < rows
      invariant 0 <= i <= rows && 0 <= j <= columns && (i == rows || j == columns)
      invariant Script(oldLines, newLines) == ops + ScriptFrom(oldLines, newLines, i, j)
    {
      ops := Push(ops, Op(Remove, oldLines[i]));
      i := i + 1;
    }
    while j < columns
      invariant i == rows && 0 <= j <= columns
      invariant Script(oldLines, newLines) == ops + ScriptFrom(oldLines, newLines, i, j)
    {
      ops := Push(ops, Op(Add, newLines[j]));
      j := j + 1;
    }
    ScriptReplays(oldLines, newLines);
    ScriptIsMinimal(oldLines, newLines);
  }
}
