/** What the full listing of a tree contains, told from the directories themselves. */
module TreeContents {
  import opened ProjectTree

  /** The item is in this directory, under its own path, and nothing keeps it out: it is a file
      or a directory that is not skipped, and its path is not blocked. */
  predicate IsIn(p: Policy, v: Visit, i: Item) {
    && v.listing.Readable? && i.node in v.listing.children
    && i.path == (if v.relative == "." then i.node.name else v.relative + "/" + i.node.name)
    && !p.blocked(i.path) && (i.node.File? || (i.node.Directory? && !p.ignored(i.node.name)))
  }

  ghost predicate IsInOne(p: Policy, visits: seq<Visit>, i: Item) {
    exists v :: v in visits && IsIn(p, v, i)
  }

  /** The item is in a directory that is itself listed. */
  ghost predicate IsBelow(p: Policy, items: seq<Item>, i: Item) {
    exists d :: d in items && d.node.Directory? && IsIn(p, Visit(d.path, d.node.listing), i)
  }

  lemma {:induction false} ListedMembers(p: Policy, relative: string, nodes: seq<Node>, i: Item)
    ensures i in ListedOf(p, relative, nodes) <==> i.node in nodes && IsIn(p, Visit(relative, Readable(nodes)), i)
  {
    if nodes != [] {
      ListedMembers(p, relative, nodes[1..], i);
      assert nodes == [nodes[0]] + nodes[1..];
    }
  }

  lemma {:induction false} SortedMembers(p: Policy, nodes: seq<Node>, n: Node)
    ensures n in Sorted(p, nodes) <==> n in nodes
  {
    SortedKeepsNodes(p, nodes);
    assert n in multiset(Sorted(p, nodes)) <==> n in multiset(nodes);
  }

  lemma {:induction false} FoundMembers(p: Policy, v: Visit, i: Item)
    ensures i in Found(p, v) <==> IsIn(p, v, i)
  {
    if v.listing.Readable? {
      ListedMembers(p, v.relative, Sorted(p, v.listing.children), i);
      SortedMembers(p, v.listing.children, i.node);
    }
  }

  lemma {:induction false} InOneMore(p: Policy, visits: seq<Visit>, i: Item)
    requires visits != []
    ensures IsInOne(p, visits, i) <==> IsIn(p, visits[0], i) || IsInOne(p, visits[1..], i)
  {
    assert visits == [visits[0]] + visits[1..];
  }

  lemma {:induction false} LevelMembers(p: Policy, visits: seq<Visit>, i: Item)
    ensures i in Level(p, visits) <==> IsInOne(p, visits, i)
  {
    if visits != [] {
      FoundMembers(p, visits[0], i);
      LevelMembers(p, visits[1..], i);
      InOneMore(p, visits, i);
    }
  }

  lemma {:induction false} DirectoryMembers(items: seq<Item>, v: Visit)
    ensures v in Directories(items) <==> exists d :: d in items && d.node.Directory? && v == Visit(d.path, d.node.listing)
  {
    if items != [] {
      DirectoryMembers(items[1..], v);
      assert items == [items[0]] + items[1..];
      assert v in DirectoryPart(items[0]) <==> items[0].node.Directory? && v == Visit(items[0].path, items[0].node.listing);
    }
  }

  lemma {:induction false} BelowIsNext(p: Policy, items: seq<Item>, i: Item)
    ensures IsInOne(p, Directories(items), i) <==> IsBelow(p, items, i)
  {
    if IsInOne(p, Directories(items), i) {
      var v :| v in Directories(items) && IsIn(p, v, i);
      DirectoryMembers(items, v);
    }
    if IsBelow(p, items, i) {
      var d :| d in items && d.node.Directory? && IsIn(p, Visit(d.path, d.node.listing), i);
      DirectoryMembers(items, Visit(d.path, d.node.listing));
    }
  }

  lemma {:induction false} BelowEither(p: Policy, a: seq<Item>, b: seq<Item>, i: Item)
    ensures IsBelow(p, a + b, i) <==> IsBelow(p, a, i) || IsBelow(p, b, i)
  {
  }

  lemma {:induction false} LevelOrderMembers(p: Policy, visits: seq<Visit>, i: Item)
    ensures i in LevelOrder(p, visits) <==> IsInOne(p, visits, i) || IsBelow(p, LevelOrder(p, visits), i)
    decreases VisitsSize(visits)
  {
    if visits != [] {
      var level := Level(p, visits);
      var next := Directories(level);
      LevelSize(p, visits);
      LevelMembers(p, visits, i);
      LevelOrderMembers(p, next, i);
      BelowIsNext(p, level, i);
      BelowEither(p, level, LevelOrder(p, next), i);
    }
  }

  /** The full listing holds exactly what is in the root, or in a directory it holds, and is not
      kept out. */
  lemma {:induction false} TreeHoldsExactly(p: Policy, root: Visit, i: Item)
    ensures i in FullTree(p, root) <==> IsIn(p, root, i) || IsBelow(p, FullTree(p, root), i)
  {
    LevelOrderMembers(p, [root], i);
    assert IsInOne(p, [root], i) <==> IsIn(p, root, i);
  }

  /** What is shown of an item: its path, and whether it is a directory or a file. */
  predicate ShownAs(i: Item, e: TreeEntry) {
    e.path == i.path && e.kind == if i.node.File? then FileEntry else DirectoryEntry
  }

  /** The entries that are returned for the first items show each as what it is. */
  lemma {:induction false} EntriesShowItems(p: Policy, root: Visit, n: nat)
    requires n <= |FullTree(p, root)|
    ensures var entries := Entries(FullTree(p, root)[..n]);
      |entries| == n && forall k :: 0 <= k < n ==> ShownAs(FullTree(p, root)[k], entries[k])
  {
    forall k | 0 <= k < n ensures ShownAs(FullTree(p, root)[k], Entries(FullTree(p, root)[..n])[k]) {
      ListedKinds(p, root, FullTree(p, root)[k]);
    }
  }

  lemma {:induction false} ListedKinds(p: Policy, root: Visit, i: Item)
    requires i in FullTree(p, root)
    ensures i.node.File? || i.node.Directory?
  {
    TreeHoldsExactly(p, root, i);
  }
}
