/** The bounded project tree: a breadth-first walk with a cap. */
module ProjectTree {
  import opened Sequences

  // ---------------------------------------------------------- directories

  /** What a directory read gives back. */
  datatype Listing = Unreadable | Readable(children: seq<Node>)

  datatype Node = File(name: string) | Directory(name: string, listing: Listing) | Special(name: string)

  /** A directory in the queue, under its workspace-relative path. */
  datatype Visit = Visit(relative: string, listing: Listing)

  /** Something the walk may list. */
  datatype Item = Item(path: string, node: Node)

  datatype EntryType = DirectoryEntry | FileEntry

  datatype TreeEntry = TreeEntry(path: string, kind: EntryType)

  /** The adapter's settings: which directories are skipped, which paths are blocked, and
      the locale order of names. */
  datatype Policy = Policy(ignored: string -> bool, blocked: string -> bool, before: (string, string) -> bool)

  function Relative(current: string, name: string): string {
    if current == "." then name else current + "/" + name
  }

  // ---------------------------------------------------------- sorting

  /** Directories come first, then the locale order decides. */
  predicate Precedes(p: Policy, a: Node, b: Node) {
    if a.Directory? != b.Directory? then a.Directory? else p.before(a.name, b.name)
  }

  /** A node goes before the first that does not precede it, so equal names keep their order. */
  function Insert(p: Policy, n: Node, sorted: seq<Node>): seq<Node> {
    if sorted == [] || !Precedes(p, sorted[0], n) then [n] + sorted
    else [sorted[0]] + Insert(p, n, sorted[1..])
  }

  function Sorted(p: Policy, nodes: seq<Node>): seq<Node> {
    if nodes == [] then [] else Insert(p, nodes[0], Sorted(p, nodes[1..]))
  }

  predicate NoDirectories(nodes: seq<Node>) {
    nodes == [] || (!nodes[0].Directory? && NoDirectories(nodes[1..]))
  }

  predicate DirectoriesFirst(nodes: seq<Node>) {
    nodes == [] || (if nodes[0].Directory? then DirectoriesFirst(nodes[1..]) else NoDirectories(nodes))
  }

  lemma {:induction false} InsertKeepsNodes(p: Policy, n: Node, sorted: seq<Node>)
    ensures multiset(Insert(p, n, sorted)) == multiset(sorted) + multiset{n}
    ensures NodesSize(Insert(p, n, sorted)) == NodeSize(n) + NodesSize(sorted)
  {
    if sorted == [] || !Precedes(p, sorted[0], n) {
      assert ([n] + sorted)[1..] == sorted;
    } else {
      InsertKeepsNodes(p, n, sorted[1..]);
      var after := Insert(p, n, sorted[1..]);
      assert ([sorted[0]] + after)[1..] == after;
      assert sorted == [sorted[0]] + sorted[1..];
    }
  }

  lemma {:induction false} InsertNoDirectories(p: Policy, n: Node, sorted: seq<Node>)
    requires !n.Directory? && NoDirectories(sorted)
    ensures NoDirectories(Insert(p, n, sorted))
  {
    if sorted == [] || !Precedes(p, sorted[0], n) {
      assert ([n] + sorted)[1..] == sorted;
    } else {
      InsertNoDirectories(p, n, sorted[1..]);
      assert ([sorted[0]] + Insert(p, n, sorted[1..]))[1..] == Insert(p, n, sorted[1..]);
    }
  }

  lemma {:induction false} InsertDirectoriesFirst(p: Policy, n: Node, sorted: seq<Node>)
    requires DirectoriesFirst(sorted)
    ensures DirectoriesFirst(Insert(p, n, sorted))
  {
    if sorted == [] || !Precedes(p, sorted[0], n) {
      assert ([n] + sorted)[1..] == sorted;
    } else if sorted[0].Directory? {
      InsertDirectoriesFirst(p, n, sorted[1..]);
      assert ([sorted[0]] + Insert(p, n, sorted[1..]))[1..] == Insert(p, n, sorted[1..]);
    } else {
      InsertNoDirectories(p, n, sorted);
    }
  }

  /** The sort loses nothing ... */
  lemma {:induction false} SortedKeepsNodes(p: Policy, nodes: seq<Node>)
    ensures multiset(Sorted(p, nodes)) == multiset(nodes)
    ensures NodesSize(Sorted(p, nodes)) == NodesSize(nodes)
  {
    if nodes != [] {
      SortedKeepsNodes(p, nodes[1..]);
      InsertKeepsNodes(p, nodes[0], Sorted(p, nodes[1..]));
      assert nodes == [nodes[0]] + nodes[1..];
    }
  }

  /** ... and puts directories first. */
  lemma {:induction false} SortedDirectoriesFirst(p: Policy, nodes: seq<Node>)
    ensures DirectoriesFirst(Sorted(p, nodes))
  {
    if nodes != [] {
      SortedDirectoriesFirst(p, nodes[1..]);
      InsertDirectoriesFirst(p, nodes[0], Sorted(p, nodes[1..]));
    }
  }

  /** The locale order is one: of two names at most one comes first, and names that come
      neither before nor after each other are interchangeable. */
  ghost predicate IsOrder(before: (string, string) -> bool) {
    && (forall a, b :: before(a, b) ==> !before(b, a))
    && (forall a, b, c :: !before(a, b) && !before(b, c) ==> !before(a, c))
  }

  /** No node precedes one that stands before it. */
  predicate Ordered(p: Policy, nodes: seq<Node>) {
    nodes == [] || ((forall n :: n in nodes[1..] ==> !Precedes(p, n, nodes[0])) && Ordered(p, nodes[1..]))
  }

  lemma {:induction false} InsertMembers(p: Policy, n: Node, sorted: seq<Node>)
    ensures forall x :: x in Insert(p, n, sorted) <==> x == n || x in sorted
  {
    if sorted != [] && Precedes(p, sorted[0], n) {
      InsertMembers(p, n, sorted[1..]);
    }
  }

  lemma {:induction false} InsertFront(p: Policy, n: Node, sorted: seq<Node>)
    requires IsOrder(p.before) && Ordered(p, sorted) && (sorted == [] || !Precedes(p, sorted[0], n))
    ensures Ordered(p, [n] + sorted)
  {
    DropFirst(n, sorted);
    forall x | x in sorted ensures !Precedes(p, x, n) {
      if x != sorted[0] {
        assert x in sorted[1..] && !Precedes(p, x, sorted[0]);
      }
    }
  }

  lemma {:induction false} InsertOrdered(p: Policy, n: Node, sorted: seq<Node>)
    requires IsOrder(p.before) && Ordered(p, sorted)
    ensures Ordered(p, Insert(p, n, sorted))
  {
    if sorted == [] || !Precedes(p, sorted[0], n) {
      InsertFront(p, n, sorted);
    } else {
      InsertOrdered(p, n, sorted[1..]);
      InsertMembers(p, n, sorted[1..]);
      DropFirst(sorted[0], Insert(p, n, sorted[1..]));
    }
  }

  /** ... and the names are in order, within the directories and within the rest. */
  lemma {:induction false} SortedIsOrdered(p: Policy, nodes: seq<Node>)
    requires IsOrder(p.before)
    ensures Ordered(p, Sorted(p, nodes))
  {
    if nodes != [] {
      SortedIsOrdered(p, nodes[1..]);
      InsertOrdered(p, nodes[0], Sorted(p, nodes[1..]));
    }
  }

  // ---------------------------------------------------------- sizes

  function NodeSize(n: Node): nat {
    match n
    case Directory(_, Readable(children)) => 1 + NodesSize(children)
    case Directory(_, Unreadable) => 1
    case _ => 0
  }

  /** How many directories there are at and below these nodes. */
  function NodesSize(nodes: seq<Node>): nat {
    if nodes == [] then 0 else NodeSize(nodes[0]) + NodesSize(nodes[1..])
  }

  function VisitSize(v: Visit): nat {
    1 + if v.listing.Readable? then NodesSize(v.listing.children) else 0
  }

  function VisitsSize(queue: seq<Visit>): nat {
    if queue == [] then 0 else VisitSize(queue[0]) + VisitsSize(queue[1..])
  }

  lemma {:induction false} VisitsSizeAppend(a: seq<Visit>, b: seq<Visit>)
    ensures VisitsSize(a + b) == VisitsSize(a) + VisitsSize(b)
  {
    if a == [] {
      assert a + b == b;
    } else {
      VisitsSizeAppend(a[1..], b);
      assert (a + b)[0] == a[0] && (a + b)[1..] == a[1..] + b;
    }
  }

  // ---------------------------------------------------------- one directory

  predicate Listed(p: Policy, path: string, n: Node) {
    && !(n.Directory? && p.ignored(n.name))
    && !p.blocked(path)
    && (n.Directory? || n.File?)
  }

  function ListedOf(p: Policy, relative: string, nodes: seq<Node>): seq<Item> {
    if nodes == [] then []
    else
      ListedPart(p, relative, nodes[0]) + ListedOf(p, relative, nodes[1..])
  }

  function ListedPart(p: Policy, relative: string, n: Node): seq<Item> {
    var path := Relative(relative, n.name);
    if Listed(p, path, n) then [Item(path, n)] else []
  }

  /** What one directory contributes to an unlimited walk. */
  function Found(p: Policy, v: Visit): seq<Item> {
    if v.listing.Unreadable? then [] else ListedOf(p, v.relative, Sorted(p, v.listing.children))
  }

  /** How many directory entries a visit looks at; an unreadable directory counts as one. */
  function Seen(v: Visit): nat {
    if v.listing.Unreadable? then 1 else |v.listing.children|
  }

  function SeenAll(visits: seq<Visit>): nat {
    if visits == [] then 0 else Seen(visits[0]) + SeenAll(visits[1..])
  }

  /** The directories among listed items, in order. */
  function Directories(items: seq<Item>): seq<Visit> {
    if items == [] then [] else DirectoryPart(items[0]) + Directories(items[1..])
  }

  function DirectoryPart(item: Item): seq<Visit> {
    if item.node.Directory? then [Visit(item.path, item.node.listing)] else []
  }

  function EntryOf(i: Item): TreeEntry {
    TreeEntry(i.path, if i.node.Directory? then DirectoryEntry else FileEntry)
  }

  function Entries(items: seq<Item>): seq<TreeEntry> {
    seq(|items|, k requires 0 <= k < |items| => EntryOf(items[k]))
  }

  lemma {:induction false} DirectoriesAppend(a: seq<Item>, b: seq<Item>)
    ensures Directories(a + b) == Directories(a) + Directories(b)
  {
    if a == [] {
      assert a + b == b;
    } else {
      calc {
        Directories(a + b);
        { assert (a + b)[0] == a[0] && (a + b)[1..] == a[1..] + b; }
        DirectoryPart(a[0]) + Directories(a[1..] + b);
        { DirectoriesAppend(a[1..], b); }
        DirectoryPart(a[0]) + (Directories(a[1..]) + Directories(b));
        (DirectoryPart(a[0]) + Directories(a[1..])) + Directories(b);
      }
    }
  }

  lemma {:induction false} ListedAreNodes(p: Policy, relative: string, nodes: seq<Node>)
    ensures forall i :: i in ListedOf(p, relative, nodes) ==> i.node in nodes
  {
    if nodes != [] {
      ListedAreNodes(p, relative, nodes[1..]);
    }
  }

  /** No item of a listing precedes one that stands before it. */
  predicate InOrder(p: Policy, items: seq<Item>) {
    items == [] || ((forall i :: i in items[1..] ==> !Precedes(p, i.node, items[0].node)) && InOrder(p, items[1..]))
  }

  lemma {:induction false} ListedInOrder(p: Policy, relative: string, nodes: seq<Node>)
    requires Ordered(p, nodes)
    ensures InOrder(p, ListedOf(p, relative, nodes))
  {
    if nodes != [] {
      var rest := ListedOf(p, relative, nodes[1..]);
      ListedInOrder(p, relative, nodes[1..]);
      ListedAreNodes(p, relative, nodes[1..]);
      if ListedPart(p, relative, nodes[0]) == [] {
        assert [] + rest == rest;
      } else {
        DropFirst(ListedPart(p, relative, nodes[0])[0], rest);
      }
    }
  }

  /** What one directory contributes is in order: directories by name, then files by name. */
  lemma {:induction false} FoundInOrder(p: Policy, v: Visit)
    requires IsOrder(p.before)
    ensures InOrder(p, Found(p, v))
  {
    if v.listing.Readable? {
      SortedIsOrdered(p, v.listing.children);
      ListedInOrder(p, v.relative, Sorted(p, v.listing.children));
    }
  }

  lemma {:induction false} ListedSize(p: Policy, relative: string, nodes: seq<Node>)
    ensures VisitsSize(Directories(ListedOf(p, relative, nodes))) <= NodesSize(nodes)
  {
    if nodes != [] {
      ListedSize(p, relative, nodes[1..]);
      var part, rest := ListedPart(p, relative, nodes[0]), ListedOf(p, relative, nodes[1..]);
      DirectoriesAppend(part, rest);
      VisitsSizeAppend(Directories(part), Directories(rest));
    }
  }

  lemma {:induction false} FoundSize(p: Policy, v: Visit)
    ensures VisitsSize(Directories(Found(p, v))) < VisitSize(v)
  {
    if v.listing.Readable? {
      ListedSize(p, v.relative, Sorted(p, v.listing.children));
      SortedKeepsNodes(p, v.listing.children);
    }
  }

  // ---------------------------------------------------------- unlimited listings

  /** The unlimited walk, driven by the queue. */
  function Walk(p: Policy, queue: seq<Visit>): seq<Item>
    decreases VisitsSize(queue)
  {
    if queue == [] then []
    else
      QueueShrinks(p, queue);
      Found(p, queue[0]) + Walk(p, queue[1..] + Directories(Found(p, queue[0])))
  }

  lemma {:induction false} QueueShrinks(p: Policy, queue: seq<Visit>)
    requires queue != []
    ensures VisitsSize(queue[1..] + Directories(Found(p, queue[0]))) < VisitsSize(queue)
  {
    FoundSize(p, queue[0]);
    VisitsSizeAppend(queue[1..], Directories(Found(p, queue[0])));
  }

  /** Everything directly inside these directories. */
  function Level(p: Policy, visits: seq<Visit>): seq<Item> {
    if visits == [] then [] else Found(p, visits[0]) + Level(p, visits[1..])
  }

  lemma {:induction false} LevelSize(p: Policy, visits: seq<Visit>)
    ensures VisitsSize(Directories(Level(p, visits))) <= VisitsSize(visits)
    ensures visits != [] ==> VisitsSize(Directories(Level(p, visits))) < VisitsSize(visits)
  {
    if visits != [] {
      LevelSize(p, visits[1..]);
      FoundSize(p, visits[0]);
      DirectoriesAppend(Found(p, visits[0]), Level(p, visits[1..]));
      VisitsSizeAppend(Directories(Found(p, visits[0])), Directories(Level(p, visits[1..])));
    }
  }

  /** The breadth-first listing, defined level by level. */
  function LevelOrder(p: Policy, visits: seq<Visit>): seq<Item>
    decreases VisitsSize(visits)
  {
    if visits == [] then []
    else
      LevelSize(p, visits);
      Level(p, visits) + LevelOrder(p, Directories(Level(p, visits)))
  }

  lemma {:induction false} WalkStep(p: Policy, first: Visit, queue: seq<Visit>)
    ensures Walk(p, [first] + queue) == Found(p, first) + Walk(p, queue + Directories(Found(p, first)))
  {
    assert ([first] + queue)[0] == first && ([first] + queue)[1..] == queue;
  }

  lemma {:induction false} WalkFirstOfLevel(p: Policy, level: seq<Visit>, next: seq<Visit>)
    requires level != []
    ensures Walk(p, level + next)
         == Found(p, level[0]) + Walk(p, level[1..] + (next + Directories(Found(p, level[0]))))
  {
    FirstAndRest(level, next);
    WalkStep(p, level[0], level[1..] + next);
    Associative(level[1..], next, Directories(Found(p, level[0])));
  }

  lemma {:induction false} LevelDirectories(found: seq<Item>, rest: seq<Item>, next: seq<Visit>)
    ensures (next + Directories(found)) + Directories(rest) == next + Directories(found + rest)
  {
    DirectoriesAppend(found, rest);
    Associative(next, Directories(found), Directories(rest));
  }

  lemma {:induction false} WalkEmptyLevel(p: Policy, next: seq<Visit>)
    ensures Walk(p, [] + next) == Level(p, []) + Walk(p, next + Directories(Level(p, [])))
  {
    assert [] + next == next;
    assert next + Directories([]) == next;
  }

  /** Part of a level is done and its directories are queued behind the rest. */
  lemma {:induction false} WalkFinishesLevel(p: Policy, level: seq<Visit>, next: seq<Visit>)
    ensures Walk(p, level + next) == Level(p, level) + Walk(p, next + Directories(Level(p, level)))
    decreases |level|
  {
    if level == [] {
      WalkEmptyLevel(p, next);
    } else {
      var found, rest := Found(p, level[0]), Level(p, level[1..]);
      WalkFirstOfLevel(p, level, next);
      WalkFinishesLevel(p, level[1..], next + Directories(found));
      LevelDirectories(found, rest, next);
      Associative(found, rest, Walk(p, next + Directories(found + rest)));
    }
  }

  /** The queue visits the tree level by level. */
  lemma {:induction false} WalkIsLevelOrder(p: Policy, visits: seq<Visit>)
    ensures Walk(p, visits) == LevelOrder(p, visits)
    decreases VisitsSize(visits)
  {
    if visits != [] {
      LevelSize(p, visits);
      WalkFinishesLevel(p, visits, []);
      assert visits + [] == visits;
      assert [] + Directories(Level(p, visits)) == Directories(Level(p, visits));
      WalkIsLevelOrder(p, Directories(Level(p, visits)));
    }
  }

  // ---------------------------------------------------------- the bounded walk

  lemma {:induction false} ListedAppend(p: Policy, relative: string, a: seq<Node>, b: seq<Node>)
    ensures ListedOf(p, relative, a + b) == ListedOf(p, relative, a) + ListedOf(p, relative, b)
  {
    if a == [] {
      assert a + b == b;
    } else {
      calc {
        ListedOf(p, relative, a + b);
        { assert (a + b)[0] == a[0] && (a + b)[1..] == a[1..] + b; }
        ListedPart(p, relative, a[0]) + ListedOf(p, relative, a[1..] + b);
        { ListedAppend(p, relative, a[1..], b); }
        ListedPart(p, relative, a[0]) + (ListedOf(p, relative, a[1..]) + ListedOf(p, relative, b));
        (ListedPart(p, relative, a[0]) + ListedOf(p, relative, a[1..])) + ListedOf(p, relative, b);
      }
    }
  }

  function ListedUpTo(p: Policy, relative: string, nodes: seq<Node>, k: nat): seq<Item>
    requires k <= |nodes|
  {
    if k == 0 then [] else ListedUpTo(p, relative, nodes, k - 1) + ListedPart(p, relative, nodes[k - 1])
  }

  lemma {:induction false} ListedUpToIsListed(p: Policy, relative: string, nodes: seq<Node>, k: nat)
    requires k <= |nodes|
    ensures ListedUpTo(p, relative, nodes, k) == ListedOf(p, relative, nodes[..k])
  {
    if k > 0 {
      ListedUpToIsListed(p, relative, nodes, k - 1);
      ListedAppend(p, relative, nodes[..k - 1], [nodes[k - 1]]);
      assert nodes[..k] == nodes[..k - 1] + [nodes[k - 1]];
      assert [nodes[k - 1]][1..] == [];
    }
  }

  /** The listing is cut off at the cap exactly when there is more than the cap. */
  ghost predicate Capped(full: seq<Item>, entries: seq<Item>, maxEntries: nat, truncated: bool, rest: seq<Item>) {
    && |entries| <= maxEntries
    && (!truncated ==> full == entries + rest)
    && (truncated ==> |entries| == maxEntries < |full| && entries == full[..maxEntries])
  }

  /** Lists one readable directory. `listed` is what it adds; the cap decides how much. */
  method ListDirectory(p: Policy, relative: string, sorted: seq<Node>, maxEntries: nat, before: nat, full0: bool)
    returns (listed: seq<Item>, truncated: bool, omitted: nat)
    requires before <= maxEntries && (full0 ==> before == maxEntries)
    ensures listed <= ListedOf(p, relative, sorted)
    ensures before + |listed| <= maxEntries
    ensures truncated <==> full0 || before + |ListedOf(p, relative, sorted)| > maxEntries
    ensures truncated ==> before + |listed| == maxEntries
    ensures !truncated ==> listed == ListedOf(p, relative, sorted)
    ensures |listed| + omitted == |sorted|
  {
    listed, truncated, omitted := [], full0, 0;
    ghost var found: seq<Item> := [];
    for k := 0 to |sorted|
      invariant found == ListedUpTo(p, relative, sorted, k)
      invariant listed <= found && before + |listed| <= maxEntries
      invariant truncated <==> full0 || before + |found| > maxEntries
      invariant truncated ==> before + |listed| == maxEntries
      invariant !truncated ==> listed == found
      invariant |listed| + omitted == k
    {
      var dirent := sorted[k];
      var path := Relative(relative, dirent.name);
      ghost var part := ListedPart(p, relative, dirent);
      if (dirent.Directory? && p.ignored(dirent.name)) || p.blocked(path) || (!dirent.Directory? && !dirent.File?) {
        omitted := omitted + 1;
        assert part == [] && found + part == found;
      } else if before + |listed| >= maxEntries {
        truncated := true;
        omitted := omitted + 1;
      } else {
        listed := listed + [Item(path, dirent)];
      }
      found := found + part;
    }
    ListedUpToIsListed(p, relative, sorted, |sorted|);
    assert sorted[..|sorted|] == sorted;
  }

  lemma {:induction false} SeenAllAppend(a: seq<Visit>, b: seq<Visit>)
    ensures SeenAll(a + b) == SeenAll(a) + SeenAll(b)
  {
    if a == [] {
      assert a + b == b;
    } else {
      SeenAllAppend(a[1..], b);
      assert (a + b)[0] == a[0] && (a + b)[1..] == a[1..] + b;
    }
  }

  /** The whole tree under a directory, without a cap. */
  function FullTree(p: Policy, root: Visit): seq<Item> {
    LevelOrder(p, [root])
  }

  lemma {:induction false} SortedLength(p: Policy, nodes: seq<Node>)
    ensures |Sorted(p, nodes)| == |nodes|
  {
    SortedKeepsNodes(p, nodes);
    assert |multiset(Sorted(p, nodes))| == |multiset(nodes)|;
  }

  lemma {:induction false} PrefixSize(a: seq<Item>, b: seq<Item>)
    requires a <= b
    ensures VisitsSize(Directories(a)) <= VisitsSize(Directories(b))
  {
    DirectoriesAppend(a, b[|a|..]);
    VisitsSizeAppend(Directories(a), Directories(b[|a|..]));
    assert b == a + b[|a|..];
  }

  /** Adding one directory's share keeps the listing a prefix of the full one. */
  lemma {:induction false} CappedExtend(full: seq<Item>, items: seq<Item>, maxEntries: nat, truncated0: bool,
                                        found: seq<Item>, rest: seq<Item>, listed: seq<Item>, truncated: bool)
    requires Capped(full, items, maxEntries, truncated0, found + rest)
    requires listed <= found && |items| + |listed| <= maxEntries
    requires truncated <==> truncated0 || |items| + |found| > maxEntries
    requires truncated ==> |items| + |listed| == maxEntries
    requires !truncated ==> listed == found
    ensures Capped(full, items + listed, maxEntries, truncated, rest)
  {
    if truncated0 {
      assert items + listed == items;
    } else {
      assert items + (found + rest) == (items + found) + rest;
      if truncated {
        assert full[..maxEntries] == items + listed;
      }
    }
  }

  /** One turn of the loop. */
  method VisitDirectory(p: Policy, current: Visit, queue: seq<Visit>, maxEntries: nat, items: seq<Item>, truncated0: bool,
                        ghost full: seq<Item>)
    returns (listed: seq<Item>, truncated: bool, omitted: nat)
    requires Capped(full, items, maxEntries, truncated0, Walk(p, [current] + queue))
    ensures Capped(full, items + listed, maxEntries, truncated, Walk(p, queue + Directories(listed)))
    ensures |listed| + omitted == Seen(current)
    ensures VisitsSize(queue + Directories(listed)) < VisitsSize([current] + queue)
  {
    WalkStep(p, current, queue);
    FoundSize(p, current);
    if current.listing.Unreadable? {
      listed, truncated, omitted := [], truncated0, 1;
    } else {
      var sorted := Sorted(p, current.listing.children);
      SortedLength(p, current.listing.children);
      listed, truncated, omitted := ListDirectory(p, current.relative, sorted, maxEntries, |items|, truncated0);
    }
    CappedExtend(full, items, maxEntries, truncated0, Found(p, current), Walk(p, queue + Directories(Found(p, current))),
                 listed, truncated);
    PrefixSize(listed, Found(p, current));
    VisitsSizeAppend(queue, Directories(listed));
    VisitsSizeAppend([current], queue);
    assert [current][1..] == [];
  }

  lemma {:induction false} Account(root: Visit, done: seq<Visit>, current: Visit, queue: seq<Visit>, items: seq<Item>,
                                   listed: seq<Item>)
    requires done + ([current] + queue) == [root] + Directories(items)
    ensures (done + [current]) + (queue + Directories(listed)) == [root] + Directories(items + listed)
    ensures SeenAll(done + [current]) == SeenAll(done) + Seen(current)
  {
    DirectoriesAppend(items, listed);
    var more := Directories(listed);
    Associative(done, [current], queue + more);
    Associative([current], queue, more);
    Associative(done, [current] + queue, more);
    Associative([root], Directories(items), more);
    SeenAllAppend(done, [current]);
    assert [current][1..] == [];
  }

  lemma {:induction false} WalkBegins(full: seq<Item>, maxEntries: nat)
    ensures Capped(full, [], maxEntries, false, full)
  {
    assert [] + full == full;
  }

  /** When nothing is left to visit. */
  lemma {:induction false} WalkDone(full: seq<Item>, items: seq<Item>, maxEntries: nat, truncated: bool)
    requires Capped(full, items, maxEntries, truncated, [])
    ensures |items| == if |full| <= maxEntries then |full| else maxEntries
    ensures |items| <= |full| && items == full[..|items|]
    ensures truncated <==> |full| > maxEntries
  {
    assert items + [] == items;
  }

  lemma {:induction false} WalkEnds(p: Policy, root: Visit, full: seq<Item>, done: seq<Visit>, queue: seq<Visit>,
                                    items: seq<Item>, maxEntries: nat, truncated: bool, omitted: nat)
    requires queue == [] && Capped(full, items, maxEntries, truncated, Walk(p, queue))
    requires done + queue == [root] + Directories(items) && |items| + omitted == SeenAll(done)
    ensures |items| == if |full| <= maxEntries then |full| else maxEntries
    ensures |items| <= |full| && items == full[..|items|]
    ensures truncated <==> |full| > maxEntries
    ensures |items| + omitted == SeenAll([root] + Directories(items))
  {
    assert done + [] == done && Walk(p, queue) == [];
    WalkDone(full, items, maxEntries, truncated);
  }

  /** `projectTree`: the first `maxEntries` items of the unlimited breadth-first listing,
      `truncated` exactly when there are more, and every directory entry of every
      directory it looked into either listed or counted as omitted. */
  method ProjectTree(p: Policy, root: Visit, maxEntries: nat)
    returns (entries: seq<TreeEntry>, truncated: bool, omittedCount: nat)
    ensures |entries| == if |FullTree(p, root)| <= maxEntries then |FullTree(p, root)| else maxEntries
    ensures entries == Entries(FullTree(p, root)[..|entries|])
    ensures truncated <==> |FullTree(p, root)| > maxEntries
    ensures |entries| + omittedCount == SeenAll([root] + Directories(FullTree(p, root)[..|entries|]))
  {
    ghost var full := FullTree(p, root);
    ghost var done: seq<Visit> := [];
    var items: seq<Item>, queue := [], [root];
    truncated, omittedCount := false, 0;
    WalkIsLevelOrder(p, [root]);
    WalkBegins(full, maxEntries);
    assert done + queue == [root] + Directories(items);
    while |queue| > 0
      invariant Capped(full, items, maxEntries, truncated, Walk(p, queue))
      invariant done + queue == [root] + Directories(items)
      invariant |items| + omittedCount == SeenAll(done)
      decreases VisitsSize(queue)
    {
      var current := queue[0];
      assert queue == [current] + queue[1..];
      var listed, cut, omitted := VisitDirectory(p, current, queue[1..], maxEntries, items, truncated, full);
      Account(root, done, current, queue[1..], items, listed);
      done := done + [current];
      queue, items, truncated := queue[1..] + Directories(listed), items + listed, cut;
      omittedCount := omittedCount + omitted;
    }
    WalkEnds(p, root, full, done, queue, items, maxEntries, truncated, omittedCount);
    entries := Entries(items);
  }

  // ---------------------------------------------------------- depth

  function Slashes(path: string): nat {
    if path == "" then 0 else (if path[0] == '/' then 1 else 0) + Slashes(path[1..])
  }

  /** How deep below the workspace root the contents of a directory are. */
  function DepthInside(relative: string): nat {
    if relative == "." then 0 else Slashes(relative) + 1
  }

  /** Names as a file system gives them. */
  predicate ProperName(name: string) {
    name != "." && '/' !in name
  }

  predicate ProperNode(n: Node) {
    ProperName(n.name) && (n.Directory? && n.listing.Readable? ==> ProperNodes(n.listing.children))
  }

  predicate ProperNodes(nodes: seq<Node>) {
    nodes == [] || (ProperNode(nodes[0]) && ProperNodes(nodes[1..]))
  }

  predicate ProperListing(l: Listing) {
    l.Readable? ==> ProperNodes(l.children)
  }

  lemma {:induction false} SlashesAppend(a: string, b: string)
    ensures Slashes(a + b) == Slashes(a) + Slashes(b)
  {
    if a == "" {
      assert a + b == b;
    } else {
      SlashesAppend(a[1..], b);
      assert (a + b)[0] == a[0] && (a + b)[1..] == a[1..] + b;
    }
  }

  lemma {:induction false} NoSlashes(name: string)
    requires '/' !in name
    ensures Slashes(name) == 0
  {
    if name != "" {
      NoSlashes(name[1..]);
    }
  }

  lemma {:induction false} ChildDepth(relative: string, name: string)
    requires ProperName(name)
    ensures Slashes(Relative(relative, name)) == DepthInside(relative)
    ensures Relative(relative, name) != "."
  {
    NoSlashes(name);
    if relative != "." {
      SlashesAppend(relative + "/", name);
      SlashesAppend(relative, "/");
      assert Slashes("/") == 1 + Slashes("/"[1..]);
      assert (relative + "/" + name)[|relative|] == '/';
    }
  }

  lemma {:induction false} ProperInsert(p: Policy, n: Node, sorted: seq<Node>)
    requires ProperNode(n) && ProperNodes(sorted)
    ensures ProperNodes(Insert(p, n, sorted))
  {
    if sorted == [] || !Precedes(p, sorted[0], n) {
      assert ([n] + sorted)[1..] == sorted;
    } else {
      ProperInsert(p, n, sorted[1..]);
      assert ([sorted[0]] + Insert(p, n, sorted[1..]))[1..] == Insert(p, n, sorted[1..]);
    }
  }

  lemma {:induction false} ProperSorted(p: Policy, nodes: seq<Node>)
    requires ProperNodes(nodes)
    ensures ProperNodes(Sorted(p, nodes))
  {
    if nodes != [] {
      ProperSorted(p, nodes[1..]);
      ProperInsert(p, nodes[0], Sorted(p, nodes[1..]));
    }
  }

  /** An item at depth `d` whose own tree is properly named. */
  predicate AtDepth(i: Item, d: nat) {
    Slashes(i.path) == d && i.path != "." && ProperNode(i.node)
  }

  ghost predicate AllAtDepth(items: seq<Item>, d: nat) {
    forall k :: 0 <= k < |items| ==> AtDepth(items[k], d)
  }

  ghost predicate AllInside(visits: seq<Visit>, d: nat) {
    forall k :: 0 <= k < |visits| ==> DepthInside(visits[k].relative) == d && ProperListing(visits[k].listing)
  }

  lemma {:induction false} ListedAtDepth(p: Policy, relative: string, nodes: seq<Node>)
    requires ProperNodes(nodes)
    ensures AllAtDepth(ListedOf(p, relative, nodes), DepthInside(relative))
  {
    if nodes != [] {
      ListedAtDepth(p, relative, nodes[1..]);
      ChildDepth(relative, nodes[0].name);
    }
  }

  lemma {:induction false} LevelAtDepth(p: Policy, visits: seq<Visit>, d: nat)
    requires AllInside(visits, d)
    ensures AllAtDepth(Level(p, visits), d)
  {
    if visits != [] {
      LevelAtDepth(p, visits[1..], d);
      if visits[0].listing.Readable? {
        ProperSorted(p, visits[0].listing.children);
        ListedAtDepth(p, visits[0].relative, Sorted(p, visits[0].listing.children));
      }
    }
  }

  lemma {:induction false} DirectoriesInside(items: seq<Item>, d: nat)
    requires AllAtDepth(items, d)
    ensures AllInside(Directories(items), d + 1)
  {
    if items != [] {
      assert AtDepth(items[0], d);
      DirectoriesInside(items[1..], d);
    }
  }

  /** At least `d` deep, and never getting shallower. */
  ghost predicate Deepening(items: seq<Item>, d: nat) {
    && (forall k :: 0 <= k < |items| ==> Slashes(items[k].path) >= d)
    && (forall j, k :: 0 <= j < k < |items| ==> Slashes(items[j].path) <= Slashes(items[k].path))
  }

  lemma {:induction false} DeepeningAppend(level: seq<Item>, rest: seq<Item>, d: nat)
    requires AllAtDepth(level, d) && Deepening(rest, d + 1)
    ensures Deepening(level + rest, d)
  {
    forall k | 0 <= k < |level| ensures Slashes(level[k].path) == d {
      assert AtDepth(level[k], d);
    }
  }

  lemma {:induction false} LevelOrderDepths(p: Policy, visits: seq<Visit>, d: nat)
    requires AllInside(visits, d)
    ensures Deepening(LevelOrder(p, visits), d)
    decreases VisitsSize(visits)
  {
    if visits != [] {
      LevelSize(p, visits);
      LevelAtDepth(p, visits, d);
      DirectoriesInside(Level(p, visits), d);
      LevelOrderDepths(p, Directories(Level(p, visits)), d + 1);
      DeepeningAppend(Level(p, visits), LevelOrder(p, Directories(Level(p, visits))), d);
    }
  }

  /** The listing gets deeper, never shallower. */
  lemma {:induction false} DepthNeverDecreases(p: Policy, root: Visit)
    requires ProperListing(root.listing)
    ensures Deepening(FullTree(p, root), DepthInside(root.relative))
  {
    LevelOrderDepths(p, [root], DepthInside(root.relative));
  }
}
