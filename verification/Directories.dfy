/**
 Whole snapshots as nested directories (src/tree.rs): reading a path, and why a root identifies
 its snapshot.
 */
module Directories {
  import opened Names
  import opened Chunks
  import opened Levels
  import opened Seeking

  /** A repository path as its components; paths are never empty. */
  type Path = seq<Name>

  // --------------------------------------------------------------------- one directory's items

  /** All items of one directory in order. */
  function Leaves(chunk: Chunk): seq<Item>
    decreases chunk, 1, 0
  {
    if chunk.level == 0 then chunk.items else LeavesOf(chunk, chunk.items)
  }

  /** The leaves below some of a chunk's items. */
  function LeavesOf(chunk: Chunk, items: seq<Item>): seq<Item>
    requires forall i :: 0 <= i < |items| ==> items[i] in chunk.items
    decreases chunk, 0, |items|
  {
    if items == [] then []
    else
      var last := items[|items| - 1];
      assert last in chunk.items;
      LeavesOf(chunk, items[..|items| - 1]) + if last.node.Child? then Leaves(last.node.chunk) else []
  }

  function LeavesAll(chunks: seq<Chunk>): seq<Item> {
    if chunks == [] then [] else LeavesAll(chunks[..|chunks| - 1]) + Leaves(chunks[|chunks| - 1])
  }

  lemma {:induction false} LeavesOfSummaries(chunk: Chunk, chunks: seq<Chunk>)
    requires forall i :: 0 <= i < |chunks| ==> Summary(chunks[i]) in chunk.items
    ensures LeavesOf(chunk, Summaries(chunks)) == LeavesAll(chunks)
  {
    hide Leaves;
    if chunks != [] {
      var front := chunks[..|chunks| - 1];
      LeavesOfSummaries(chunk, front);
      assert Summaries(chunks)[..|chunks| - 1] == Summaries(front);
    }
  }

  /** Expanding a level into the one below keeps the leaves. */
  lemma {:induction false} LeavesBelow(upper: seq<Chunk>, lower: seq<Chunk>)
    requires Flat(upper) == Summaries(lower)
    requires forall c :: 0 <= c < |upper| ==> upper[c].level > 0
    ensures LeavesAll(upper) == LeavesAll(lower)
  {
    if upper == [] {
      assert lower == [];
    } else {
      var front, last := upper[..|upper| - 1], upper[|upper| - 1];
      var n := |Flat(front)|;
      SplitBelow(front, last.items, lower);
      hide Flat, Leaves, LeavesOf;
      LeavesBelow(front, lower[..n]);
      LastLeaves(last, lower[n..]);
      LeavesConcat(lower[..n], lower[n..]);
      assert lower[..n] + lower[n..] == lower;
    }
  }

  lemma {:induction false} SplitBelow(front: seq<Chunk>, items: seq<Item>, lower: seq<Chunk>)
    requires Flat(front) + items == Summaries(lower)
    ensures var n := |Flat(front)|;
      n <= |lower| && Flat(front) == Summaries(lower[..n]) && items == Summaries(lower[n..])
  {
    hide Flat;
    var n := |Flat(front)|;
    SummariesSlice(lower, n);
    assert Flat(front) == (Flat(front) + items)[..n] && items == (Flat(front) + items)[n..];
  }

  lemma {:induction false} SummariesSlice(chunks: seq<Chunk>, n: nat)
    requires n <= |chunks|
    ensures Summaries(chunks)[..n] == Summaries(chunks[..n]) && Summaries(chunks)[n..] == Summaries(chunks[n..])
  {
  }

  lemma {:induction false} LastLeaves(chunk: Chunk, lower: seq<Chunk>)
    requires chunk.level > 0 && chunk.items == Summaries(lower)
    ensures Leaves(chunk) == LeavesAll(lower)
  {
    forall i | 0 <= i < |lower| ensures Summary(lower[i]) in chunk.items
    {
      assert chunk.items[i] == Summary(lower[i]);
    }
    LeavesOfSummaries(chunk, lower);
  }

  lemma {:induction false} LeavesConcat(a: seq<Chunk>, c: seq<Chunk>)
    ensures LeavesAll(a + c) == LeavesAll(a) + LeavesAll(c)
  {
    hide Leaves;
    if c == [] {
      assert a + c == a;
    } else {
      assert (a + c)[..|a + c| - 1] == a + c[..|c| - 1];
      LeavesConcat(a, c[..|c| - 1]);
    }
  }

  lemma {:induction false} LeavesFlat(chunks: seq<Chunk>)
    requires forall c :: 0 <= c < |chunks| ==> chunks[c].level == 0
    ensures LeavesAll(chunks) == Flat(chunks)
  {
    if chunks != [] {
      LeavesFlat(chunks[..|chunks| - 1]);
    }
  }

  lemma {:induction false} LevelLeaves(b: Boundary, items: seq<Item>, l: nat)
    ensures LeavesAll(LevelChunks(b, items, l)) == items
  {
    hide Leaves, LeavesAll, Cut, LevelItems, LevelChunks, Flat;
    LevelFlat(b, items, l);
    if l == 0 {
      LevelZero(b, items);
      LeavesFlat(LevelChunks(b, items, 0));
    } else {
      LevelLeaves(b, items, l - 1);
      LevelStep(b, items, l - 1);
      LeavesBelow(LevelChunks(b, items, l), LevelChunks(b, items, l - 1));
    }
  }

  /** A root built from scratch reads back as the items it was built from. */
  lemma {:induction false} BuildReads(b: Boundary, items: seq<Item>, root: Chunk)
    requires IsRoot(b, items, root)
    ensures Leaves(root) == items
  {
    hide Leaves, Cut, Build, LevelItems, LevelChunks;
    RootPlace(b, items, root);
    LevelLeaves(b, items, root.level);
    assert [root][..0] == [];
    assert LeavesAll([root]) == Leaves(root);
  }

  // ------------------------------------------------------------------------------ snapshots

  const EMPTY: Chunk := Chunk(0, [])

  /** The node filed under a name. */
  function Entry(items: seq<Item>, name: Name): Option<Node> {
    if items == [] then None
    else if items[0].name == name then Some(items[0].node)
    else Entry(items[1..], name)
  }

  lemma {:induction false} EntryIs(items: seq<Item>, name: Name)
    requires Sorted(items)
    ensures forall node :: Entry(items, name) == Some(node) <==> Item(name, node) in items
  {
    if items != [] {
      var head, rest := items[0], items[1..];
      EntryIs(rest, name);
      assert items == [head] + rest;
      if head.name == name {
        forall x | x in rest ensures x.name != name
        {
          var i :| 0 <= i < |rest| && rest[i] == x;
          assert Less(items[0].name, items[i + 1].name);
        }
      }
    }
  }

  /** A directory in canonical form: built from its sorted items, with every subdirectory nonempty and canonical. */
  ghost predicate Canonical(b: Boundary, dir: Chunk)
    decreases dir, 1
  {
    && (dir == EMPTY || IsRoot(b, Leaves(dir), dir))
    && Sorted(Leaves(dir))
    && Nested(b, dir)
  }

  /** Files and subdirectories at the leaves; above them child chunks one level down, under their last names. */
  ghost predicate Nested(b: Boundary, chunk: Chunk)
    decreases chunk, 0
  {
    forall i :: 0 <= i < |chunk.items| ==>
      match chunk.items[i].node
      case File(_) => chunk.level == 0
      case Dir(root) => chunk.level == 0 && root.items != [] && Canonical(b, root)
      case Child(child) =>
        && chunk.level > 0 && chunk.items[i] == Summary(child)
        && child.items != [] && child.level == chunk.level - 1 && Nested(b, child)
  }

  /** What a directory may hold: files and nonempty canonical subdirectories. */
  ghost predicate Sound(b: Boundary, node: Node) {
    node.File? || (node.Dir? && node.root.items != [] && Canonical(b, node.root))
  }

  lemma {:induction false} NestedLeaves(b: Boundary, chunk: Chunk)
    requires Nested(b, chunk)
    ensures forall x :: x in Leaves(chunk) ==> Sound(b, x.node) && (x.node.Dir? ==> x.node.root < chunk)
    decreases chunk, 1, 0
  {
    if chunk.level == 0 {
      forall x | x in chunk.items ensures Sound(b, x.node) && (x.node.Dir? ==> x.node.root < chunk)
      {
        var i :| 0 <= i < |chunk.items| && chunk.items[i] == x;
      }
    } else {
      NestedLeavesOf(b, chunk, chunk.items);
    }
  }

  lemma {:induction false} NestedLeavesOf(b: Boundary, chunk: Chunk, items: seq<Item>)
    requires Nested(b, chunk)
    requires forall i :: 0 <= i < |items| ==> items[i] in chunk.items
    ensures forall x :: x in LeavesOf(chunk, items) ==> Sound(b, x.node) && (x.node.Dir? ==> x.node.root < chunk)
    decreases chunk, 0, |items|
  {
    if items != [] {
      NestedLeavesOf(b, chunk, items[..|items| - 1]);
      var last := items[|items| - 1];
      if last.node.Child? {
        var i :| 0 <= i < |chunk.items| && chunk.items[i] == last;
        NestedLeaves(b, last.node.chunk);
      }
    }
  }

  /** The file at `path`, if any. */
  function Lookup(dir: Chunk, path: Path): Option<FileEntry>
    decreases |path|
  {
    if path == [] then None
    else match Entry(Leaves(dir), path[0])
      case None => None
      case Some(File(entry)) => if |path| == 1 then Some(entry) else None
      case Some(Dir(root)) => if |path| == 1 then None else Lookup(root, path[1..])
      case Some(Child(_)) => None
  }

  /** A directory that may be absent, which holds no files. */
  function Read(dir: Option<Chunk>, path: Path): Option<FileEntry> {
    if dir.Some? then Lookup(dir.value, path) else None
  }

  /** A snapshot never holds a file and a descendant of it. */
  lemma {:induction false} LookupPrefixFree(dir: Chunk, path: Path, below: Path)
    requires path < below && Lookup(dir, path).Some?
    ensures Lookup(dir, below) == None
    decreases |path|
  {
    assert below[0] == path[0];
    if |path| > 1 {
      var node := Entry(Leaves(dir), path[0]).value;
      LookupPrefixFree(node.root, path[1..], below[1..]);
    }
  }

  /** Every nonempty canonical directory holds a file somewhere. */
  lemma {:induction false} HoldsFile(b: Boundary, dir: Chunk) returns (path: Path)
    requires Canonical(b, dir) && dir.items != []
    ensures path != [] && Lookup(dir, path).Some?
    decreases dir
  {
    LeavesFilled(b, dir);
    NestedLeaves(b, dir);
    var first := Leaves(dir)[0];
    EntryIs(Leaves(dir), first.name);
    assert first == Item(first.name, first.node) && first in Leaves(dir);
    if first.node.File? {
      path := [first.name];
    } else {
      var rest := HoldsFile(b, first.node.root);
      path := [first.name] + rest;
      assert path[1..] == rest;
    }
  }

  lemma {:induction false} LeavesFilled(b: Boundary, dir: Chunk)
    requires Canonical(b, dir) && dir.items != []
    ensures Leaves(dir) != [] && IsRoot(b, Leaves(dir), dir)
  {
    BuildNothing(b);
  }

  lemma {:induction false} BuildNothing(b: Boundary)
    ensures Build(b, 0, []) == Ok(None)
  {
    CutShrinks(b, 0, []);
  }

  /** The entry of a canonical directory under a name, in terms of the paths below it. */
  lemma {:induction false} EntrySeen(b: Boundary, dir: Chunk, name: Name, rest: Path)
    requires Canonical(b, dir)
    ensures match Entry(Leaves(dir), name)
      case None => Lookup(dir, [name] + rest) == None
      case Some(File(entry)) => Lookup(dir, [name] + rest) == if rest == [] then Some(entry) else None
      case Some(Dir(root)) => Lookup(dir, [name] + rest) == (if rest == [] then None else Lookup(root, rest))
        && root < dir && Canonical(b, root) && root.items != []
      case Some(Child(_)) => false
  {
    NestedLeaves(b, dir);
    EntryIs(Leaves(dir), name);
    assert ([name] + rest)[1..] == rest;
    var entry := Entry(Leaves(dir), name);
    if entry.Some? {
      assert Item(name, entry.value) in Leaves(dir);
    }
  }

  /** A root identifies its snapshot: canonical roots that read alike are the same object. */
  lemma {:induction false} SameSnapshotSameRoot(b: Boundary, one: Chunk, two: Chunk)
    requires Canonical(b, one) && Canonical(b, two)
    requires forall path :: Lookup(one, path) == Lookup(two, path)
    ensures one == two
    decreases one
  {
    var a, c := Leaves(one), Leaves(two);
    forall name ensures Entry(a, name) == Entry(c, name)
    {
      SameEntry(b, one, two, name);
    }
    forall x ensures x in a <==> x in c
    {
      EntryIs(a, x.name);
      EntryIs(c, x.name);
      assert x == Item(x.name, x.node);
    }
    SortedUnique(a, c);
    if one == EMPTY || two == EMPTY {
      if one.items != [] {
        LeavesFilled(b, one);
      }
      if two.items != [] {
        LeavesFilled(b, two);
      }
    }
  }

  lemma {:induction false} SameEntry(b: Boundary, one: Chunk, two: Chunk, name: Name)
    requires Canonical(b, one) && Canonical(b, two)
    requires forall path :: Lookup(one, path) == Lookup(two, path)
    ensures Entry(Leaves(one), name) == Entry(Leaves(two), name)
    decreases one, 0
  {
    hide Canonical, Leaves, Lookup, Entry;
    EntrySeen(b, one, name, []);
    EntrySeen(b, two, name, []);
    var e1, e2 := Entry(Leaves(one), name), Entry(Leaves(two), name);
    if e1.Some? && e1.value.Dir? {
      var q := HoldsFile(b, e1.value.root);
      EntrySeen(b, one, name, q);
      EntrySeen(b, two, name, q);
      assert e2.Some? && e2.value.Dir?;
      forall path ensures Lookup(e1.value.root, path) == Lookup(e2.value.root, path)
      {
        EntrySeen(b, one, name, path);
        EntrySeen(b, two, name, path);
        if path == [] {
          LookupEmpty(e1.value.root);
          LookupEmpty(e2.value.root);
        }
      }
      SameSnapshotSameRoot(b, e1.value.root, e2.value.root);
    } else if e2.Some? && e2.value.Dir? {
      var q := HoldsFile(b, e2.value.root);
      EntrySeen(b, one, name, q);
      EntrySeen(b, two, name, q);
    }
  }

  lemma {:induction false} LookupEmpty(dir: Chunk)
    ensures Lookup(dir, []) == None
  {
  }

  // -------------------------------------------------------------------- canonical construction

  lemma {:induction false} ChunkItemsFrom(chunks: seq<Chunk>, c: nat)
    requires c < |chunks|
    ensures forall i :: 0 <= i < |chunks[c].items| ==> chunks[c].items[i] in Flat(chunks)
  {
    forall i | 0 <= i < |chunks[c].items| ensures chunks[c].items[i] in Flat(chunks)
    {
      ItemAt(chunks, c, i);
    }
  }

  lemma {:induction false} LevelNested(b: Boundary, items: seq<Item>, l: nat)
    requires forall x :: x in items ==> Sound(b, x.node)
    ensures forall c :: 0 <= c < |LevelChunks(b, items, l)| ==> Nested(b, LevelChunks(b, items, l)[c])
  {
    hide Cut, LevelItems, LevelChunks, Flat, Canonical;
    LevelFlat(b, items, l);
    if l == 0 {
      LevelZero(b, items);
    } else {
      LevelNested(b, items, l - 1);
      LevelFlat(b, items, l - 1);
      LevelStep(b, items, l - 1);
    }
    var chunks := LevelChunks(b, items, l);
    forall c | 0 <= c < |chunks| ensures Nested(b, chunks[c])
    {
      ChunkItemsFrom(chunks, c);
      forall i | 0 <= i < |chunks[c].items| ensures NestedAt(b, l, chunks[c].items[i])
      {
        var x := chunks[c].items[i];
        if l > 0 {
          var d :| 0 <= d < |LevelChunks(b, items, l - 1)| && Summaries(LevelChunks(b, items, l - 1))[d] == x;
        }
      }
    }
  }

  ghost predicate NestedAt(b: Boundary, level: nat, item: Item) {
    match item.node
    case File(_) => level == 0
    case Dir(root) => level == 0 && root.items != [] && Canonical(b, root)
    case Child(child) =>
      level > 0 && item == Summary(child) && child.items != [] && child.level == level - 1 && Nested(b, child)
  }

  /** Building sorted files and canonical subdirectories gives a canonical directory holding them. */
  lemma {:induction false} BuiltCanonical(b: Boundary, items: seq<Item>, dir: Chunk)
    requires Sorted(items) && Build(b, 0, items) == Ok(Some(dir))
    requires forall x :: x in items ==> Sound(b, x.node)
    ensures Canonical(b, dir) && Leaves(dir) == items && dir.items != []
  {
    hide Leaves, Sorted, Build, LevelChunks, Sound;
    BuildReads(b, items, dir);
    RootPlace(b, items, dir);
    LevelNested(b, items, dir.level);
    assert LevelChunks(b, items, dir.level)[0] == dir;
  }
}
