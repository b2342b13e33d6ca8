/**
 Applying a changeset to a snapshot tree (src/tree.rs): the changed directories are updated from
 the inside out. The result is canonical and reads as the changed snapshot, or the changeset is
 refused for exactly the reasons stated by `Bad`.
 */
module Apply {
  import opened Names
  import opened Chunks
  import opened Levels
  import opened Seeking
  import opened Updating
  import opened Directories

  /** Changed paths, each with its new file or None for a deletion. */
  type Changeset = map<Path, Option<FileEntry>>

  ghost predicate Proper(changes: Changeset) {
    forall p :: p in changes ==> p != []
  }

  // ------------------------------------------------------------------------- finding one entry

  /** The entry filed under `name` directly inside a canonical directory. */
  method Find(b: Boundary, dir: Chunk, name: Name) returns (node: Option<Node>)
    requires Canonical(b, dir)
    ensures node == Entry(Leaves(dir), name)
  {
    hide Canonical, Leaves, Build, Cut, Flat, LevelChunks, LevelItems, Rank;
    assert Sorted(Leaves(dir)) && (dir == EMPTY || IsRoot(b, Leaves(dir), dir)) by { CanonicalParts(b, dir); }
    if dir.items == [] {
      assert Leaves(dir) == [] by { EmptyLeaves(b, dir); }
      return None;
    }
    ghost var items := Leaves(dir);
    TowerStands(b, items, dir);
    ghost var tower := Tower(b, items, dir.level);
    var found, c := Seek(tower, dir, 0, name, false);
    var leaf := found.value.0;
    assert Flat(tower[0]) == items by { LevelFlat(b, items, 0); LevelZero(b, items); }
    ChunkSorted(tower[0], c);
    var index := PartitionPoint(leaf.items, name, false);
    LeafHolds(tower[0], c, name, index);
    EntryIs(items, name);
    if index < |leaf.items| && leaf.items[index].name == name {
      assert leaf.items[index] == Item(name, leaf.items[index].node);
      return Some(leaf.items[index].node);
    }
    EntryAbsent(items, name);
    return None;
  }

  lemma {:induction false} CanonicalParts(b: Boundary, dir: Chunk)
    requires Canonical(b, dir)
    ensures (dir == EMPTY || IsRoot(b, Leaves(dir), dir)) && Sorted(Leaves(dir)) && Nested(b, dir)
  {
  }

  lemma {:induction false} EmptyLeaves(b: Boundary, dir: Chunk)
    requires Canonical(b, dir) && dir.items == []
    ensures Leaves(dir) == []
  {
    if dir != EMPTY {
      RootPlace(b, Leaves(dir), dir);
    }
  }

  lemma {:induction false} EntryAbsent(items: seq<Item>, name: Name)
    requires forall x :: x in items ==> x.name != name
    ensures Entry(items, name) == None
  {
    if items != [] {
      assert items[0] in items;
      EntryAbsent(items[1..], name);
    }
  }

  /** A name filed anywhere in a level is filed at the partition point of its sought chunk. */
  lemma {:induction false} LeafHolds(chunks: seq<Chunk>, c: nat, name: Name, index: nat)
    requires AllFilled(chunks) && Sorted(Flat(chunks)) && IsSought(chunks, c, name, false)
    requires index <= |chunks[c].items|
    requires forall i :: 0 <= i < index ==> Less(chunks[c].items[i].name, name)
    requires index < |chunks[c].items| ==> !Less(chunks[c].items[index].name, name)
    ensures index < |chunks[c].items| ==> chunks[c].items[index] in Flat(chunks)
    ensures forall x :: x in Flat(chunks) && x.name == name ==> index < |chunks[c].items| && chunks[c].items[index] == x
  {
    hide Flat;
    var items, at := Flat(chunks), Offset(chunks, c);
    ChunkWithin(chunks, c);
    if index < |chunks[c].items| {
      assert items[at + index] in items;
    }
    forall m | 0 <= m < |items| && items[m].name == name ensures index < |chunks[c].items| && m == at + index
    {
      if m < at {
        assert c > 0 by { assert chunks[..0] == []; FlatNone(); }
        PassedBefore(chunks, c - 1, m, name, false);
      } else if m < at + |chunks[c].items| {
        assert items[m] == chunks[c].items[m - at];
      } else {
        LastName(chunks, c);
      }
    }
  }

  // ----------------------------------------------------------------------- what is applied

  /** The file at `path` once `changes` are made. */
  ghost function After(dir: Option<Chunk>, changes: Changeset, path: Path): Option<FileEntry> {
    if path in changes then changes[path] else Read(dir, path)
  }

  /** A deletion of a path that is no file, but is a directory or has a change below it. */
  ghost predicate Ambiguity(dir: Option<Chunk>, changes: Changeset, p: Path) {
    && p in changes && changes[p] == None && Read(dir, p) == None
    && exists q :: p < q && (Read(dir, q).Some? || q in changes)
  }

  /** A file above another file once `changes` are made. */
  ghost predicate Clash(dir: Option<Chunk>, changes: Changeset, p: Path, q: Path) {
    p != [] && p < q && After(dir, changes, p).Some? && After(dir, changes, q).Some?
  }

  /** Why a changeset is refused. */
  ghost predicate Bad(dir: Option<Chunk>, changes: Changeset) {
    || (exists p :: Ambiguity(dir, changes, p))
    || (exists p, q :: Clash(dir, changes, p, q))
  }

  /** A canonical directory, or none, that reads as the changed one. */
  ghost predicate ReadsAs(b: Boundary, target: Option<Chunk>, dir: Option<Chunk>, changes: Changeset) {
    Whole(b, target) && forall path :: Read(target, path) == After(dir, changes, path)
  }

  /** The changed directory can be stored: each of its directories fits the levels there are. */
  ghost predicate Buildable(b: Boundary, dir: Option<Chunk>, changes: Changeset) {
    exists target :: ReadsAs(b, target, dir, changes)
  }

  // ------------------------------------------------------------------- one name of a directory

  /** The change of the entry itself, if any. */
  function Exact(changes: Changeset, name: Name): Option<Option<FileEntry>> {
    if [name] in changes then Some(changes[[name]]) else None
  }

  /** The changed paths strictly below a name, relative to it. */
  function PathsBelow(paths: set<Path>, name: Name): (below: set<Path>)
    ensures forall q :: q in below <==> q != [] && [name] + q in paths
  {
    var below := set p | p in paths && |p| > 1 && p[0] == name :: p[1..];
    assert forall q :: q in below <==> q != [] && [name] + q in paths by {
      forall q ensures q in below <==> q != [] && [name] + q in paths
      {
        assert ([name] + q)[1..] == q;
        if q in below {
          var p :| p in paths && |p| > 1 && p[0] == name && p[1..] == q;
          assert p == [name] + q;
        }
      }
    }
    below
  }

  /** The changes strictly below a name, relative to it. */
  function Deeper(changes: Changeset, name: Name): (deeper: Changeset)
    ensures forall q :: q in deeper <==> q != [] && [name] + q in changes
    ensures forall q :: q in deeper ==> deeper[q] == changes[[name] + q]
  {
    map q | q in PathsBelow(changes.Keys, name) :: changes[[name] + q]
  }

  function Subdirectory(node: Option<Node>): Option<Chunk> {
    if node.Some? && node.value.Dir? then Some(node.value.root) else None
  }

  function FileOf(node: Option<Node>): Option<FileEntry> {
    if node.Some? && node.value.File? then Some(node.value.entry) else None
  }

  function Current(dir: Option<Chunk>, name: Name): Option<Node> {
    if dir.Some? then Entry(Leaves(dir.value), name) else None
  }

  ghost predicate Whole(b: Boundary, dir: Option<Chunk>) {
    dir.Some? ==> Canonical(b, dir.value)
  }

  /** A subdirectory: absent, or canonical and not empty. */
  ghost predicate Kept(b: Boundary, dir: Option<Chunk>) {
    dir.Some? ==> Canonical(b, dir.value) && dir.value.items != []
  }

  lemma {:induction false} ReadBelow(b: Boundary, dir: Option<Chunk>, name: Name, rest: Path)
    requires Whole(b, dir)
    ensures Kept(b, Subdirectory(Current(dir, name)))
    ensures Read(dir, [name] + rest) == if rest == [] then FileOf(Current(dir, name))
      else Read(Subdirectory(Current(dir, name)), rest)
    ensures !(FileOf(Current(dir, name)).Some? && Subdirectory(Current(dir, name)).Some?)
  {
    hide Lookup, Leaves, Canonical, Entry;
    if dir.Some? {
      EntrySeen(b, dir.value, name, rest);
    }
  }

  lemma {:induction false} AfterBelow(b: Boundary, dir: Option<Chunk>, changes: Changeset, name: Name, rest: Path)
    requires Whole(b, dir) && rest != []
    ensures After(dir, changes, [name] + rest) == After(Subdirectory(Current(dir, name)), Deeper(changes, name), rest)
  {
    hide Read, Deeper, Canonical, Current;
    ReadBelow(b, dir, name, rest);
  }

  /** Why one name of a directory is refused, in the terms the code checks. */
  ghost predicate BadAt(b: Boundary, dir: Option<Chunk>, changes: Changeset, name: Name) {
    var current, exact, deeper := Current(dir, name), Exact(changes, name), Deeper(changes, name);
    var file := if exact.Some? then exact.value else FileOf(current);
    || (exact == Some(None) && FileOf(current) == None && (Subdirectory(current).Some? || deeper != map[]))
    || Bad(Subdirectory(current), deeper)
    || (file.Some? && exists q :: q != [] && After(Subdirectory(current), deeper, q).Some?)
  }

  function Heads(changes: Changeset): set<Name> {
    set p | p in changes && p != [] :: p[0]
  }

  lemma {:induction false} BadAtIsBad(b: Boundary, dir: Option<Chunk>, changes: Changeset, name: Name)
    requires Whole(b, dir) && BadAt(b, dir, changes, name)
    ensures Bad(dir, changes)
  {
    var current, deeper := Current(dir, name), Deeper(changes, name);
    var sub := Subdirectory(current);
    hide Read, Deeper, Canonical, Current, Whole;
    ReadBelow(b, dir, name, []);
    assert [name] + [] == [name];
    if Exact(changes, name) == Some(None) && FileOf(current) == None && (sub.Some? || deeper != map[]) {
      var q: Path;
      if sub.Some? {
        q := HoldsFile(b, sub.value);
        assert Read(sub, q).Some? by { ReadSome(sub.value, q); }
        ReadBelow(b, dir, name, q);
      } else {
        q :| q in deeper;
      }
      assert [name] < [name] + q;
      assert Ambiguity(dir, changes, [name]);
    } else if Bad(sub, deeper) {
      BadBelow(b, dir, changes, name);
    } else {
      var q :| q != [] && After(sub, deeper, q).Some?;
      AfterBelow(b, dir, changes, name, q);
      assert Clash(dir, changes, [name], [name] + q);
    }
  }

  lemma {:induction false} ReadSome(dir: Chunk, path: Path)
    ensures Read(Some(dir), path) == Lookup(dir, path)
  {
  }

  lemma {:induction false} BadBelow(b: Boundary, dir: Option<Chunk>, changes: Changeset, name: Name)
    requires Whole(b, dir) && Bad(Subdirectory(Current(dir, name)), Deeper(changes, name))
    ensures Bad(dir, changes)
  {
    var sub, deeper := Subdirectory(Current(dir, name)), Deeper(changes, name);
    hide Read, Deeper, Canonical, Current, Whole;
    if exists p :: Ambiguity(sub, deeper, p) {
      var p :| Ambiguity(sub, deeper, p);
      var q :| p < q && (Read(sub, q).Some? || q in deeper);
      ReadBelow(b, dir, name, p);
      ReadBelow(b, dir, name, q);
      assert [name] + p < [name] + q;
      assert Ambiguity(dir, changes, [name] + p);
    } else {
      var p, q :| Clash(sub, deeper, p, q);
      AfterBelow(b, dir, changes, name, p);
      AfterBelow(b, dir, changes, name, q);
      assert Clash(dir, changes, [name] + p, [name] + q);
    }
  }

  lemma {:induction false} BadIsBadAt(b: Boundary, dir: Option<Chunk>, changes: Changeset) returns (name: Name)
    requires Whole(b, dir) && Proper(changes) && Bad(dir, changes)
    ensures name in Heads(changes) && BadAt(b, dir, changes, name)
  {
    if exists p :: Ambiguity(dir, changes, p) {
      var p :| Ambiguity(dir, changes, p);
      name := p[0];
      AmbiguityAt(b, dir, changes, p);
    } else {
      var p, q :| Clash(dir, changes, p, q);
      name := p[0];
      ClashHead(b, dir, changes, p, q);
      ClashAt(b, dir, changes, p, q);
    }
  }

  lemma {:induction false} AmbiguityAt(b: Boundary, dir: Option<Chunk>, changes: Changeset, p: Path)
    requires Whole(b, dir) && Proper(changes) && Ambiguity(dir, changes, p)
    ensures p != [] && BadAt(b, dir, changes, p[0])
  {
    hide Read, Deeper, Canonical, Current, Whole, BadAt;
    assert p in changes;
    var name, p' := p[0], p[1..];
    assert p == [name] + p';
    if p' == [] {
      assert p == [name];
      AmbiguityHere(b, dir, changes, name);
    } else {
      AmbiguityBelow(b, dir, changes, name, p');
      BelowAt(b, dir, changes, name);
    }
  }

  lemma {:induction false} BelowAt(b: Boundary, dir: Option<Chunk>, changes: Changeset, name: Name)
    requires Bad(Subdirectory(Current(dir, name)), Deeper(changes, name))
    ensures BadAt(b, dir, changes, name)
  {
    hide Bad, Current, Deeper;
  }

  lemma {:induction false} AmbiguityHere(b: Boundary, dir: Option<Chunk>, changes: Changeset, name: Name)
    requires Whole(b, dir) && Ambiguity(dir, changes, [name])
    ensures BadAt(b, dir, changes, name)
  {
    hide Read, Deeper, Canonical, Current, Whole, Bad;
    var q :| [name] < q && (Read(dir, q).Some? || q in changes);
    var q' := q[1..];
    assert q == [name] + q';
    ReadBelow(b, dir, name, []);
    assert [name] + [] == [name];
    ReadBelow(b, dir, name, q');
    if Read(dir, q).Some? {
      ReadNone(q');
    } else {
      assert q' in Deeper(changes, name);
    }
  }

  lemma {:induction false} AmbiguityBelow(b: Boundary, dir: Option<Chunk>, changes: Changeset, name: Name, p: Path)
    requires Whole(b, dir) && Ambiguity(dir, changes, [name] + p) && p != []
    ensures Bad(Subdirectory(Current(dir, name)), Deeper(changes, name))
  {
    hide Read, Deeper, Canonical, Current, Whole, Subdirectory, FileOf;
    var q :| [name] + p < q && (Read(dir, q).Some? || q in changes);
    var q' := q[1..];
    assert q == [name] + q' && p < q';
    ReadBelow(b, dir, name, p);
    ReadBelow(b, dir, name, q');
    assert Ambiguity(Subdirectory(Current(dir, name)), Deeper(changes, name), p);
  }

  lemma {:induction false} ReadNone(path: Path)
    ensures Read(None, path) == None
  {
  }

  lemma {:induction false} ClashHead(b: Boundary, dir: Option<Chunk>, changes: Changeset, p: Path, q: Path)
    requires Whole(b, dir) && Clash(dir, changes, p, q)
    ensures p[0] in Heads(changes)
  {
    if p in changes {
    } else if q in changes {
      assert q[0] == p[0];
    } else {
      LookupPrefixFree(dir.value, p, q);
    }
  }

  lemma {:induction false} ClashAt(b: Boundary, dir: Option<Chunk>, changes: Changeset, p: Path, q: Path)
    requires Whole(b, dir) && Clash(dir, changes, p, q)
    ensures BadAt(b, dir, changes, p[0])
  {
    hide Read, Deeper, Canonical, Current, Whole, BadAt, Subdirectory, FileOf, After;
    var name, p', q' := p[0], p[1..], q[1..];
    assert p == [name] + p' && q == [name] + q' && p' < q';
    AfterBelow(b, dir, changes, name, q');
    if p' == [] {
      assert p == [name];
      ClashHere(b, dir, changes, name, q');
    } else {
      AfterBelow(b, dir, changes, name, p');
      assert Clash(Subdirectory(Current(dir, name)), Deeper(changes, name), p', q');
      BelowAt(b, dir, changes, name);
    }
  }

  lemma {:induction false} ClashHere(b: Boundary, dir: Option<Chunk>, changes: Changeset, name: Name, q: Path)
    requires Whole(b, dir) && q != [] && After(dir, changes, [name]).Some?
    requires After(Subdirectory(Current(dir, name)), Deeper(changes, name), q).Some?
    ensures BadAt(b, dir, changes, name)
  {
    hide Read, Deeper, Canonical, Current, Whole, Bad;
    ReadBelow(b, dir, name, []);
    assert [name] + [] == [name];
  }

  // --------------------------------------------------------------------------- applying it

  /** What a node holds at and below itself. */
  ghost function Seen(node: Option<Node>, rest: Path): Option<FileEntry> {
    if rest == [] then FileOf(node) else Read(Subdirectory(node), rest)
  }

  /** `next` is what a name holds once its changes are made. */
  ghost predicate Becomes(b: Boundary, dir: Option<Chunk>, changes: Changeset, name: Name, next: Option<Node>) {
    && (next.Some? ==> Sound(b, next.value))
    && forall rest :: Seen(next, rest) == After(dir, changes, [name] + rest)
  }

  /** `after` is the directory once all its changes are made: canonical, and reading as changed. */
  ghost predicate Applied(b: Boundary, dir: Option<Chunk>, changes: Changeset, after: Option<Chunk>) {
    && Whole(b, after)
    && (forall path :: Read(after, path) == After(dir, changes, path))
    && (after.Some? && after.value.items == [] ==> after == dir)
  }

  /** Decides one name of a directory, updating the subdirectory below it. */
  method ApplyName(b: Boundary, ghost dir: Option<Chunk>, current: Option<Node>, changes: Changeset, name: Name,
      ghost depth: nat)
    returns (next: Result<Option<Node>>)
    requires Whole(b, dir) && Proper(changes) && forall p :: p in changes ==> |p| <= depth
    requires depth > 0 && current == Current(dir, name)
    ensures next.Ok? ==> Becomes(b, dir, changes, name, next.value) && !BadAt(b, dir, changes, name)
    ensures next.Err? ==>
      if next.error == TooHigh then !Buildable(b, Subdirectory(current), Deeper(changes, name))
        else BadAt(b, dir, changes, name)
    decreases depth, 0
  {
    hide Canonical, Leaves, Lookup, Entry, Bad, Read, BadAt, After, Becomes, Buildable;
    var exact, deeper := Exact(changes, name), Deeper(changes, name);
    ReadBelow(b, dir, name, []);
    var file, sub := FileOf(current), Subdirectory(current);
    if exact == Some(None) && file == None && (sub.Some? || deeper != map[]) {
      TombstoneBad(b, dir, changes, name);
      return Err(Ambiguous);
    }
    file := if exact.Some? then exact.value else file;
    var sub' := sub;
    if deeper != map[] {
      assert Kept(b, sub);
      var applied := ApplyDir(b, sub, deeper, depth - 1);
      if applied.Err? {
        if applied.error != TooHigh {
          BelowAt(b, dir, changes, name);
        }
        return Err(applied.error);
      }
      sub' := applied.value;
    } else {
      NothingBad(b, sub);
    }
    if file.Some? && sub'.Some? {
      NextClashes(b, dir, changes, name, sub', file);
      return Err(Collision);
    }
    next := Ok(if file.Some? then Some(File(file.value)) else if sub'.Some? then Some(Dir(sub'.value)) else None);
    NextReads(b, dir, changes, name, sub', file);
  }

  lemma {:induction false} NothingBad(b: Boundary, dir: Option<Chunk>)
    requires Whole(b, dir)
    ensures !Bad(dir, map[])
    ensures forall path :: Read(dir, path) == After(dir, map[], path)
  {
    forall p, q | Clash(dir, map[], p, q) ensures false
    {
      LookupPrefixFree(dir.value, p, q);
    }
  }

  lemma {:induction false} TombstoneBad(b: Boundary, dir: Option<Chunk>, changes: Changeset, name: Name)
    requires var current := Current(dir, name);
      Exact(changes, name) == Some(None) && FileOf(current) == None
        && (Subdirectory(current).Some? || Deeper(changes, name) != map[])
    ensures BadAt(b, dir, changes, name)
  {
    hide Bad, Current, Deeper;
  }

  /** The file a name holds once its own change is made. */
  function FileAfter(dir: Option<Chunk>, changes: Changeset, name: Name): Option<FileEntry> {
    var exact := Exact(changes, name); if exact.Some? then exact.value else FileOf(Current(dir, name))
  }

  lemma {:induction false} NextClashes(b: Boundary, dir: Option<Chunk>, changes: Changeset, name: Name,
      sub': Option<Chunk>, file: Option<FileEntry>)
    requires Kept(b, sub') && sub'.Some? && file.Some? && file == FileAfter(dir, changes, name)
    requires forall path :: Read(sub', path) == After(Subdirectory(Current(dir, name)), Deeper(changes, name), path)
    ensures BadAt(b, dir, changes, name)
  {
    hide Bad, Current, Deeper, After, Canonical, Read, Subdirectory;
    var q := HoldsFile(b, sub'.value);
    ReadSome(sub'.value, q);
    assert After(Subdirectory(Current(dir, name)), Deeper(changes, name), q).Some?;
  }

  /** A name whose file and subdirectory exclude each other becomes the one it has. */
  lemma {:induction false} NextReads(b: Boundary, dir: Option<Chunk>, changes: Changeset, name: Name,
      sub': Option<Chunk>, file: Option<FileEntry>)
    requires Whole(b, dir) && Kept(b, sub') && file == FileAfter(dir, changes, name)
    requires forall path :: Read(sub', path) == After(Subdirectory(Current(dir, name)), Deeper(changes, name), path)
    requires !(file.Some? && sub'.Some?)
    requires !Bad(Subdirectory(Current(dir, name)), Deeper(changes, name))
    requires var current := Current(dir, name);
      !(Exact(changes, name) == Some(None) && FileOf(current) == None
        && (Subdirectory(current).Some? || Deeper(changes, name) != map[]))
    ensures var next := if file.Some? then Some(File(file.value)) else if sub'.Some? then Some(Dir(sub'.value))
      else None;
      Becomes(b, dir, changes, name, next)
    ensures !BadAt(b, dir, changes, name)
  {
    var sub, deeper := Subdirectory(Current(dir, name)), Deeper(changes, name);
    var next := if file.Some? then Some(File(file.value)) else if sub'.Some? then Some(Dir(sub'.value)) else None;
    hide Bad, Current, Deeper, Canonical, Read;
    ReadBelow(b, dir, name, []);
    assert [name] + [] == [name];
    forall rest ensures Seen(next, rest) == After(dir, changes, [name] + rest)
    {
      if rest != [] {
        AfterBelow(b, dir, changes, name, rest);
        ReadNone(rest);
      }
    }
    forall q | q != [] && file.Some? ensures After(sub, deeper, q) == None
    {
      assert Read(sub', q) == After(sub, deeper, q);
      ReadNone(q);
    }
  }

  /** The edit that files a name's next node. */
  function Filed(name: Name, next: Option<Node>): Option<Item> {
    if next.Some? then Some(Item(name, next.value)) else None
  }

  /** What is planned for the names decided so far, and the edits that makes. */
  ghost predicate Planned(b: Boundary, dir: Option<Chunk>, changes: Changeset, planned: map<Name, Option<Node>>,
      edits: Changes)
  {
    && (forall n :: n in planned ==> Becomes(b, dir, changes, n, planned[n]) && !BadAt(b, dir, changes, n))
    && (forall n :: n in edits ==> n in planned && edits[n] == Filed(n, planned[n]))
    && (forall n :: n in planned && n !in edits ==> planned[n] == Current(dir, n))
  }

  /** The edited items file exactly what is planned. */
  lemma {:induction false} EditedEntry(items: seq<Item>, list: seq<Edit>, edits: Changes, name: Name)
    requires Sorted(items) && EditsSorted(list) && Lists(list, edits) && NamesKept(edits)
    ensures Sorted(Edited(items, list))
    ensures Entry(Edited(items, list), name) ==
      if name in edits then (if edits[name].Some? then Some(edits[name].value.node) else None) else Entry(items, name)
  {
    hide Edited, Less, Sorted, EditsSorted;
    EditedSorted(items, list);
    EntryIs(Edited(items, list), name);
    EntryIs(items, name);
    var wanted := if name in edits then (if edits[name].Some? then Some(edits[name].value.node) else None)
      else Entry(items, name);
    forall node ensures Entry(Edited(items, list), name) == Some(node) <==> wanted == Some(node)
    {
      EditedHolds(items, list, Item(name, node));
      if name in edits {
        var i :| 0 <= i < |list| && list[i].name == name;
        assert Holds(items, list, Item(name, node)) <==> list[i].item == Some(Item(name, node));
      }
    }
    OptionSame(Entry(Edited(items, list), name), wanted);
  }

  lemma {:induction false} OptionSame(a: Option<Node>, c: Option<Node>)
    requires forall node :: a == Some(node) <==> c == Some(node)
    ensures a == c
  {
    if a.Some? {
      assert a == Some(a.value);
    } else if c.Some? {
      assert c == Some(c.value);
    }
  }

  lemma {:induction false} ListedNames(list: seq<Edit>, edits: Changes)
    requires Lists(list, edits) && NamesKept(edits)
    ensures EditsSorted(list)
  {
  }

  ghost function Items(dir: Option<Chunk>): seq<Item> {
    if dir.Some? then Leaves(dir.value) else []
  }

  lemma {:induction false} StoredItems(b: Boundary, dir: Option<Chunk>)
    requires Whole(b, dir)
    ensures Sorted(Items(dir)) && Stored(b, Items(dir), dir)
    ensures forall name :: Entry(Items(dir), name) == Current(dir, name)
    ensures forall x :: x in Items(dir) ==> Sound(b, x.node)
  {
    if dir.Some? {
      NestedLeaves(b, dir.value);
    } else {
      BuildNothing(b);
    }
  }

  /** The rebuilt directory files exactly the edited items. */
  lemma {:induction false} RebuiltCurrent(b: Boundary, items: seq<Item>, after: Option<Chunk>)
    requires Sorted(items) && Build(b, 0, items) == Ok(after)
    requires forall x :: x in items ==> Sound(b, x.node)
    ensures Kept(b, after)
    ensures forall name :: Current(after, name) == Entry(items, name)
  {
    if after.Some? {
      BuiltCanonical(b, items, after.value);
    } else {
      BuildNone(b, items);
    }
  }

  lemma {:induction false} EditedSound(b: Boundary, dir: Option<Chunk>, changes: Changeset, items: seq<Item>,
      list: seq<Edit>, edits: Changes, planned: map<Name, Option<Node>>)
    requires Sorted(items) && EditsSorted(list) && Lists(list, edits)
    requires forall x :: x in items ==> Sound(b, x.node)
    requires Planned(b, dir, changes, planned, edits)
    ensures forall x :: x in Edited(items, list) ==> Sound(b, x.node)
  {
    hide Edited, Less, Sorted, EditsSorted, Sound, Seen, After;
    forall x | x in Edited(items, list) ensures Sound(b, x.node)
    {
      EditedHolds(items, list, x);
    }
  }

  /** Once every changed name is planned and filed, the whole directory reads as changed. */
  lemma {:induction false} PlanApplied(b: Boundary, dir: Option<Chunk>, changes: Changeset,
      planned: map<Name, Option<Node>>, edits: Changes, after: Option<Chunk>)
    requires Whole(b, dir) && Whole(b, after) && Proper(changes)
    requires planned.Keys == Heads(changes) && Planned(b, dir, changes, planned, edits)
    requires forall n :: Current(after, n) == if n in planned then planned[n] else Current(dir, n)
    ensures forall path :: Read(after, path) == After(dir, changes, path)
    ensures !Bad(dir, changes)
  {
    hide Canonical, Leaves, Lookup, Entry, BadAt, Read, Bad, Seen, Current;
    forall path ensures Read(after, path) == After(dir, changes, path)
    {
      if path == [] {
        ReadEmpty(dir);
        ReadEmpty(after);
      } else {
        var n, rest := path[0], path[1..];
        assert path == [n] + rest;
        ReadSeen(b, after, n, rest);
        ReadSeen(b, dir, n, rest);
      }
    }
    forall n | n in Heads(changes) ensures !BadAt(b, dir, changes, n)
    {
    }
    NotBad(b, dir, changes);
  }

  lemma {:induction false} NotBad(b: Boundary, dir: Option<Chunk>, changes: Changeset)
    requires Whole(b, dir) && Proper(changes)
    requires forall n :: n in Heads(changes) ==> !BadAt(b, dir, changes, n)
    ensures !Bad(dir, changes)
  {
    hide Bad, BadAt;
    if Bad(dir, changes) {
      var n := BadIsBadAt(b, dir, changes);
    }
  }

  lemma {:induction false} ReadSeen(b: Boundary, dir: Option<Chunk>, name: Name, rest: Path)
    requires Whole(b, dir)
    ensures Read(dir, [name] + rest) == Seen(Current(dir, name), rest)
  {
    ReadBelow(b, dir, name, rest);
  }

  lemma {:induction false} ReadEmpty(dir: Option<Chunk>)
    ensures Read(dir, []) == None
  {
  }

  method FirstName(names: set<Name>) returns (first: Name)
    requires names != {}
    ensures first in names && forall m :: m in names ==> AtMost(first, m)
  {
    ghost var _ := FirstExists(names);
    first :| first in names && forall m :: m in names ==> AtMost(first, m);
  }

  method FindIn(b: Boundary, dir: Option<Chunk>, name: Name) returns (node: Option<Node>)
    requires Whole(b, dir)
    ensures node == Current(dir, name)
  {
    hide Canonical, Leaves, Entry;
    node := None;
    if dir.Some? {
      node := Find(b, dir.value, name);
    }
  }

  lemma {:induction false} NothingPlanned(b: Boundary, dir: Option<Chunk>, changes: Changeset)
    ensures Planned(b, dir, changes, map[], map[])
  {
    hide Becomes, BadAt, Current;
  }

  lemma {:induction false} PlannedNext(b: Boundary, dir: Option<Chunk>, changes: Changeset,
      planned: map<Name, Option<Node>>, edits: Changes, name: Name, next: Option<Node>)
    requires Planned(b, dir, changes, planned, edits) && name !in planned
    requires Becomes(b, dir, changes, name, next) && !BadAt(b, dir, changes, name)
    ensures Planned(b, dir, changes, planned[name := next], if next == Current(dir, name) then edits
      else edits[name := Filed(name, next)])
  {
    hide Becomes, BadAt, Current, Filed;
  }

  /** Decides every changed name of a directory, in name order. */
  method PlanDir(b: Boundary, dir: Option<Chunk>, changes: Changeset, ghost depth: nat)
    returns (edits: Result<Changes>, ghost planned: map<Name, Option<Node>>)
    requires Whole(b, dir) && Proper(changes) && forall p :: p in changes ==> |p| <= depth
    ensures edits.Ok? ==> planned.Keys == Heads(changes) && Planned(b, dir, changes, planned, edits.value)
    ensures edits.Err? ==> if edits.error == TooHigh then !Buildable(b, dir, changes) else Bad(dir, changes)
    decreases depth, 1
  {
    hide Canonical, Leaves, Lookup, Entry, Bad, Read, BadAt, Becomes, Buildable, Planned, Filed, Heads, Current;
    var rest := Heads(changes);
    var out: Changes := map[];
    planned := map[];
    NothingPlanned(b, dir, changes);
    while rest != {}
      invariant rest <= Heads(changes) && planned.Keys == Heads(changes) - rest
      invariant Planned(b, dir, changes, planned, out)
      decreases |rest|
    {
      var n := FirstName(rest);
      HeadDepth(changes, n, depth);
      var current := FindIn(b, dir, n);
      var next := ApplyName(b, dir, current, changes, n, depth);
      if next.Err? {
        if next.error == TooHigh {
          BuildableBelow(b, dir, changes, n);
        } else {
          BadAtIsBad(b, dir, changes, n);
        }
        return Err(next.error), planned;
      }
      PlannedNext(b, dir, changes, planned, out, n, next.value);
      if next.value != current {
        out := out[n := Filed(n, next.value)];
      }
      planned := planned[n := next.value];
      rest := rest - {n};
    }
    edits := Ok(out);
  }

  lemma {:induction false} PlannedNames(b: Boundary, dir: Option<Chunk>, changes: Changeset,
      planned: map<Name, Option<Node>>, edits: Changes)
    requires Planned(b, dir, changes, planned, edits)
    ensures NamesKept(edits)
  {
    hide Becomes, BadAt;
  }

  /** The updated directory files what is planned, and is canonical. */
  lemma {:induction false} UpdatedDir(b: Boundary, dir: Option<Chunk>, changes: Changeset,
      planned: map<Name, Option<Node>>, edits: Changes, list: seq<Edit>, after: Option<Chunk>)
    requires Whole(b, dir) && Proper(changes)
    requires planned.Keys == Heads(changes) && Planned(b, dir, changes, planned, edits)
    requires EditsSorted(list) && Lists(list, edits) && Build(b, 0, Edited(Items(dir), list)) == Ok(after)
    ensures Kept(b, after)
    ensures forall path :: Read(after, path) == After(dir, changes, path)
    ensures !Bad(dir, changes)
  {
    hide Canonical, Leaves, Lookup, Entry, Bad, Read, BadAt, After, Build, Edited, Sorted, Stored, Less, EditsSorted,
      Lists, Items, Sound, Current, Seen;
    var items := Items(dir);
    StoredItems(b, dir);
    PlannedNames(b, dir, changes, planned, edits);
    EditedSorted(items, list);
    EditedSound(b, dir, changes, items, list, edits, planned);
    RebuiltCurrent(b, Edited(items, list), after);
    forall n ensures Current(after, n) == if n in planned then planned[n] else Current(dir, n)
    {
      EditedEntry(items, list, edits, n);
      assert Current(after, n) == Entry(Edited(items, list), n);
      assert Current(dir, n) == Entry(items, n);
    }
    PlanApplied(b, dir, changes, planned, edits, after);
  }

  /** Applies changes to one directory and everything below it. */
  method ApplyDir(b: Boundary, dir: Option<Chunk>, changes: Changeset, ghost depth: nat)
    returns (after: Result<Option<Chunk>>)
    requires Whole(b, dir) && Proper(changes) && forall p :: p in changes ==> |p| <= depth
    ensures after.Ok? ==> Applied(b, dir, changes, after.value) && !Bad(dir, changes)
    ensures after.Err? ==> if after.error == TooHigh then !Buildable(b, dir, changes) else Bad(dir, changes)
    ensures after.Ok? <==> !Bad(dir, changes) && Buildable(b, dir, changes)
    decreases depth, 2
  {
    hide Buildable, Applied, Canonical, Bad, Read, BadAt, After, Build, Edited, Sorted, Stored, Less, EditsSorted,
      Lists, Items, Current, Planned;
    var edits, planned := PlanDir(b, dir, changes, depth);
    if edits.Err? {
      return Err(edits.error);
    }
    StoredItems(b, dir);
    if edits.value == map[] {
      assert forall n :: Current(dir, n) == if n in planned then planned[n] else Current(dir, n)
        by { UnchangedPlan(b, dir, changes, planned); }
      PlanApplied(b, dir, changes, planned, map[], dir);
      AppliedBuilds(b, dir, changes, dir);
      return Ok(dir);
    }
    var list := Collect(edits.value);
    PlannedNames(b, dir, changes, planned, edits.value);
    ListedNames(list, edits.value);
    after := Update(b, Items(dir), dir, list);
    BuildErrs(b, 0, Edited(Items(dir), list));
    if after.Ok? {
      UpdatedDir(b, dir, changes, planned, edits.value, list, after.value);
      AppliedBuilds(b, dir, changes, after.value);
    } else {
      UnbuiltDir(b, dir, changes, planned, edits.value, list);
    }
  }

  lemma {:induction false} AppliedBuilds(b: Boundary, dir: Option<Chunk>, changes: Changeset, after: Option<Chunk>)
    requires Whole(b, after) && (forall path :: Read(after, path) == After(dir, changes, path))
    requires Kept(b, after) || after == dir
    ensures Applied(b, dir, changes, after) && Buildable(b, dir, changes)
  {
    hide Canonical, Read, After;
    assert ReadsAs(b, after, dir, changes);
  }

  /** A changed directory that can be stored has subdirectories that can. */
  lemma {:induction false} BuildableBelow(b: Boundary, dir: Option<Chunk>, changes: Changeset, name: Name)
    requires Whole(b, dir) && Proper(changes)
    ensures Buildable(b, dir, changes) ==> Buildable(b, Subdirectory(Current(dir, name)), Deeper(changes, name))
  {
    hide ReadsAs, Whole, Deeper, Current;
    if target :| ReadsAs(b, target, dir, changes) {
      TargetBelow(b, dir, changes, name, target);
    }
  }

  lemma {:induction false} TargetBelow(b: Boundary, dir: Option<Chunk>, changes: Changeset, name: Name,
      target: Option<Chunk>)
    requires Whole(b, dir) && Proper(changes) && ReadsAs(b, target, dir, changes)
    ensures ReadsAs(b, Subdirectory(Current(target, name)), Subdirectory(Current(dir, name)), Deeper(changes, name))
  {
    hide Canonical, Read, After, Current, Whole, Deeper;
    var sub, deeper, below :=
      Subdirectory(Current(dir, name)), Deeper(changes, name), Subdirectory(Current(target, name));
    forall path ensures Read(below, path) == After(sub, deeper, path)
    {
      ReadBelow(b, target, name, path);
      if path == [] {
        ReadEmpty(below);
        ReadEmpty(sub);
        NothingHere(sub, deeper);
      } else {
        AfterBelow(b, dir, changes, name, path);
      }
    }
    assert Whole(b, below) by { ReadBelow(b, target, name, []); KeptWhole(b, below); }
  }

  lemma {:induction false} KeptWhole(b: Boundary, dir: Option<Chunk>)
    requires Kept(b, dir)
    ensures Whole(b, dir)
  {
    hide Canonical;
  }

  lemma {:induction false} NothingHere(dir: Option<Chunk>, changes: Changeset)
    requires [] !in changes
    ensures After(dir, changes, []) == None
  {
  }

  /** Sound nodes that hold the same files are the same. */
  lemma {:induction false} SameNode(b: Boundary, one: Option<Node>, two: Option<Node>)
    requires (one.Some? ==> Sound(b, one.value)) && (two.Some? ==> Sound(b, two.value))
    requires forall rest :: Seen(one, rest) == Seen(two, rest)
    ensures one == two
  {
    hide Canonical, Lookup;
    assert Seen(one, []) == Seen(two, []);
    if one.Some? && one.value.Dir? {
      var q := HoldsFile(b, one.value.root);
      assert Seen(one, q) == Seen(two, q);
    }
    if two.Some? && two.value.Dir? {
      var q := HoldsFile(b, two.value.root);
      assert Seen(one, q) == Seen(two, q);
    }
    if one.Some? && one.value.Dir? {
      forall path ensures Lookup(one.value.root, path) == Lookup(two.value.root, path)
      {
        assert Seen(one, path) == Seen(two, path);
        LookupEmpty(one.value.root);
        LookupEmpty(two.value.root);
      }
      SameSnapshotSameRoot(b, one.value.root, two.value.root);
    }
  }

  /** What is planned for a name is what any directory that reads as changed holds there. */
  lemma {:induction false} PlannedTarget(b: Boundary, dir: Option<Chunk>, changes: Changeset,
      planned: map<Name, Option<Node>>, edits: Changes, target: Option<Chunk>, name: Name)
    requires Whole(b, dir) && Proper(changes) && ReadsAs(b, target, dir, changes)
    requires planned.Keys == Heads(changes) && Planned(b, dir, changes, planned, edits)
    ensures Current(target, name) == if name in planned then planned[name] else Current(dir, name)
  {
    hide Canonical, Leaves, Lookup, Entry, BadAt, Read, Seen, Current, Sound;
    var next := if name in planned then planned[name] else Current(dir, name);
    CurrentSound(b, dir, name);
    CurrentSound(b, target, name);
    forall rest ensures Seen(Current(target, name), rest) == Seen(next, rest)
    {
      ReadSeen(b, target, name, rest);
      ReadSeen(b, dir, name, rest);
      if name !in planned {
        NotChanged(changes, name, rest);
      }
    }
    SameNode(b, Current(target, name), next);
  }

  lemma {:induction false} NotChanged(changes: Changeset, name: Name, rest: Path)
    requires name !in Heads(changes)
    ensures [name] + rest !in changes
  {
    assert ([name] + rest)[0] == name;
  }

  lemma {:induction false} CurrentSound(b: Boundary, dir: Option<Chunk>, name: Name)
    requires Whole(b, dir)
    ensures Current(dir, name).Some? ==> Sound(b, Current(dir, name).value)
  {
    hide Canonical, Leaves;
    if dir.Some? {
      CanonicalParts(b, dir.value);
      NestedLeaves(b, dir.value);
      EntryIs(Leaves(dir.value), name);
      var node := Entry(Leaves(dir.value), name);
      assert node.Some? ==> Item(name, node.value) in Leaves(dir.value);
    }
  }

  /** When the planned items do not build, no directory reads as changed. */
  lemma {:induction false} UnbuiltDir(b: Boundary, dir: Option<Chunk>, changes: Changeset,
      planned: map<Name, Option<Node>>, edits: Changes, list: seq<Edit>)
    requires Whole(b, dir) && Proper(changes)
    requires planned.Keys == Heads(changes) && Planned(b, dir, changes, planned, edits)
    requires EditsSorted(list) && Lists(list, edits) && Build(b, 0, Edited(Items(dir), list)).Err?
    ensures !Buildable(b, dir, changes)
  {
    hide Canonical, Leaves, Lookup, Entry, Read, BadAt, After, Build, Edited, Sorted, Less, EditsSorted, Lists, Items,
      Current, Seen;
    if target :| ReadsAs(b, target, dir, changes) {
      var items := Edited(Items(dir), list);
      StoredItems(b, dir);
      StoredItems(b, target);
      PlannedNames(b, dir, changes, planned, edits);
      EditedSorted(Items(dir), list);
      forall name ensures Entry(items, name) == Entry(Items(target), name)
      {
        EditedEntry(Items(dir), list, edits, name);
        PlannedTarget(b, dir, changes, planned, edits, target, name);
      }
      SameItems(items, Items(target));
      BuildNothing(b);
    }
  }

  lemma {:induction false} SameItems(a: seq<Item>, c: seq<Item>)
    requires Sorted(a) && Sorted(c) && forall name :: Entry(a, name) == Entry(c, name)
    ensures a == c
  {
    hide Sorted;
    forall x ensures x in a <==> x in c
    {
      EntryIs(a, x.name);
      EntryIs(c, x.name);
      assert x == Item(x.name, x.node);
    }
    SortedUnique(a, c);
  }

  lemma {:induction false} UnchangedPlan(b: Boundary, dir: Option<Chunk>, changes: Changeset,
      planned: map<Name, Option<Node>>)
    requires Planned(b, dir, changes, planned, map[])
    ensures forall n :: n in planned ==> planned[n] == Current(dir, n)
  {
    hide Becomes, BadAt, Current;
  }

  lemma {:induction false} BuildErrs(b: Boundary, level: nat, items: seq<Item>)
    ensures Build(b, level, items).Err? ==> Build(b, level, items).error == TooHigh
    decreases MAX_LEVEL + 1 - level
  {
    hide Cut;
    if level <= MAX_LEVEL {
      BuildErrs(b, level + 1, Summaries(Cut(b, level, items)));
    }
  }

  lemma {:induction false} HeadDepth(changes: Changeset, n: Name, depth: nat)
    requires n in Heads(changes) && forall p :: p in changes ==> |p| <= depth
    ensures depth > 0
  {
  }

  /**
   The root after applying changes. Whatever root is canonical for the changed snapshot is the
   root returned, so a snapshot has one root whatever the order of the edits that led to it.
   */
  method ApplyTree(b: Boundary, root: Chunk, changes: Changeset, ghost depth: nat) returns (after: Result<Chunk>)
    requires Canonical(b, root) && Proper(changes) && forall p :: p in changes ==> |p| <= depth
    ensures after.Ok? ==>
      && Canonical(b, after.value)
      && (forall path :: Lookup(after.value, path) == After(Some(root), changes, path))
      && (forall other ::
            Canonical(b, other) && (forall path :: Lookup(other, path) == After(Some(root), changes, path)) ==>
              other == after.value)
      && !Bad(Some(root), changes)
    ensures after.Err? ==>
      if after.error == TooHigh then !Buildable(b, Some(root), changes) else Bad(Some(root), changes)
    ensures after.Ok? <==> !Bad(Some(root), changes) && Buildable(b, Some(root), changes)
  {
    hide Leaves, Canonical, Lookup, Bad, Buildable;
    var dir := ApplyDir(b, Some(root), changes, depth);
    if dir.Err? {
      return Err(dir.error);
    }
    after := Ok(if dir.value.Some? then dir.value.value else EMPTY);
    assert Canonical(b, EMPTY) by { EmptyCanonical(b); }
    forall path ensures Lookup(after.value, path) == After(Some(root), changes, path)
    {
      assert Read(dir.value, path) == After(Some(root), changes, path);
      EmptyReads(path);
    }
    forall other | Canonical(b, other) && (forall path :: Lookup(other, path) == After(Some(root), changes, path))
      ensures other == after.value
    {
      SameSnapshotSameRoot(b, other, after.value);
    }
  }

  lemma {:induction false} EmptyCanonical(b: Boundary)
    ensures Canonical(b, EMPTY)
  {
  }

  lemma {:induction false} EmptyReads(path: Path)
    ensures Lookup(EMPTY, path) == None
  {
  }
}
