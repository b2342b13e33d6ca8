/**
 Snapshot trees as maps (src/tree.rs, src/publish.rs, src/repository.rs): composing a changeset
 onto a moved World, and accepting a received root.
 */
module Snapshots {
  import opened Names
  import opened Chunks
  import opened Levels
  import opened Updating
  import opened Directories
  import opened Apply
  import opened Diff
  import opened Intersecting
  import opened Domain

  /** The tree holds exactly these files. */
  ghost predicate Holding(root: Chunk, files: Snapshot) {
    forall p :: Lookup(root, p) == EntryAt(files, p)
  }

  lemma {:induction false} DeepestPath(paths: set<Path>) returns (depth: nat)
    ensures forall p :: p in paths ==> |p| <= depth
  {
    depth := 0;
    var rest := paths;
    while rest != {}
      invariant rest <= paths
      invariant forall p :: p in paths && p !in rest ==> |p| <= depth
      decreases |rest|
    {
      var p :| p in rest;
      depth := if |p| > depth then |p| else depth;
      rest := rest - {p};
    }
  }

  /** A snapshot holds no file above another. */
  lemma {:induction false} HoldingPrefixFree(root: Chunk, files: Snapshot)
    requires Holding(root, files)
    ensures PrefixFree(files)
  {
    hide Lookup;
    LookupEmpty(root);
    assert EntryAt(files, []) == None;
    forall p, q | p in files && q in files && p < q ensures false
    {
      assert EntryAt(files, p).Some? && EntryAt(files, q).Some?;
      LookupPrefixFree(root, p, q);
    }
  }

  lemma {:induction false} CanonicalRefined(b: Boundary, root: Chunk)
    requires Canonical(b, root)
    ensures ShapedDir(Some(root)) && OrderedDir(Some(root)) && Whole(b, Some(root))
  {
    CanonicalShaped(b, root);
    CanonicalOrdered(b, root);
  }

  /** Every file of a snapshot, by path. */
  method Files(b: Boundary, root: Chunk) returns (files: Snapshot)
    requires Canonical(b, root)
    ensures Holding(root, files) && PrefixFree(files)
  {
    hide Lookup, Canonical, Shaped, Ordered, Read;
    EmptyCanonical(b);
    CanonicalRefined(b, EMPTY);
    CanonicalRefined(b, root);
    var all := DiffDir(Some(EMPTY), Some(root));
    files := map p | p in all && all[p].Some? :: all[p].value;
    forall p ensures Lookup(root, p) == EntryAt(files, p)
    {
      EmptyReads(p);
      ReadSome(EMPTY, p);
      ReadSome(root, p);
    }
    HoldingPrefixFree(root, files);
  }

  /** The trees' differences are the maps' differences. */
  lemma {:induction false} DiffersMaps(from: Chunk, to: Chunk, before: Snapshot, after: Snapshot, out: Changeset)
    requires Holding(from, before) && Holding(to, after) && Differs(Some(from), Some(to), out)
    ensures out == Differences(before, after)
  {
    hide Lookup;
    forall p ensures Read(Some(from), p) == EntryAt(before, p) && Read(Some(to), p) == EntryAt(after, p)
    {
    }
    hide Read;
    assert forall p :: p in out <==> p in Differences(before, after);
  }

  /** The difference between two canonical roots is the pointwise difference of their snapshots. */
  method TreeDifference(b: Boundary, from: Chunk, to: Chunk, ghost before: Snapshot, ghost after: Snapshot)
    returns (changes: Changeset)
    requires Canonical(b, from) && Canonical(b, to) && Holding(from, before) && Holding(to, after)
    ensures changes == Differences(before, after) && Proper(changes)
  {
    hide Lookup, Canonical, Shaped, Ordered, Holding, Differs, Differences;
    CanonicalRefined(b, from);
    CanonicalRefined(b, to);
    changes := DiffDir(Some(from), Some(to));
    DiffersMaps(from, to, before, after, changes);
  }

  /** A changeset normalized against a snapshot is never refused by its tree. */
  lemma {:induction false} NormalizedApplies(root: Chunk, files: Snapshot, changes: Changeset)
    requires Holding(root, files) && Normalized(files, changes)
    ensures [] !in changes ==> Proper(changes) && !Bad(Some(root), changes)
  {
    hide Lookup;
    var child := Changed(files, changes);
    forall p ensures After(Some(root), changes, p) == EntryAt(child, p)
    {
    }
    forall p, q ensures !Clash(Some(root), changes, p, q)
    {
      assert EntryAt(child, p) == After(Some(root), changes, p) && EntryAt(child, q) == After(Some(root), changes, q);
    }
    forall p ensures !Ambiguity(Some(root), changes, p)
    {
      assert Read(Some(root), p) == EntryAt(files, p);
    }
  }

  lemma {:induction false} HoldingChanged(root: Chunk, after: Chunk, files: Snapshot, changes: Changeset)
    requires Holding(root, files) && forall p :: Lookup(after, p) == After(Some(root), changes, p)
    ensures Holding(after, Changed(files, changes))
  {
    hide Lookup;
    forall p ensures Lookup(after, p) == EntryAt(Changed(files, changes), p)
    {
      ReadSome(root, p);
    }
  }

  /** Roots that hold the same files are the same. */
  lemma {:induction false} SameFilesSameRoot(b: Boundary, one: Chunk, two: Chunk, files: Snapshot)
    requires Canonical(b, one) && Canonical(b, two) && Holding(one, files) && Holding(two, files)
    ensures one == two
  {
    hide Lookup, Canonical;
    forall p ensures Lookup(one, p) == Lookup(two, p)
    {
      assert Lookup(one, p) == EntryAt(files, p) && Lookup(two, p) == EntryAt(files, p);
    }
    SameSnapshotSameRoot(b, one, two);
  }

  // ----------------------------------------------------------------------- diff and apply

  /** Some canonical root holds these files: each of their directories fits the levels there are. */
  ghost predicate Storable(b: Boundary, files: Snapshot) {
    exists root :: Canonical(b, root) && Holding(root, files)
  }

  /** A tree's changed directory can be built exactly when its changed files can be stored. */
  lemma {:induction false} StorableBuilds(b: Boundary, root: Chunk, files: Snapshot, changes: Changeset)
    requires Holding(root, files)
    ensures Buildable(b, Some(root), changes) <==> Storable(b, Changed(files, changes))
  {
    hide Lookup, Canonical, Changed;
    var child := Changed(files, changes);
    forall p ensures After(Some(root), changes, p) == EntryAt(child, p)
    {
      ReadSome(root, p);
      assert Lookup(root, p) == EntryAt(files, p);
      ChangedAt(files, changes, p);
    }
    if target :| ReadsAs(b, target, Some(root), changes) {
      var stored := if target.Some? then target.value else EMPTY;
      EmptyCanonical(b);
      forall p ensures Lookup(stored, p) == EntryAt(child, p)
      {
        assert Read(target, p) == After(Some(root), changes, p);
        EmptyReads(p);
      }
      assert Holding(stored, child);
    }
    if stored :| Canonical(b, stored) && Holding(stored, child) {
      forall p ensures Read(Some(stored), p) == After(Some(root), changes, p)
      {
        ReadSome(stored, p);
        assert Lookup(stored, p) == EntryAt(child, p);
      }
      assert ReadsAs(b, Some(stored), Some(root), changes);
    }
  }

  lemma {:induction false} ChangedAt(files: Snapshot, changes: Changeset, p: Path)
    ensures EntryAt(Changed(files, changes), p) == if p in changes then changes[p] else EntryAt(files, p)
  {
  }

  /** Applying a normalized changeset gives the root of the child snapshot, whenever it has one. */
  method TreeChanged(b: Boundary, root: Chunk, changes: Changeset, ghost files: Snapshot) returns (after: Result<Chunk>)
    requires Canonical(b, root) && Holding(root, files) && Normalized(files, changes) && [] !in changes
    ensures after.Ok? ==> Canonical(b, after.value) && Holding(after.value, Changed(files, changes))
    ensures after.Ok? <==> Storable(b, Changed(files, changes))
    ensures after.Err? ==> after.error == TooHigh
  {
    hide Lookup, Canonical, Holding, Normalized, Bad, Buildable, Storable;
    StorableBuilds(b, root, files, changes);
    NormalizedApplies(root, files, changes);
    ghost var depth := DeepestPath(changes.Keys);
    after := ApplyTree(b, root, changes, depth);
    if after.Ok? {
      HoldingChanged(root, after.value, files, changes);
    }
  }

  /** Applying the difference between two roots to the first gives the second. */
  method Reapply(b: Boundary, from: Chunk, to: Chunk) returns (after: Result<Chunk>)
    requires Canonical(b, from) && Canonical(b, to)
    ensures after == Ok(to)
  {
    hide Lookup, Canonical, Holding, Normalized, Differences, Changed, PrefixFree;
    var before := Files(b, from);
    var target := Files(b, to);
    var changes := TreeDifference(b, from, to, before, target);
    DifferenceArrives(before, target);
    assert Normalized(before, changes) by { DifferenceIsNormalized(before, target); }
    assert Storable(b, target);
    after := TreeChanged(b, from, changes, before);
    SameFilesSameRoot(b, after.value, to, target);
  }

  lemma {:induction false} DifferenceIsNormalized(before: Snapshot, after: Snapshot)
    requires PrefixFree(after)
    ensures Normalized(before, Differences(before, after))
  {
    DifferenceArrives(before, after);
  }

  /** Diffing what a normalized changeset produced gives the changeset back, whenever the result has a root. */
  method Rediscover(b: Boundary, root: Chunk, changes: Changeset, ghost files: Snapshot)
    returns (found: Option<Changeset>)
    requires Canonical(b, root) && Holding(root, files) && Normalized(files, changes) && [] !in changes
    ensures found.Some? <==> Storable(b, Changed(files, changes))
    ensures found.Some? ==> found.value == changes
  {
    hide Lookup, Canonical, Holding, Normalized, Differences, Changed, PrefixFree, Storable;
    var after := TreeChanged(b, root, changes, files);
    if after.Err? {
      return None;
    }
    var again := TreeDifference(b, root, after.value, files, Changed(files, changes));
    NormalizedStays(files, changes);
    return Some(again);
  }

  // ------------------------------------------------------------------------- composing

  datatype Composed = Candidate(tree: Chunk) | Conflict(paths: set<Path>) | Oversized

  lemma {:induction false} TouchedTrees(base: Chunk, head: Chunk, before: Snapshot, after: Snapshot, paths: set<Path>,
      found: set<Path>)
    requires Holding(base, before) && Holding(head, after)
    requires forall x :: x in found <==>
      || (x in paths && exists q :: Related(x, q) && Lookup(base, q) != Lookup(head, q))
      || (Lookup(base, x) != Lookup(head, x) && exists p :: p in paths && Related(x, p))
    ensures found == Touched(before, after, paths)
  {
    hide Lookup, Related;
    forall x ensures Touches(before, after, paths, x) <==> x in found
    {
      assert Lookup(base, x) == EntryAt(before, x) && Lookup(head, x) == EntryAt(after, x);
    }
  }

  /**
   Composes a Layer's changeset, normalized against its base, onto the World head. It is a conflict
   exactly when a changed path touches a difference between base and head, and otherwise the
   candidate holds the head's files with the Layer's changes made.
   */
  method Compose(b: Boundary, base: Chunk, head: Chunk, changes: Changeset, ghost before: Snapshot,
      ghost after: Snapshot)
    returns (r: Composed)
    requires Canonical(b, base) && Canonical(b, head) && Holding(base, before) && Holding(head, after)
    requires Normalized(before, changes) && [] !in changes
    ensures r.Conflict? <==> Touched(before, after, changes.Keys) != {}
    ensures r.Conflict? ==> r.paths == Touched(before, after, changes.Keys)
    ensures r.Candidate? <==> Touched(before, after, changes.Keys) == {} && Storable(b, Changed(after, changes))
    ensures r.Candidate? ==>
      && Canonical(b, r.tree) && Holding(r.tree, Changed(after, changes)) && PrefixFree(Changed(after, changes))
      && Differences(after, Changed(after, changes)) == changes
  {
    hide Lookup, Canonical, Holding, Normalized, Differences, Changed, PrefixFree, Touched, Related, Storable;
    ghost var depth := DeepestPath(changes.Keys);
    var found := Intersections(b, base, head, changes.Keys, depth);
    TouchedTrees(base, head, before, after, changes.Keys, found);
    if found != {} {
      return Conflict(found);
    }
    HoldingPrefixFree(head, after);
    RebaseSafe(before, after, changes);
    HoldsNormalized(after, changes);
    var tree := TreeChanged(b, head, changes, after);
    return if tree.Ok? then Candidate(tree.value) else Oversized;
  }

  lemma {:induction false} HoldsNormalized(files: Snapshot, changes: Changeset)
    requires Normalized(files, changes)
    ensures PrefixFree(Changed(files, changes))
  {
  }

  /**
   Accepts a received root exactly when it is canonical: its difference from the base, applied to the base, must
   give it back.
   */
  method AcceptRoot(b: Boundary, base: Chunk, received: Chunk) returns (r: Result<Changeset>)
    requires Canonical(b, base) && Shaped(received)
    ensures r.Ok? <==> Canonical(b, received)
    ensures r.Ok? ==> forall p :: p in r.value <==> Lookup(base, p) != Lookup(received, p)
  {
    hide Lookup, Canonical, Shaped, Ordered, Holding, Bad, Read, Differs, Buildable;
    CanonicalRefined(b, base);
    var changes := DiffDir(Some(base), Some(received));
    ghost var depth := DeepestPath(changes.Keys);
    var again := ApplyTree(b, base, changes, depth);
    if Canonical(b, received) {
      CanonicalRefined(b, received);
      CanonicalGood(b, base, received, changes);
    }
    if again.Err? {
      return Err(again.error);
    }
    if again.value != received {
      return Err(Ambiguous);
    }
    CanonicalRefined(b, received);
    DiffersLookups(base, received, changes);
    return Ok(changes);
  }

  lemma {:induction false} DiffersLookups(from: Chunk, to: Chunk, changes: Changeset)
    requires Differs(Some(from), Some(to), changes)
    ensures forall p :: p in changes <==> Lookup(from, p) != Lookup(to, p)
  {
    hide Lookup;
    assert forall p :: Read(Some(from), p) == Lookup(from, p) && Read(Some(to), p) == Lookup(to, p);
  }

  lemma {:induction false} CanonicalGood(b: Boundary, base: Chunk, received: Chunk, changes: Changeset)
    requires Differs(Some(base), Some(received), changes)
    ensures !Bad(Some(base), changes)
    ensures forall p :: Lookup(received, p) == After(Some(base), changes, p)
    ensures Canonical(b, received) ==> Buildable(b, Some(base), changes)
  {
    hide Lookup, Canonical;
    forall p ensures Lookup(received, p) == After(Some(base), changes, p)
    {
      ReadSome(received, p);
    }
    forall p, q | Clash(Some(base), changes, p, q) ensures false
    {
      LookupPrefixFree(received, p, q);
    }
    forall p | Ambiguity(Some(base), changes, p) ensures false
    {
    }
    if Canonical(b, received) {
      assert ReadsAs(b, Some(received), Some(base), changes);
    }
  }

  // ------------------------------------------------------------------------ what can be stored

  /** The files strictly below a name, relative to it. */
  function FilesBelow(files: Snapshot, name: Name): (below: Snapshot)
    ensures forall q :: EntryAt(below, q) == if q == [] then None else EntryAt(files, [name] + q)
  {
    map q | q in PathsBelow(files.Keys, name) :: files[[name] + q]
  }

  function FirstNames(files: Snapshot): set<Name> {
    set p | p in files && p != [] :: p[0]
  }

  lemma {:induction false} ImageFits<S, T>(from: set<S>, to: set<T>, f: S -> T)
    requires forall t :: t in to ==> exists s :: s in from && f(s) == t
    ensures |to| <= |from|
    decreases |to|
  {
    if t :| t in to {
      var s :| s in from && f(s) == t;
      var from' := from - {s};
      forall u | u in to - {t} ensures exists r :: r in from' && f(r) == u
      {
        var r :| r in from && f(r) == u;
        assert r in from';
      }
      ImageFits(from', to - {t}, f);
    }
  }

  lemma {:induction false} BelowFits(files: Snapshot, name: Name)
    requires PrefixFree(files)
    ensures PrefixFree(FilesBelow(files, name)) && |FilesBelow(files, name)| <= |files|
    ensures forall q :: q in FilesBelow(files, name) <==> q != [] && [name] + q in files
  {
    var below := FilesBelow(files, name);
    assert forall q :: q in below <==> EntryAt(below, q).Some?;
    forall p, q | p in below && q in below ensures !(p < q)
    {
      assert p < q ==> [name] + p < [name] + q;
    }
    ImageFits(files.Keys, below.Keys, (p: Path) => if p == [] then [] else p[1..]) by {
      forall q | q in below.Keys ensures exists p :: p in files.Keys && (if p == [] then [] else p[1..]) == q
      {
        assert [name] + q in files.Keys && ([name] + q)[1..] == q;
      }
    }
    assert |files.Keys| == |files| && |below.Keys| == |below|;
  }

  /** A node holding exactly the files at and below a name. */
  ghost predicate HoldsName(b: Boundary, files: Snapshot, name: Name, node: Node) {
    Sound(b, node) && forall rest :: Seen(Some(node), rest) == EntryAt(files, [name] + rest)
  }

  /** Every snapshot of up to 2^33 files has a canonical root, so no changeset that leads to it is refused. */
  lemma {:induction false} SnapshotStores(b: Boundary, files: Snapshot, depth: nat) returns (root: Chunk)
    requires PrefixFree(files) && |files| <= 0x2_0000_0000 && forall p :: p in files ==> |p| <= depth
    ensures Canonical(b, root) && Holding(root, files) && (root.items == [] ==> files == map[])
    decreases depth, 2
  {
    if files == map[] {
      root := EMPTY;
      EmptyCanonical(b);
      forall p ensures Lookup(root, p) == EntryAt(files, p)
      {
        EmptyReads(p);
      }
    } else {
      hide PrefixFree, Lookup, Canonical, HoldsName, Build, Leaves, Entry, Sorted;
      var items := StoreNames(b, files, FirstNames(files), depth);
      NamesFit(files);
      LargestDirectory(b, items);
      assert items != [] by { SomeName(files); }
      BuildSome(b, items);
      root := Build(b, 0, items).value.value;
      BuiltCanonical(b, items, root) by { NodesSound(b, files, items); }
      forall p ensures Lookup(root, p) == EntryAt(files, p)
      {
        StoredReads(b, files, items, root, p);
      }
    }
  }

  lemma {:induction false} SomeName(files: Snapshot)
    requires PrefixFree(files) && files != map[]
    ensures FirstNames(files) != {}
  {
    var p :| p in files;
    assert p[0] in FirstNames(files);
  }

  lemma {:induction false} NamesFit(files: Snapshot)
    ensures |FirstNames(files)| <= |files|
  {
    ImageFits(files.Keys, FirstNames(files), (p: Path) => if p == [] then [] else p[0]);
    assert |files.Keys| == |files|;
  }

  lemma {:induction false} BuildSome(b: Boundary, items: seq<Item>)
    requires items != [] && Build(b, 0, items).Ok?
    ensures Build(b, 0, items).value.Some?
  {
    hide Build;
    if Build(b, 0, items).value.None? {
      BuildNone(b, items);
    }
  }

  lemma {:induction false} NodesSound(b: Boundary, files: Snapshot, items: seq<Item>)
    requires forall x :: x in items ==> HoldsName(b, files, x.name, x.node)
    ensures forall x :: x in items ==> Sound(b, x.node)
  {
    hide Sound, Seen;
  }

  /** One item for every first name, in order. */
  lemma {:induction false} StoreNames(b: Boundary, files: Snapshot, names: set<Name>, depth: nat)
    returns (items: seq<Item>)
    requires PrefixFree(files) && |files| <= 0x2_0000_0000 && forall p :: p in files ==> |p| <= depth
    requires names <= FirstNames(files)
    ensures Sorted(items) && |items| == |names|
    ensures forall x :: x in items ==> x.name in names && HoldsName(b, files, x.name, x.node)
    ensures forall n :: n in names ==> exists x :: x in items && x.name == n
    decreases depth, 1, |names|
  {
    hide PrefixFree, HoldsName, FirstNames, Less;
    items := [];
    if names != {} {
      var first := FirstExists(names);
      var node := StoreName(b, files, first, depth);
      var rest := StoreNames(b, files, names - {first}, depth);
      var item := Item(first, node);
      items := [item] + rest;
      FirstSorted(item, rest, names);
      forall n | n in names ensures exists x :: x in items && x.name == n
      {
        if n == first {
          assert item in items;
        } else {
          assert n in names - {first};
          var x :| x in rest && x.name == n;
          assert x in items;
        }
      }
    }
  }

  lemma {:induction false} FirstSorted(item: Item, rest: seq<Item>, names: set<Name>)
    requires Sorted(rest) && (forall m :: m in names ==> AtMost(item.name, m))
    requires forall x :: x in rest ==> x.name in names - {item.name}
    ensures Sorted([item] + rest)
  {
    ByteOrder();
    var all := [item] + rest;
    forall i, j | 0 <= i < j < |all| ensures Less(all[i].name, all[j].name)
    {
      assert all[j] == rest[j - 1] && rest[j - 1] in rest;
      if i > 0 {
        assert all[i] == rest[i - 1];
      }
    }
  }

  lemma {:induction false} StoreName(b: Boundary, files: Snapshot, name: Name, depth: nat) returns (node: Node)
    requires PrefixFree(files) && |files| <= 0x2_0000_0000 && forall p :: p in files ==> |p| <= depth
    requires name in FirstNames(files)
    ensures HoldsName(b, files, name, node)
    decreases depth, 0
  {
    hide PrefixFree, Lookup, Canonical;
    var p :| p in files && p != [] && p[0] == name;
    if [name] in files {
      node := File(files[[name]]);
      forall rest ensures Seen(Some(node), rest) == EntryAt(files, [name] + rest)
      {
        AloneBelow(files, name, rest);
      }
    } else {
      hide EntryAt, FilesBelow, Sound, Seen;
      BelowFits(files, name);
      assert p == [name] + p[1..];
      assert p[1..] == [] ==> p == [name];
      assert p[1..] in FilesBelow(files, name);
      var root := SnapshotStores(b, FilesBelow(files, name), depth - 1);
      node := Dir(root);
      HoldsBelow(b, files, name, root);
    }
  }

  lemma {:induction false} HoldsBelow(b: Boundary, files: Snapshot, name: Name, root: Chunk)
    requires [name] !in files && Canonical(b, root) && root.items != [] && Holding(root, FilesBelow(files, name))
    ensures HoldsName(b, files, name, Dir(root))
  {
    hide Lookup, Canonical, FilesBelow;
    assert [name] + [] == [name];
    forall rest ensures Seen(Some(Dir(root)), rest) == EntryAt(files, [name] + rest)
    {
      assert Lookup(root, rest) == EntryAt(FilesBelow(files, name), rest);
    }
  }

  lemma {:induction false} AloneBelow(files: Snapshot, name: Name, rest: Path)
    requires PrefixFree(files) && [name] in files
    ensures EntryAt(files, [name] + rest) == if rest == [] then Some(files[[name]]) else None
  {
    assert rest == [] ==> [name] + rest == [name];
    assert rest != [] ==> [name] < [name] + rest;
  }

  lemma {:induction false} StoredReads(b: Boundary, files: Snapshot, items: seq<Item>, root: Chunk, p: Path)
    requires PrefixFree(files) && Canonical(b, root) && Leaves(root) == items && Sorted(items)
    requires forall x :: x in items ==> HoldsName(b, files, x.name, x.node)
    requires forall n :: n in FirstNames(files) ==> exists x :: x in items && x.name == n
    ensures Lookup(root, p) == EntryAt(files, p)
  {
    hide Lookup, Canonical, Leaves, Entry, Sorted, Sound, Seen;
    if p == [] {
      LookupEmpty(root);
      NoEmptyPath(files);
    } else {
      var name, rest := p[0], p[1..];
      assert p == [name] + rest;
      EntryIs(items, name);
      ReadSeen(b, Some(root), name, rest);
      ReadSome(root, p);
      if p in files {
        assert name in FirstNames(files);
        var x :| x in items && x.name == name;
        assert x == Item(name, x.node);
      }
      if Entry(items, name).Some? {
        var node := Entry(items, name).value;
        assert Item(name, node) in items;
      } else {
        SeenNothing(rest);
      }
    }
  }

  lemma {:induction false} NoEmptyPath(files: Snapshot)
    requires PrefixFree(files)
    ensures EntryAt(files, []) == None
  {
  }

  lemma {:induction false} SeenNothing(rest: Path)
    ensures Seen(None, rest) == None
  {
  }

  /** A normalized changeset that leads to a snapshot of up to 2^33 files is always applied. */
  lemma {:induction false} ChangedStores(b: Boundary, files: Snapshot, changes: Changeset)
    requires Normalized(files, changes) && |Changed(files, changes)| <= 0x2_0000_0000
    ensures Storable(b, Changed(files, changes))
  {
    hide Canonical, Lookup, Changed;
    var child := Changed(files, changes);
    HoldsNormalized(files, changes);
    var depth := DeepestPath(child.Keys);
    var root := SnapshotStores(b, child, depth);
  }
}
