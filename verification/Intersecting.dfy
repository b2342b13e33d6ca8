/**
 Intersections of a change set with the differences between two snapshots (src/tree.rs). The walk
 skips every subtree that is equal on both sides, and still finds every endpoint.
 */
module Intersecting {
  import opened Names
  import opened Chunks
  import opened Directories
  import opened Apply
  import opened Diff

  /** Equal paths, or one above the other. */
  predicate Related(p: Path, q: Path) {
    p <= q || q <= p
  }

  ghost predicate Differ(base: Option<Chunk>, head: Option<Chunk>, q: Path) {
    Read(base, q) != Read(head, q)
  }

  /** A changed path with a related difference, or a difference with a related changed path. */
  ghost predicate Endpoint(base: Option<Chunk>, head: Option<Chunk>, paths: set<Path>, x: Path) {
    || (x in paths && exists q :: Related(x, q) && Differ(base, head, q))
    || (Differ(base, head, x) && exists p :: p in paths && Related(x, p))
  }

  function FirstNames(paths: set<Path>): set<Name> {
    set p | p in paths && p != [] :: p[0]
  }

  /** Paths relative to a name, in full. */
  function Prefixed(name: Name, paths: set<Path>): (full: set<Path>)
    ensures forall p :: p in full <==> p != [] && p[0] == name && p[1..] in paths
  {
    var full := set q | q in paths :: [name] + q;
    assert forall p :: p in full <==> p != [] && p[0] == name && p[1..] in paths by {
      forall p ensures p in full <==> p != [] && p[0] == name && p[1..] in paths
      {
        if p in full {
          var q :| q in paths && p == [name] + q;
          assert p[1..] == q;
        }
        if p != [] && p[0] == name && p[1..] in paths {
          assert p == [name] + p[1..];
        }
      }
    }
    full
  }

  // --------------------------------------------------------------------------- one name

  lemma {:induction false} DifferBelow(b: Boundary, base: Option<Chunk>, head: Option<Chunk>, name: Name, rest: Path)
    requires Whole(b, base) && Whole(b, head)
    ensures Differ(base, head, [name] + rest) <==> Seen(Current(base, name), rest) != Seen(Current(head, name), rest)
  {
    ReadSeen(b, base, name, rest);
    ReadSeen(b, head, name, rest);
  }

  /** Nothing differs at the empty path, so related differences share a first name. */
  lemma {:induction false} DifferHead(base: Option<Chunk>, head: Option<Chunk>, name: Name, rest: Path, q: Path)
    requires Differ(base, head, q) && Related([name] + rest, q)
    ensures q == [name] + q[1..]
  {
    ReadEmpty(base);
    ReadEmpty(head);
  }

  /** The entry of a name decides whether the name itself is an endpoint. */
  ghost predicate NameEndpoint(before: Option<Node>, after: Option<Node>, exact: bool, deeper: set<Path>) {
    || (exact && exists q :: Seen(before, q) != Seen(after, q))
    || (FileOf(before) != FileOf(after) && (exact || deeper != {}))
  }

  /** What decides whether a path strictly below a name is an endpoint. */
  ghost predicate BelowEndpoint(before: Option<Node>, after: Option<Node>, exact: bool, deeper: set<Path>, rest: Path) {
    || (rest in deeper && FileOf(before) != FileOf(after))
    || (exact && Differ(Subdirectory(before), Subdirectory(after), rest))
    || Endpoint(Subdirectory(before), Subdirectory(after), deeper, rest)
  }

  lemma {:induction false} EndpointHere(b: Boundary, base: Option<Chunk>, head: Option<Chunk>, paths: set<Path>,
      name: Name)
    requires Whole(b, base) && Whole(b, head) && [] !in paths
    ensures Endpoint(base, head, paths, [name]) <==>
      NameEndpoint(Current(base, name), Current(head, name), [name] in paths, PathsBelow(paths, name))
  {
    hide Differ, Current, PathsBelow, Subdirectory, Whole;
    var before, after, deeper := Current(base, name), Current(head, name), PathsBelow(paths, name);
    DifferBelow(b, base, head, name, []);
    assert [name] + [] == [name];
    if q :| Related([name], q) && Differ(base, head, q) {
      DifferHead(base, head, name, [], q);
      DifferBelow(b, base, head, name, q[1..]);
    }
    if q :| Seen(before, q) != Seen(after, q) {
      DifferBelow(b, base, head, name, q);
      assert Related([name], [name] + q);
    }
    if p :| p in paths && Related([name], p) && p != [name] {
      assert p == [name] + p[1..];
      assert p[1..] in deeper;
    }
    if p :| p in deeper {
      assert Related([name], [name] + p);
    }
  }

  lemma {:induction false} EndpointBelow(b: Boundary, base: Option<Chunk>, head: Option<Chunk>, paths: set<Path>,
      name: Name, rest: Path)
    requires Whole(b, base) && Whole(b, head) && [] !in paths && rest != []
    ensures Endpoint(base, head, paths, [name] + rest) <==>
      BelowEndpoint(Current(base, name), Current(head, name), [name] in paths, PathsBelow(paths, name), rest)
  {
    hide Differ, Current, PathsBelow, Subdirectory, Whole, FileOf, Endpoint;
    BelowChanged(b, base, head, paths, name, rest);
    BelowDiffering(b, base, head, paths, name, rest);
    BelowParts(base, head, paths, name, rest);
  }

  /** A changed path below a name. */
  lemma {:induction false} BelowChanged(b: Boundary, base: Option<Chunk>, head: Option<Chunk>, paths: set<Path>,
      name: Name, rest: Path)
    requires Whole(b, base) && Whole(b, head) && rest != []
    ensures var before, after := Current(base, name), Current(head, name);
      (exists q :: Related([name] + rest, q) && Differ(base, head, q)) <==>
        || FileOf(before) != FileOf(after)
        || exists q :: Related(rest, q) && Differ(Subdirectory(before), Subdirectory(after), q)
  {
    hide Current, Subdirectory, Whole, FileOf, Read;
    var before, after := Current(base, name), Current(head, name);
    if q :| Related([name] + rest, q) && Differ(base, head, q) {
      DifferHead(base, head, name, rest, q);
      DifferBelow(b, base, head, name, q[1..]);
      assert q[1..] == [] || Related(rest, q[1..]);
    }
    DifferBelow(b, base, head, name, []);
    assert [name] + [] == [name] && Related([name] + rest, [name]);
    if q :| Related(rest, q) && Differ(Subdirectory(before), Subdirectory(after), q) {
      ReadEmpty(Subdirectory(before));
      ReadEmpty(Subdirectory(after));
      DifferBelow(b, base, head, name, q);
      assert Related([name] + rest, [name] + q);
    }
  }

  /** A differing path below a name. */
  lemma {:induction false} BelowDiffering(b: Boundary, base: Option<Chunk>, head: Option<Chunk>, paths: set<Path>,
      name: Name, rest: Path)
    requires Whole(b, base) && Whole(b, head) && [] !in paths && rest != []
    ensures Differ(base, head, [name] + rest) <==>
      Differ(Subdirectory(Current(base, name)), Subdirectory(Current(head, name)), rest)
    ensures (exists p :: p in paths && Related([name] + rest, p)) <==>
      [name] in paths || exists p :: p in PathsBelow(paths, name) && Related(rest, p)
  {
    hide Current, Subdirectory, Whole, Read, PathsBelow;
    DifferBelow(b, base, head, name, rest);
    if p :| p in paths && Related([name] + rest, p) {
      assert p == [name] + p[1..];
      if p[1..] == [] {
        assert p == [name];
      } else {
        assert p[1..] in PathsBelow(paths, name) && Related(rest, p[1..]);
      }
    }
    if p :| p in PathsBelow(paths, name) && Related(rest, p) {
      assert Related([name] + rest, [name] + p);
    }
    assert Related([name] + rest, [name]);
  }

  lemma {:induction false} BelowParts(base: Option<Chunk>, head: Option<Chunk>, paths: set<Path>, name: Name,
      rest: Path)
    requires rest != []
    requires var before, after := Current(base, name), Current(head, name);
      (exists q :: Related([name] + rest, q) && Differ(base, head, q)) <==>
        || FileOf(before) != FileOf(after)
        || exists q :: Related(rest, q) && Differ(Subdirectory(before), Subdirectory(after), q)
    requires Differ(base, head, [name] + rest) <==>
      Differ(Subdirectory(Current(base, name)), Subdirectory(Current(head, name)), rest)
    requires (exists p :: p in paths && Related([name] + rest, p)) <==>
      [name] in paths || exists p :: p in PathsBelow(paths, name) && Related(rest, p)
    ensures Endpoint(base, head, paths, [name] + rest) <==>
      BelowEndpoint(Current(base, name), Current(head, name), [name] in paths, PathsBelow(paths, name), rest)
  {
    hide Differ, Current, PathsBelow, Subdirectory, FileOf, Related;
  }

  /** The endpoints found below one name. */
  ghost predicate FoundBelow(base: Option<Chunk>, head: Option<Chunk>, paths: set<Path>, name: Name, found: set<Path>) {
    && (forall x :: x in found ==> x != [] && x[0] == name)
    && (forall rest :: [name] + rest in found <==> Endpoint(base, head, paths, [name] + rest))
  }

  /** A name whose entry is equal on both sides has no endpoint at or below it. */
  lemma {:induction false} EqualSkipped(b: Boundary, base: Option<Chunk>, head: Option<Chunk>, paths: set<Path>,
      name: Name)
    requires Whole(b, base) && Whole(b, head) && [] !in paths
    requires Current(base, name) == Current(head, name)
    ensures FoundBelow(base, head, paths, name, {})
  {
    hide Current, Whole, PathsBelow, Endpoint, FileOf, Subdirectory, Seen, Read;
    forall rest ensures !Endpoint(base, head, paths, [name] + rest)
    {
      if rest == [] {
        EndpointHere(b, base, head, paths, name);
        assert [name] + [] == [name];
      } else {
        EndpointBelow(b, base, head, paths, name, rest);
        NothingEnds(Subdirectory(Current(base, name)), PathsBelow(paths, name), rest);
      }
    }
  }

  lemma {:induction false} NothingEnds(dir: Option<Chunk>, paths: set<Path>, x: Path)
    ensures !Endpoint(dir, dir, paths, x)
  {
  }

  lemma {:induction false} WholeRefined(b: Boundary, dir: Option<Chunk>)
    requires Whole(b, dir)
    ensures ShapedDir(dir) && OrderedDir(dir)
  {
    if dir.Some? {
      CanonicalShaped(b, dir.value);
      CanonicalOrdered(b, dir.value);
    }
  }

  /** The endpoints at and below one changed name. */
  method IntersectName(b: Boundary, base: Option<Chunk>, head: Option<Chunk>, paths: set<Path>, name: Name,
      ghost depth: nat)
    returns (found: set<Path>)
    requires Whole(b, base) && Whole(b, head) && [] !in paths && (forall p :: p in paths ==> |p| <= depth) && depth > 0
    ensures FoundBelow(base, head, paths, name, found)
    decreases depth, 0
  {
    hide Canonical, Leaves, Lookup, Entry, Current, Read, PathsBelow, Prefixed, Endpoint, Shaped, Ordered, FoundBelow;
    var before: Option<Node>, after: Option<Node> := None, None;
    if base.Some? { before := Find(b, base.value, name); }
    if head.Some? { after := Find(b, head.value, name); }
    assert before == Current(base, name) && after == Current(head, name) by { CurrentFound(base, head, name); }
    if before == after {
      EqualSkipped(b, base, head, paths, name);
      return {};
    }
    var exact, deeper := [name] in paths, PathsBelow(paths, name);
    var filesDiffer := FileOf(before) != FileOf(after);
    var from, to := Subdirectory(before), Subdirectory(after);
    ReadBelow(b, base, name, []);
    ReadBelow(b, head, name, []);
    var here, below := false, {};
    if exact {
      WholeRefined(b, from);
      WholeRefined(b, to);
      var changed := DiffDir(from, to);
      here := filesDiffer || changed != map[];
      below := changed.Keys;
    }
    ghost var differing := below;
    if deeper != {} {
      if filesDiffer {
        here := true;
        below := below + deeper;
      }
      var more := Intersect(b, from, to, deeper, depth - 1);
      below := below + more;
    } else {
      NoPaths(from, to);
    }
    found := (if here then {[name]} else {}) + Prefixed(name, below);
    assert [] !in below by { EmptyEnds(from, to, deeper); ReadEmpty(from); ReadEmpty(to); }
    assert here <==> NameEndpoint(before, after, exact, deeper)
      by { NameFound(before, after, exact, deeper, here, differing); }
    assert forall rest :: rest in below <==> BelowEndpoint(before, after, exact, deeper, rest);
    NameSplit(b, base, head, paths, name, here, below, found);
  }

  lemma {:induction false} CurrentFound(base: Option<Chunk>, head: Option<Chunk>, name: Name)
    ensures Current(base, name) == if base.Some? then Entry(Leaves(base.value), name) else None
    ensures Current(head, name) == if head.Some? then Entry(Leaves(head.value), name) else None
  {
  }

  lemma {:induction false} NoPaths(from: Option<Chunk>, to: Option<Chunk>)
    ensures forall x :: !Endpoint(from, to, {}, x)
  {
  }

  lemma {:induction false} EmptyEnds(from: Option<Chunk>, to: Option<Chunk>, paths: set<Path>)
    requires [] !in paths
    ensures !Endpoint(from, to, paths, [])
  {
    ReadEmpty(from);
    ReadEmpty(to);
  }

  lemma {:induction false} NameFound(before: Option<Node>, after: Option<Node>, exact: bool, deeper: set<Path>,
      here: bool, differing: set<Path>)
    requires forall rest :: rest in differing <==> exact && Differ(Subdirectory(before), Subdirectory(after), rest)
    requires here <==>
      (exact && (FileOf(before) != FileOf(after) || differing != {}))
      || (deeper != {} && FileOf(before) != FileOf(after))
    ensures here <==> NameEndpoint(before, after, exact, deeper)
  {
    hide FileOf, Subdirectory, Read;
    if exact {
      ReadEmpty(Subdirectory(before));
      ReadEmpty(Subdirectory(after));
      if q :| Seen(before, q) != Seen(after, q) {
        assert q == [] || q in differing;
      }
      if differing != {} {
        var q :| q in differing;
        assert Seen(before, q) != Seen(after, q);
      }
      assert FileOf(before) != FileOf(after) ==> Seen(before, []) != Seen(after, []);
    }
  }

  lemma {:induction false} NameSplit(b: Boundary, base: Option<Chunk>, head: Option<Chunk>, paths: set<Path>,
      name: Name, here: bool, below: set<Path>, found: set<Path>)
    requires Whole(b, base) && Whole(b, head) && [] !in paths && [] !in below
    requires found == (if here then {[name]} else {}) + Prefixed(name, below)
    requires here <==> NameEndpoint(Current(base, name), Current(head, name), [name] in paths, PathsBelow(paths, name))
    requires forall rest :: rest in below <==>
      rest != [] && BelowEndpoint(Current(base, name), Current(head, name), [name] in paths, PathsBelow(paths, name),
      rest)
    ensures FoundBelow(base, head, paths, name, found)
  {
    hide Current, Whole, PathsBelow, Endpoint, NameEndpoint, BelowEndpoint, Prefixed;
    forall rest ensures [name] + rest in found <==> Endpoint(base, head, paths, [name] + rest)
    {
      assert ([name] + rest)[1..] == rest;
      if rest == [] {
        assert [name] + [] == [name];
        EndpointHere(b, base, head, paths, name);
      } else {
        assert |[name] + rest| > 1;
        EndpointBelow(b, base, head, paths, name, rest);
      }
    }
  }

  // ---------------------------------------------------------------------- whole directories

  /**
   The endpoints of every equal, ancestor or descendant pair between the changed paths and the
   files that differ between two directories. Changed names are visited in any order.
   */
  method Intersect(b: Boundary, base: Option<Chunk>, head: Option<Chunk>, paths: set<Path>, ghost depth: nat)
    returns (found: set<Path>)
    requires Whole(b, base) && Whole(b, head) && [] !in paths && forall p :: p in paths ==> |p| <= depth
    ensures forall x :: x in found <==> Endpoint(base, head, paths, x)
    decreases depth, 1
  {
    hide Canonical, Leaves, Current, Read, PathsBelow, Endpoint, FoundBelow, Whole;
    found := {};
    if base == head {
      forall x ensures !Endpoint(base, head, paths, x)
      {
        NothingEnds(base, paths, x);
      }
      return;
    }
    var names := FirstNames(paths);
    while names != {}
      invariant names <= FirstNames(paths)
      invariant forall x :: x in found <==>
        x != [] && x[0] in FirstNames(paths) - names && Endpoint(base, head, paths, x)
      decreases |names|
    {
      var name :| name in names;
      var p :| p in paths && p != [] && p[0] == name;
      var more := IntersectName(b, base, head, paths, name, depth);
      FoundOne(base, head, paths, name, more);
      found := found + more;
      names := names - {name};
    }
    forall x | Endpoint(base, head, paths, x) ensures x != [] && x[0] in FirstNames(paths)
    {
      EndpointHead(base, head, paths, x);
    }
  }

  lemma {:induction false} FoundOne(base: Option<Chunk>, head: Option<Chunk>, paths: set<Path>, name: Name,
      found: set<Path>)
    requires FoundBelow(base, head, paths, name, found)
    ensures forall x :: x in found <==> x != [] && x[0] == name && Endpoint(base, head, paths, x)
  {
    hide Endpoint;
    forall x: Path | x != [] && x[0] == name ensures x in found <==> Endpoint(base, head, paths, x)
    {
      assert x == [name] + x[1..];
    }
  }

  lemma {:induction false} EndpointHead(base: Option<Chunk>, head: Option<Chunk>, paths: set<Path>, x: Path)
    requires Endpoint(base, head, paths, x) && [] !in paths
    ensures x != [] && x[0] in FirstNames(paths)
  {
    hide Read;
    ReadEmpty(base);
    ReadEmpty(head);
    if x in paths {
    } else {
      var p :| p in paths && Related(x, p);
      assert p[0] == x[0];
    }
  }

  /** The endpoints between a changeset and the differences of two snapshots. */
  method Intersections(b: Boundary, base: Chunk, head: Chunk, paths: set<Path>, ghost depth: nat)
    returns (found: set<Path>)
    requires Canonical(b, base) && Canonical(b, head) && [] !in paths && forall p :: p in paths ==> |p| <= depth
    ensures forall x :: x in found <==>
      || (x in paths && exists q :: Related(x, q) && Lookup(base, q) != Lookup(head, q))
      || (Lookup(base, x) != Lookup(head, x) && exists p :: p in paths && Related(x, p))
  {
    hide Canonical, Lookup, Related;
    found := Intersect(b, Some(base), Some(head), paths, depth);
    forall x ensures Endpoint(Some(base), Some(head), paths, x) <==>
      || (x in paths && exists q :: Related(x, q) && Lookup(base, q) != Lookup(head, q))
      || (Lookup(base, x) != Lookup(head, x) && exists p :: p in paths && Related(x, p))
    {
      EndpointLookup(base, head, paths, x);
    }
  }

  lemma {:induction false} EndpointLookup(base: Chunk, head: Chunk, paths: set<Path>, x: Path)
    ensures Endpoint(Some(base), Some(head), paths, x) <==>
      || (x in paths && exists q :: Related(x, q) && Lookup(base, q) != Lookup(head, q))
      || (Lookup(base, x) != Lookup(head, x) && exists p :: p in paths && Related(x, p))
  {
    hide Lookup, Related;
    assert forall q :: Read(Some(base), q) == Lookup(base, q);
    assert forall q :: Read(Some(head), q) == Lookup(head, q);
    assert forall q :: Differ(Some(base), Some(head), q) <==> Lookup(base, q) != Lookup(head, q);
  }
}
