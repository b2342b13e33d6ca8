/**
 Snapshots as maps from path to file, and the changesets between them (src/domain.rs): checking a
 changeset against a base, rebasing it onto a moved World, and predicting conflicts.
 */
module Domain {
  import opened Names
  import opened Chunks
  import opened Directories
  import opened Apply
  import opened Paths
  import opened Intersecting

  type Snapshot = map<Path, FileEntry>

  function EntryAt(files: Snapshot, p: Path): Option<FileEntry> {
    if p in files then Some(files[p]) else None
  }

  /** Every file has a path, and none is above another. */
  predicate PrefixFree(files: Snapshot) {
    [] !in files && forall p, q :: p in files && q in files ==> !(p < q)
  }

  ghost predicate AllValid(paths: set<Path>) {
    forall p :: p in paths ==> ValidPath(p)
  }

  /** The child snapshot a changeset produces. */
  function Changed(files: Snapshot, changes: Changeset): (child: Snapshot)
    ensures forall p :: EntryAt(child, p) == if p in changes then changes[p] else EntryAt(files, p)
  {
    map p | p in files.Keys + changes.Keys
      && (p in changes ==> changes[p].Some?) :: if p in changes then changes[p].value else files[p]
  }

  lemma {:induction false} SameFiles(a: Snapshot, c: Snapshot)
    requires forall p :: EntryAt(a, p) == EntryAt(c, p)
    ensures a == c
  {
    assert forall p :: p in a <==> EntryAt(a, p).Some?;
    assert forall p :: p in c <==> EntryAt(c, p).Some?;
    assert forall p :: p in a ==> a[p] == EntryAt(a, p).value;
  }

  lemma {:induction false} SmallerSet(a: set<Path>, c: set<Path>)
    requires a <= c
    ensures |a| <= |c|
  {
    if a != {} {
      var p :| p in a;
      SmallerSet(a - {p}, c - {p});
    }
  }

  /** One entry inserted or removed. */
  function Set(files: Snapshot, p: Path, entry: Option<FileEntry>): (next: Snapshot)
    ensures forall q :: EntryAt(next, q) == if q == p then entry else EntryAt(files, q)
  {
    if entry.Some? then files[p := entry.value] else files - {p}
  }

  /** Applies a changeset to a snapshot, entry by entry. */
  method ApplyTo(files: Snapshot, changes: Changeset) returns (child: Snapshot)
    ensures child == Changed(files, changes)
  {
    hide EntryAt, Set, Changed;
    child := files;
    var rest := changes.Keys;
    while rest != {}
      invariant rest <= changes.Keys
      invariant forall p :: EntryAt(child, p) == if p in changes && p !in rest then changes[p] else EntryAt(files, p)
      decreases |rest|
    {
      var p :| p in rest;
      child := Set(child, p, changes[p]);
      rest := rest - {p};
    }
    SameFiles(child, Changed(files, changes));
  }

  /** The changeset from one snapshot to another: every path whose entry differs, with its later entry. */
  function Differences(before: Snapshot, after: Snapshot): (changes: Changeset)
    ensures forall p :: p in changes <==> EntryAt(before, p) != EntryAt(after, p)
    ensures forall p :: p in changes ==> changes[p] == EntryAt(after, p)
  {
    map p | p in before.Keys + after.Keys && EntryAt(before, p) != EntryAt(after, p) :: EntryAt(after, p)
  }

  /** The entries of a changeset that are not no-ops. */
  function Minimal(files: Snapshot, changes: Changeset): Changeset {
    map p | p in changes && changes[p] != EntryAt(files, p) :: changes[p]
  }

  /** Applying a difference arrives. */
  lemma {:induction false} DifferenceArrives(before: Snapshot, after: Snapshot)
    ensures Changed(before, Differences(before, after)) == after
  {
    SameFiles(Changed(before, Differences(before, after)), after);
  }

  /** The difference a changeset makes is the changeset without its no-ops. */
  lemma {:induction false} DifferenceMade(files: Snapshot, changes: Changeset)
    ensures Differences(files, Changed(files, changes)) == Minimal(files, changes)
    ensures Changed(files, Minimal(files, changes)) == Changed(files, changes)
  {
    SameFiles(Changed(files, Minimal(files, changes)), Changed(files, changes));
  }

  // --------------------------------------------------------------------------- normalization

  datatype Refusal = BadEntry | AmbiguousDeletion | FilesCollide
  datatype Normal = Normal(changes: Changeset) | Refused(why: Refusal)

  function IsDir(files: Snapshot, p: Path): bool {
    exists q :: q in files && p < q
  }

  function FilesUnder(files: Snapshot, p: Path): set<Path> {
    set q | q in files && p < q
  }

  function Ancestors(p: Path): (ancestors: set<Path>)
    ensures forall a :: a in ancestors <==> a != [] && a < p
  {
    var ancestors := set i | 0 < i < |p| :: p[..i];
    assert forall a :: a != [] && a < p ==> a == p[..|a|];
    ancestors
  }

  ghost predicate Unsound(sound: FileEntry -> bool, changes: Changeset) {
    exists p :: p in changes && changes[p].Some? && !sound(changes[p].value)
  }

  /** The deletion of a directory by its own path. */
  ghost predicate DeletesDirectory(files: Snapshot, changes: Changeset, p: Path) {
    && p in changes && changes[p] == None && p !in files
    && exists q :: p < q && (q in files || (q in changes && changes[q].Some?))
  }

  /** The changed paths in a path's descendant range. */
  function RangeOf(changes: Changeset, p: Path): (below: set<Path>)
    requires p != [] && forall q :: q in changes ==> q != []
  {
    set q | q in changes && InRange(Join(q), Join(p))
  }

  lemma {:induction false} RangeBelow(changes: Changeset, p: Path)
    requires ValidPath(p) && AllValid(changes.Keys)
    ensures forall q :: q in changes ==> q != []
    ensures forall q :: q in RangeOf(changes, p) <==> q in changes && p < q
  {
    forall q | q in changes ensures q != [] && (InRange(Join(q), Join(p)) <==> p < q)
    {
      ValidJoinable(p);
      ValidJoinable(q);
      RangeIsDescendants(q, p);
    }
  }

  /** The first pass: every entry is checked, and the no-ops are dropped. */
  method DropNoOps(sound: FileEntry -> bool, files: Snapshot, changes: Changeset) returns (r: Normal)
    requires AllValid(changes.Keys)
    ensures r.Normal? ==>
      !Unsound(sound, changes) && (forall p :: !DeletesDirectory(files, changes, p))
      && r.changes == Minimal(files, changes)
    ensures r.Refused? ==>
      || (r.why == BadEntry && Unsound(sound, changes))
      || (r.why == AmbiguousDeletion && exists p :: DeletesDirectory(files, changes, p))
  {
    hide ValidPath, Join, InRange, EntryAt, DeletesDirectory, IsDir, RangeOf;
    var delta: Changeset := map[];
    var rest := changes.Keys;
    while rest != {}
      invariant rest <= changes.Keys
      invariant forall p :: p in changes && p !in rest && changes[p].Some? ==> sound(changes[p].value)
      invariant forall p :: p in changes && p !in rest ==> !DeletesDirectory(files, changes, p)
      invariant forall p :: p in delta <==> p in changes && p !in rest && changes[p] != EntryAt(files, p)
      invariant forall p :: p in delta ==> delta[p] == changes[p]
      decreases |rest|
    {
      var p :| p in rest;
      if changes[p].Some? && !sound(changes[p].value) {
        return Refused(BadEntry);
      }
      var before := EntryAt(files, p);
      RangeBelow(changes, p);
      Deleting(files, changes, p);
      if changes[p] == None && before == None {
        var addedChild := exists q :: q in RangeOf(changes, p) && changes[q].Some?;
        if addedChild || IsDir(files, p) {
          return Refused(AmbiguousDeletion);
        }
      }
      if before != changes[p] {
        delta := delta[p := changes[p]];
      }
      rest := rest - {p};
    }
    assert forall p :: DeletesDirectory(files, changes, p) ==> p in changes by { DeletionsChange(files, changes); }
    return Normal(delta);
  }

  lemma {:induction false} DeletionsChange(files: Snapshot, changes: Changeset)
    ensures forall p :: DeletesDirectory(files, changes, p) ==> p in changes
  {
  }

  lemma {:induction false} Deleting(files: Snapshot, changes: Changeset, p: Path)
    requires p in changes && p != [] && forall q :: q in changes ==> q != []
    requires forall q :: q in RangeOf(changes, p) <==> q in changes && p < q
    ensures DeletesDirectory(files, changes, p) <==>
      changes[p] == None && EntryAt(files, p) == None
        && ((exists q :: q in RangeOf(changes, p) && changes[q].Some?) || IsDir(files, p))
  {
    hide RangeOf;
  }

  /** The second pass: no added file lies above or below a file that stays. */
  method StaysPrefixFree(files: Snapshot, delta: Changeset) returns (ok: bool)
    requires PrefixFree(files) && AllValid(delta.Keys)
    ensures ok <==> PrefixFree(Changed(files, delta))
  {
    hide ValidPath, Join, InRange, RangeOf, LiveAfter, IsDir, FilesUnder, Ancestors, Changed;
    var rest := delta.Keys;
    while rest != {}
      invariant rest <= delta.Keys
      invariant forall p :: p in delta && p !in rest && delta[p].Some? ==> Alone(Changed(files, delta), p)
      decreases |rest|
    {
      var p :| p in rest;
      if delta[p].Some? {
        RangeBelow(delta, p);
        var above := exists a :: a in Ancestors(p) && LiveAfter(files, delta, a);
        var added := exists q :: q in RangeOf(delta, p) && delta[q].Some?;
        var kept := IsDir(files, p) && exists q :: q in FilesUnder(files, p) && q !in delta;
        AloneExactly(files, delta, p);
        if above || added || kept {
          NotPrefixFree(files, delta, p);
          return false;
        }
      }
      rest := rest - {p};
    }
    ChangedAlone(files, delta);
    return true;
  }

  lemma {:induction false} AloneExactly(files: Snapshot, delta: Changeset, p: Path)
    requires p in delta && p != [] && forall q :: q in delta ==> q != []
    requires forall q :: q in RangeOf(delta, p) <==> q in delta && p < q
    ensures Alone(Changed(files, delta), p) <==>
      && !(exists a :: a in Ancestors(p) && LiveAfter(files, delta, a))
      && !(exists q :: q in RangeOf(delta, p) && delta[q].Some?)
      && !(IsDir(files, p) && exists q :: q in FilesUnder(files, p) && q !in delta)
  {
    hide RangeOf, LiveAfter, Changed;
    var child := Changed(files, delta);
    forall q ensures LiveAfter(files, delta, q) <==> q in child
    {
      LiveChild(files, delta, q);
    }
    forall q | q in delta ensures LiveAfter(files, delta, q) <==> delta[q].Some?
    {
      LiveChanged(files, delta, q);
    }
    forall q | q !in delta ensures LiveAfter(files, delta, q) <==> q in files
    {
      LiveChanged(files, delta, q);
    }
    if q :| q in child && p < q && q !in delta {
      assert IsDir(files, p) && q in FilesUnder(files, p);
    }
  }

  lemma {:induction false} LiveChanged(files: Snapshot, delta: Changeset, p: Path)
    ensures LiveAfter(files, delta, p) <==> if p in delta then delta[p].Some? else p in files
  {
  }

  lemma {:induction false} NotPrefixFree(files: Snapshot, delta: Changeset, p: Path)
    requires p in delta && delta[p].Some? && !Alone(Changed(files, delta), p)
    ensures !PrefixFree(Changed(files, delta))
  {
    LiveChild(files, delta, p);
  }

  /**
   Validates a changeset against a snapshot and drops its no-ops. It is refused exactly when it
   names an unsound entry, deletes a directory by its path, or would put one file above another;
   otherwise the result is the difference it makes.
   */
  method Normalize(sound: FileEntry -> bool, files: Snapshot, changes: Changeset) returns (r: Normal)
    requires PrefixFree(files) && AllValid(changes.Keys)
    ensures r.Normal? <==>
      !Unsound(sound, changes) && (forall p :: !DeletesDirectory(files, changes, p))
      && PrefixFree(Changed(files, changes))
    ensures r.Normal? ==> r.changes == Differences(files, Changed(files, changes))
    ensures r.Refused? ==> match r.why
      case BadEntry => Unsound(sound, changes)
      case AmbiguousDeletion => exists p :: DeletesDirectory(files, changes, p)
      case FilesCollide => !Unsound(sound, changes) && (forall p :: !DeletesDirectory(files, changes, p))
  {
    hide ValidPath, DeletesDirectory, Unsound, PrefixFree, Changed;
    r := DropNoOps(sound, files, changes);
    if r.Refused? {
      return;
    }
    DifferenceMade(files, changes);
    var ok := StaysPrefixFree(files, r.changes);
    if !ok {
      r := Refused(FilesCollide);
    }
  }

  predicate LiveAfter(files: Snapshot, delta: Changeset, p: Path) {
    if p in delta then delta[p].Some? else EntryAt(files, p).Some?
  }

  /** No file of a snapshot is above or below this path. */
  ghost predicate Alone(files: Snapshot, p: Path) {
    forall q :: q in files ==> !(p < q) && !(q != [] && q < p)
  }

  lemma {:induction false} LiveChild(files: Snapshot, delta: Changeset, p: Path)
    ensures LiveAfter(files, delta, p) <==> p in Changed(files, delta)
  {
    assert EntryAt(Changed(files, delta), p) == if p in delta then delta[p] else EntryAt(files, p);
  }

  lemma {:induction false} ChangedAlone(files: Snapshot, delta: Changeset)
    requires PrefixFree(files) && AllValid(delta.Keys)
    requires forall p :: p in delta && delta[p].Some? ==> Alone(Changed(files, delta), p)
    ensures PrefixFree(Changed(files, delta))
  {
    var child := Changed(files, delta);
    forall p, q | p in child && q in child ensures !(p < q)
    {
      LiveChild(files, delta, p);
      LiveChild(files, delta, q);
      assert p != [];
    }
  }

  // -------------------------------------------------------------------------------- rebasing

  /** What normalizing against `files` returns unchanged. */
  predicate Normalized(files: Snapshot, changes: Changeset) {
    PrefixFree(Changed(files, changes)) && forall p :: p in changes ==> changes[p] != EntryAt(files, p)
  }

  /** A normalized changeset is its own difference and deletes no directory. */
  lemma {:induction false} NormalizedStays(files: Snapshot, changes: Changeset)
    requires Normalized(files, changes)
    ensures Differences(files, Changed(files, changes)) == changes
    ensures forall p :: !DeletesDirectory(files, changes, p)
  {
    DifferenceMade(files, changes);
    assert Minimal(files, changes) == changes;
  }

  /** Whatever normalizing returns is normalized. */
  lemma {:induction false} DifferenceNormalized(files: Snapshot, changes: Changeset)
    requires PrefixFree(Changed(files, changes))
    ensures Normalized(files, Differences(files, Changed(files, changes)))
  {
    DifferenceMade(files, changes);
  }

  /** The endpoints of all related pairs of a changed path and a path that differs. */
  predicate Touches(base: Snapshot, head: Snapshot, paths: set<Path>, x: Path) {
    || (x in paths && exists q :: q in base.Keys + head.Keys && Related(x, q) && EntryAt(base, q) != EntryAt(head, q))
    || (EntryAt(base, x) != EntryAt(head, x) && exists p :: p in paths && Related(x, p))
  }

  function Touched(base: Snapshot, head: Snapshot, paths: set<Path>): (found: set<Path>)
    ensures forall x :: x in found <==> Touches(base, head, paths, x)
  {
    set x | x in paths + base.Keys + head.Keys && Touches(base, head, paths, x)
  }

  /** With nothing touched, every path related to a changed one reads as in the base. */
  lemma {:induction false} UntouchedRelated(base: Snapshot, head: Snapshot, paths: set<Path>)
    ensures Touched(base, head, paths) == {} <==> forall p, q :: p in paths && Related(p, q) ==>
      EntryAt(base, q) == EntryAt(head, q)
  {
    if Touched(base, head, paths) == {} {
      forall p, q | p in paths && Related(p, q) ensures EntryAt(base, q) == EntryAt(head, q)
      {
        assert !Touches(base, head, paths, p);
      }
    } else {
      var x :| x in Touched(base, head, paths);
      assert Touches(base, head, paths, x);
      if x in paths && exists q :: q in base.Keys + head.Keys && Related(x, q) && EntryAt(base, q) != EntryAt(head, q) {
        var q :| q in base.Keys + head.Keys && Related(x, q) && EntryAt(base, q) != EntryAt(head, q);
      } else {
        var p :| p in paths && Related(x, p);
        assert Related(p, x);
      }
    }
  }

  /**
   Rebasing is safe: a changeset normalized against its base that touches nothing between base and
   head is already normalized against the head. Applying it puts no file above another, and the new
   version's changeset is the changeset itself.
   */
  lemma {:induction false} RebaseSafe(base: Snapshot, head: Snapshot, changes: Changeset)
    requires PrefixFree(head) && Normalized(base, changes)
    requires Touched(base, head, changes.Keys) == {}
    ensures Normalized(head, changes)
    ensures Differences(head, Changed(head, changes)) == changes
    ensures forall p :: !DeletesDirectory(head, changes, p)
  {
    hide Changed, EntryAt, DeletesDirectory;
    UntouchedRelated(base, head, changes.Keys);
    assert forall p :: Related(p, p);
    var child := Changed(head, changes);
    forall p, q | p in child && q in child && p < q ensures false
    {
      RebasedPair(base, head, changes, p, q);
    }
    assert [] !in child by { RebasedEmpty(base, head, changes); }
    NormalizedStays(head, changes);
  }

  /** A file above another after rebasing would already be there at the base or in the head. */
  lemma {:induction false} RebasedPair(base: Snapshot, head: Snapshot, changes: Changeset, p: Path, q: Path)
    requires PrefixFree(head) && PrefixFree(Changed(base, changes)) && p < q
    requires forall p, q :: p in changes && Related(p, q) ==> EntryAt(base, q) == EntryAt(head, q)
    ensures !(p in Changed(head, changes) && q in Changed(head, changes))
  {
    assert Related(p, q) && Related(q, p);
    assert EntryAt(Changed(head, changes), p) == if p in changes then changes[p] else EntryAt(head, p);
    assert EntryAt(Changed(head, changes), q) == if q in changes then changes[q] else EntryAt(head, q);
    assert EntryAt(Changed(base, changes), p) == if p in changes then changes[p] else EntryAt(base, p);
    assert EntryAt(Changed(base, changes), q) == if q in changes then changes[q] else EntryAt(base, q);
  }

  lemma {:induction false} RebasedEmpty(base: Snapshot, head: Snapshot, changes: Changeset)
    requires PrefixFree(head) && PrefixFree(Changed(base, changes))
    ensures [] !in Changed(head, changes)
  {
    assert EntryAt(Changed(head, changes), []) == if [] in changes then changes[[]] else EntryAt(head, []);
    assert EntryAt(Changed(base, changes), []) == if [] in changes then changes[[]] else EntryAt(base, []);
  }

  // ---------------------------------------------------------------------------------- radar

  type LayerId = nat
  /** Every live Layer's changed paths with their entries. */
  type LiveRows = map<(Path, LayerId), Option<FileEntry>>

  /**
   `ours` is a changed path; `theirs` is another Layer's, related to it, and sets an entry that differs from the
   base's.
   */
  ghost predicate Collides(base: Snapshot, live: LiveRows, paths: set<Path>, other: LayerId, ours: Path, theirs: Path) {
    ours in paths && (theirs, other) in live && Related(ours, theirs) && EntryAt(base, theirs) != live[(theirs, other)]
  }

  /** The live rows at a path, below it, or at one of its ancestors. */
  function Hits(live: LiveRows, p: Path): set<(Path, LayerId)>
    requires p != [] && forall row :: row in live ==> row.0 != []
  {
    set row | row in live && (row.0 == p || InRange(Join(row.0), Join(p)) || row.0 in Ancestors(p))
  }

  lemma {:induction false} HitsRelated(live: LiveRows, p: Path)
    requires ValidPath(p) && forall row :: row in live ==> ValidPath(row.0)
    ensures forall row :: row in live ==> row.0 != []
    ensures forall row :: row in Hits(live, p) <==> row in live && Related(p, row.0)
  {
    forall row | row in live
      ensures row.0 != []
        && ((row.0 == p || InRange(Join(row.0), Join(p)) || row.0 in Ancestors(p)) <==> Related(p, row.0))
    {
      ValidJoinable(p);
      ValidJoinable(row.0);
      RangeIsDescendants(row.0, p);
    }
  }

  type Found = map<LayerId, set<(Path, Path)>>

  ghost predicate Reported(found: Found, other: LayerId, ours: Path, theirs: Path) {
    other in found && (ours, theirs) in found[other]
  }

  /** Reports the hits of one changed path. Base entries already read are kept in `atBase`. */
  method CollideAt(base: Snapshot, live: LiveRows, layer: LayerId, p: Path, hits: set<(Path, LayerId)>, before: Found,
      atBase: Snapshotted)
    returns (found: Found, seen: Snapshotted)
    requires forall row :: row in hits ==> row in live
    requires SeenAt(base, atBase) && forall other :: other in before ==> before[other] != {}
    ensures SeenAt(base, seen) && forall other :: other in found ==> found[other] != {}
    ensures forall other, ours, theirs :: Reported(found, other, ours, theirs) <==>
      || Reported(before, other, ours, theirs)
      || (other != layer && ours == p && (theirs, other) in hits && EntryAt(base, theirs) != live[(theirs, other)])
  {
    hide EntryAt;
    found, seen := before, atBase;
    var rest := hits;
    while rest != {}
      invariant rest <= hits
      invariant SeenAt(base, seen) && forall other :: other in found ==> found[other] != {}
      invariant forall other, ours, theirs :: Reported(found, other, ours, theirs) <==>
        || Reported(before, other, ours, theirs)
        || (other != layer && ours == p && (theirs, other) in hits - rest
          && EntryAt(base, theirs) != live[(theirs, other)])
      decreases |rest|
    {
      var row :| row in rest;
      rest := rest - {row};
      var (q, other) := row;
      if other != layer {
        var entry := EntryAt(base, q);
        if q in seen {
          entry := seen[q];
        } else {
          seen := seen[q := entry];
        }
        if entry != live[row] {
          ReportMore(found, other, p, q);
          found := found[other := (if other in found then found[other] else {}) + {(p, q)}];
        }
      }
    }
  }

  type Snapshotted = map<Path, Option<FileEntry>>

  ghost predicate SeenAt(base: Snapshot, seen: Snapshotted) {
    forall p :: p in seen ==> seen[p] == EntryAt(base, p)
  }

  lemma {:induction false} ReportMore(found: Found, other: LayerId, p: Path, q: Path)
    ensures var more := found[other := (if other in found then found[other] else {}) + {(p, q)}];
      forall o, ours, theirs :: Reported(more, o, ours, theirs) <==>
        Reported(found, o, ours, theirs) || (o == other && ours == p && theirs == q)
  {
    var pairs := (if other in found then found[other] else {}) + {(p, q)};
    var more := found[other := pairs];
    forall o, ours, theirs ensures Reported(more, o, ours, theirs) <==>
      Reported(found, o, ours, theirs) || (o == other && ours == p && theirs == q)
    {
      if o == other {
        assert (ours, theirs) in pairs <==> Reported(found, o, ours, theirs) || (ours == p && theirs == q);
      }
    }
  }

  /** Path pairs on which a changeset would conflict if each other live Layer published first. */
  method Collisions(base: Snapshot, live: LiveRows, layer: LayerId, changes: Changeset) returns (found: Found)
    requires AllValid(changes.Keys) && forall row :: row in live ==> ValidPath(row.0)
    ensures forall other, ours, theirs :: (other in found && (ours, theirs) in found[other]) <==>
      other != layer && Collides(base, live, changes.Keys, other, ours, theirs)
    ensures forall other :: other in found ==> found[other] != {}
  {
    hide ValidPath, Join, InRange, Related, EntryAt, Hits;
    found := map[];
    var atBase: Snapshotted := map[];
    var rest := changes.Keys;
    while rest != {}
      invariant rest <= changes.Keys
      invariant SeenAt(base, atBase) && forall other :: other in found ==> found[other] != {}
      invariant forall other, ours, theirs :: Reported(found, other, ours, theirs) <==>
        other != layer && Collides(base, live, changes.Keys - rest, other, ours, theirs)
      decreases |rest|
    {
      var p :| p in rest;
      HitsRelated(live, p);
      assert p != [] by { ValidFilled(p); }
      found, atBase := CollideAt(base, live, layer, p, Hits(live, p), found, atBase);
      rest := rest - {p};
    }
    assert changes.Keys - rest == changes.Keys;
    assert forall other, ours, theirs :: Reported(found, other, ours, theirs) <==>
      (other in found && (ours, theirs) in found[other]);
  }

  lemma {:induction false} ValidFilled(p: Path)
    requires ValidPath(p)
    ensures p != []
  {
  }

  /** Both ends of every pair. */
  ghost predicate PairEnd(base: Snapshot, theirs: Changeset, paths: set<Path>, x: Path) {
    || (x in paths && exists q :: q in theirs && Related(x, q) && EntryAt(base, q) != theirs[q])
    || (x in theirs && EntryAt(base, x) != theirs[x] && exists p :: p in paths && Related(p, x))
  }

  /** The live rows of one Layer are its changes. */
  ghost predicate RowsOf(live: LiveRows, other: LayerId, theirs: Changeset) {
    && (forall q :: (q, other) in live <==> q in theirs)
    && (forall q :: q in theirs ==> live[(q, other)] == theirs[q])
  }

  lemma {:induction false} PairEndsCollide(base: Snapshot, live: LiveRows, other: LayerId, theirs: Changeset,
      paths: set<Path>, x: Path)
    requires RowsOf(live, other, theirs)
    ensures PairEnd(base, theirs, paths, x) <==>
      exists ours, end :: Collides(base, live, paths, other, ours, end) && (x == ours || x == end)
  {
    if x in paths && exists q :: q in theirs && Related(x, q) && EntryAt(base, q) != theirs[q] {
      var q :| q in theirs && Related(x, q) && EntryAt(base, q) != theirs[q];
      assert Collides(base, live, paths, other, x, q);
    } else if PairEnd(base, theirs, paths, x) {
      var p :| p in paths && Related(p, x);
      assert Collides(base, live, paths, other, p, x);
    }
    if ours, end :| Collides(base, live, paths, other, ours, end) && (x == ours || x == end) {
    }
  }

  /**
   The radar is exact: for a Layer that touches nothing in the World, once another Layer's changes
   are published on top, the paths it would conflict on are the ends of the pairs reported for that
   Layer, no more and no fewer.
   */
  lemma {:induction false} RadarExact(base: Snapshot, head: Snapshot, live: LiveRows, other: LayerId,
      theirs: Changeset, paths: set<Path>, x: Path)
    requires Touched(base, head, paths) == {} && RowsOf(live, other, theirs)
    ensures x in Touched(base, Changed(head, theirs), paths) <==>
      exists ours, end :: Collides(base, live, paths, other, ours, end) && (x == ours || x == end)
  {
    UntouchedRelated(base, head, paths);
    PairEndsCollide(base, live, other, theirs, paths, x);
    var next := Changed(head, theirs);
    assert forall q :: EntryAt(next, q) == if q in theirs then theirs[q] else EntryAt(head, q);
    forall p, q | p in paths && Related(p, q)
      ensures EntryAt(base, q) != EntryAt(next, q) <==> q in theirs && EntryAt(base, q) != theirs[q]
    {
    }
    assert Touches(base, next, paths, x) <==> PairEnd(base, theirs, paths, x) by {
      assert forall p :: Related(x, p) <==> Related(p, x);
    }
  }

  // -------------------------------------------------------------------------------- manifests

  /** `files` is exactly the listed entries. */
  ghost predicate Lists(files: Snapshot, entries: seq<(Path, FileEntry)>) {
    && (forall i :: 0 <= i < |entries| ==> entries[i].0 in files && files[entries[i].0] == entries[i].1)
    && (forall p :: p in files ==> exists i :: 0 <= i < |entries| && entries[i].0 == p)
  }

  ghost predicate NoRepeat(entries: seq<(Path, FileEntry)>) {
    forall i, j :: 0 <= i < j < |entries| ==> entries[i].0 != entries[j].0
  }

  /** The listed entries as a map, unless a path repeats. */
  method Collected(entries: seq<(Path, FileEntry)>) returns (r: Option<Snapshot>)
    ensures r.Some? <==> NoRepeat(entries)
    ensures r.Some? ==> Lists(r.value, entries)
  {
    var files: Snapshot := map[];
    for i := 0 to |entries|
      invariant NoRepeat(entries[..i]) && Lists(files, entries[..i])
    {
      var (p, e) := entries[i];
      if p in files {
        ghost var j :| 0 <= j < |entries[..i]| && entries[..i][j].0 == p;
        assert entries[j].0 == entries[i].0;
        return None;
      }
      ListsNext(files, entries[..i], p, e);
      assert entries[..i + 1] == entries[..i] + [(p, e)];
      files := files[p := e];
    }
    assert entries[..|entries|] == entries;
    return Some(files);
  }

  lemma {:induction false} ListsNext(files: Snapshot, front: seq<(Path, FileEntry)>, p: Path, e: FileEntry)
    requires NoRepeat(front) && Lists(files, front) && p !in files
    ensures NoRepeat(front + [(p, e)]) && Lists(files[p := e], front + [(p, e)])
  {
    var all, next := front + [(p, e)], files[p := e];
    forall q | q in next ensures exists i :: 0 <= i < |all| && all[i].0 == q
    {
      if q == p {
        assert all[|front|].0 == q;
      } else {
        var i :| 0 <= i < |front| && front[i].0 == q;
        assert all[i].0 == q;
      }
    }
  }

  /** Whether no file is above another, looking each path's ancestors up. */
  method NoneAbove(files: Snapshot) returns (ok: bool)
    requires [] !in files
    ensures ok <==> PrefixFree(files)
  {
    var rest := files.Keys;
    while rest != {}
      invariant rest <= files.Keys
      invariant forall p, q :: p in files && q in files && q !in rest ==> !(p < q)
      decreases |rest|
    {
      var q :| q in rest;
      if exists a :: a in Ancestors(q) && a in files {
        return false;
      }
      rest := rest - {q};
    }
    return true;
  }

  lemma {:induction false} ListedPrefixFree(files: Snapshot, entries: seq<(Path, FileEntry)>)
    requires Lists(files, entries) && [] !in files
    ensures PrefixFree(files) <==> forall i, j :: 0 <= i < |entries| && 0 <= j < |entries| ==>
      !(entries[i].0 < entries[j].0)
  {
    if forall i, j :: 0 <= i < |entries| && 0 <= j < |entries| ==> !(entries[i].0 < entries[j].0) {
      forall p, q | p in files && q in files ensures !(p < q)
      {
        var i :| 0 <= i < |entries| && entries[i].0 == p;
        var j :| 0 <= j < |entries| && entries[j].0 == q;
      }
    }
  }

  lemma {:induction false} ListedEntry(files: Snapshot, entries: seq<(Path, FileEntry)>, p: Path, e: FileEntry)
    requires Lists(files, entries)
    ensures EntryAt(files, p) == Some(e) <==> (p, e) in entries
  {
    if EntryAt(files, p) == Some(e) {
      var i :| 0 <= i < |entries| && entries[i].0 == p;
      assert entries[i] == (p, e);
    }
  }

  /** Builds a manifest; a repeated path or a file above another is refused. */
  method NewManifest(entries: seq<(Path, FileEntry)>) returns (r: Option<Snapshot>)
    requires forall i :: 0 <= i < |entries| ==> entries[i].0 != []
    ensures r.Some? <==>
      && (forall i, j :: 0 <= i < j < |entries| ==> entries[i].0 != entries[j].0)
      && (forall i, j :: 0 <= i < |entries| && 0 <= j < |entries| ==> !(entries[i].0 < entries[j].0))
    ensures r.Some? ==> PrefixFree(r.value) && (forall p, e :: EntryAt(r.value, p) == Some(e) <==> (p, e) in entries)
  {
    hide EntryAt, PrefixFree;
    r := Collected(entries);
    if r.None? {
      return;
    }
    ghost var files := r.value;
    ListedPrefixFree(files, entries);
    forall p, e ensures EntryAt(files, p) == Some(e) <==> (p, e) in entries
    {
      ListedEntry(files, entries, p, e);
    }
    var ok := NoneAbove(r.value);
    if !ok {
      r := None;
    }
  }

  /** `from` is removed, `to` is added, and each is the only path so changed with their common entry. */
  ghost predicate Renamed(before: Snapshot, after: Snapshot, from: Path, to: Path) {
    && from in before && from !in after && to in after && to !in before && before[from] == after[to]
    && (forall p :: p in before && p !in after && before[p] == before[from] ==> p == from)
    && (forall p :: p in after && p !in before && after[p] == after[to] ==> p == to)
  }

  /** The paths of `left` missing from `right`, by entry. */
  ghost predicate UnmatchedIn(left: Snapshot, right: Snapshot, paths: map<FileEntry, set<Path>>) {
    forall p, e :: (e in paths && p in paths[e]) <==> p in left && p !in right && left[p] == e
  }

  method Unmatched(left: Snapshot, right: Snapshot) returns (paths: map<FileEntry, set<Path>>)
    ensures UnmatchedIn(left, right, paths) && forall e :: e in paths ==> paths[e] != {}
  {
    paths := map[];
    var rest := left.Keys;
    while rest != {}
      invariant rest <= left.Keys
      invariant forall e :: e in paths ==> paths[e] != {}
      invariant forall p, e :: (e in paths && p in paths[e]) <==> p in left && p !in rest && p !in right && left[p] == e
      decreases |rest|
    {
      var p :| p in rest;
      if p !in right {
        var others := if left[p] in paths then paths[left[p]] else {};
        paths := paths[left[p] := others + {p}];
      }
      rest := rest - {p};
    }
  }

  /** The renames whose entry is no longer among `rest`. */
  ghost predicate RenamesOf(before: Snapshot, after: Snapshot, rest: set<FileEntry>, renames: map<Path, Path>) {
    forall from, to :: (from in renames && renames[from] == to) <==>
      Renamed(before, after, from, to) && before[from] !in rest
  }

  /** Renames that are unambiguous on both sides. */
  method RenamesTo(before: Snapshot, after: Snapshot) returns (renames: map<Path, Path>)
    ensures forall from, to :: (from in renames && renames[from] == to) <==> Renamed(before, after, from, to)
  {
    hide UnmatchedIn, RenamesOf, Renamed;
    var removed := Unmatched(before, after);
    var added := Unmatched(after, before);
    renames := map[];
    var rest := removed.Keys;
    NoRenames(before, after, removed);
    while rest != {}
      invariant rest <= removed.Keys && RenamesOf(before, after, rest, renames)
      decreases |rest|
    {
      var e :| e in rest;
      if |removed[e]| == 1 && e in added && |added[e]| == 1 {
        var from :| from in removed[e];
        var to :| to in added[e];
        Only(removed[e], from);
        Only(added[e], to);
        RenameFound(before, after, removed, added, rest, renames, e, from, to);
        renames := renames[from := to];
      } else {
        RenameNone(before, after, removed, added, rest, renames, e);
      }
      rest := rest - {e};
    }
    AllRenames(before, after, renames);
  }

  lemma {:induction false} NoRenames(before: Snapshot, after: Snapshot, removed: map<FileEntry, set<Path>>)
    requires UnmatchedIn(before, after, removed)
    ensures RenamesOf(before, after, removed.Keys, map[])
  {
    forall from, to | Renamed(before, after, from, to) ensures before[from] in removed
    {
      assert from in before && from !in after;
    }
  }

  lemma {:induction false} AllRenames(before: Snapshot, after: Snapshot, renames: map<Path, Path>)
    requires RenamesOf(before, after, {}, renames)
    ensures forall from, to :: (from in renames && renames[from] == to) <==> Renamed(before, after, from, to)
  {
  }

  lemma {:induction false} RenameFound(before: Snapshot, after: Snapshot, removed: map<FileEntry, set<Path>>,
      added: map<FileEntry, set<Path>>,
                                       rest: set<FileEntry>, renames: map<Path, Path>, e: FileEntry, from: Path,
                                         to: Path)
    requires UnmatchedIn(before, after, removed) && UnmatchedIn(after, before, added)
      && RenamesOf(before, after, rest, renames)
    requires e in removed && removed[e] == {from} && e in added && added[e] == {to}
    ensures RenamesOf(before, after, rest - {e}, renames[from := to])
  {
    AloneRenamed(before, after, removed, added, e, from, to);
    var next := renames[from := to];
    forall p, q ensures (p in next && next[p] == q) <==> Renamed(before, after, p, q) && before[p] !in rest - {e}
    {
      if Renamed(before, after, p, q) && before[p] == e {
        RenameAlone(before, after, removed, added, p, q);
        assert p in removed[e] && q in added[e];
      }
      if p == from && Renamed(before, after, p, q) {
        assert before[p] == e;
      }
    }
  }

  lemma {:induction false} RenameNone(before: Snapshot, after: Snapshot, removed: map<FileEntry, set<Path>>,
      added: map<FileEntry, set<Path>>,
                                      rest: set<FileEntry>, renames: map<Path, Path>, e: FileEntry)
    requires UnmatchedIn(before, after, removed) && UnmatchedIn(after, before, added)
      && RenamesOf(before, after, rest, renames)
    requires !(e in removed && |removed[e]| == 1 && e in added && |added[e]| == 1)
    ensures RenamesOf(before, after, rest - {e}, renames)
  {
    forall p, q | Renamed(before, after, p, q) ensures before[p] != e
    {
      RenameAlone(before, after, removed, added, p, q);
    }
  }

  /** A rename's ends are the only unmatched paths with their entry. */
  lemma {:induction false} RenameAlone(before: Snapshot, after: Snapshot, removed: map<FileEntry, set<Path>>,
      added: map<FileEntry, set<Path>>, from: Path, to: Path)
    requires UnmatchedIn(before, after, removed) && UnmatchedIn(after, before, added)
    requires Renamed(before, after, from, to)
    ensures before[from] in removed && removed[before[from]] == {from}
    ensures before[from] in added && added[before[from]] == {to}
  {
    var e := before[from];
    assert from in removed[e] && to in added[e];
    forall p | p in removed[e] ensures p == from
    {
      assert p in before && p !in after && before[p] == e;
    }
    forall p | p in added[e] ensures p == to
    {
      assert p in after && p !in before && after[p] == e;
    }
    Single(removed[e], from);
    Single(added[e], to);
  }

  /** The only unmatched paths with one entry are a rename's ends. */
  lemma {:induction false} AloneRenamed(before: Snapshot, after: Snapshot, removed: map<FileEntry, set<Path>>,
      added: map<FileEntry, set<Path>>, e: FileEntry, from: Path, to: Path)
    requires UnmatchedIn(before, after, removed) && UnmatchedIn(after, before, added)
    requires e in removed && removed[e] == {from} && e in added && added[e] == {to}
    ensures Renamed(before, after, from, to) && before[from] == e
  {
    assert from in removed[e] && to in added[e];
    forall p | p in before && p !in after && before[p] == e ensures p == from
    {
      assert p in removed[e];
    }
    forall p | p in after && p !in before && after[p] == e ensures p == to
    {
      assert p in added[e];
    }
  }

  lemma {:induction false} Single(s: set<Path>, p: Path)
    requires p in s && forall q :: q in s ==> q == p
    ensures s == {p}
  {
  }

  lemma {:induction false} Only(s: set<Path>, p: Path)
    requires p in s && |s| == 1
    ensures s == {p}
  {
    assert |s - {p}| == 0;
  }
}
