/**
 Planning the refresh of a Layer's directory to its head (src/workspace/refresh.rs): a three-way plan
 over the files of the checkpoint last synced, of the directory and of the head, and what planning
 again finds once some of the writes have been made.
 */
module Refresh {
  import opened Names
  import opened Chunks
  import opened Directories
  import opened Apply
  import opened Domain
  import opened Intersecting

  /** Head changes to write, the paths in conflict, and the local edits the head does not touch. */
  datatype Plan = Plan(apply: Changeset, conflicts: set<Path>, kept: nat)

  // ------------------------------------------------------------------------------ planning

  /** Both sides changed a path, differently. */
  predicate ChangedBoth(local: Changeset, theirs: Changeset, p: Path) {
    p in local && p in theirs && local[p] != theirs[p]
  }

  /** A local file below a file the head writes. */
  predicate UnderHeadFile(local: Changeset, theirs: Changeset, p: Path) {
    p in local && local[p].Some? && exists a :: a in theirs && a != [] && a < p && theirs[a].Some?
  }

  function Untouched(local: Changeset, theirs: Changeset): set<Path> {
    set p | p in local && p !in theirs
  }

  /** The head's changes of paths the directory still holds as synced. */
  function ToApply(local: Changeset, theirs: Changeset): Changeset {
    map p | p in theirs && p !in local :: theirs[p]
  }

  /** The three-way decision over local edits and head changes. */
  method PlanRefresh(local: Changeset, theirs: Changeset) returns (plan: Plan)
    ensures plan.apply == ToApply(local, theirs) && plan.kept == |Untouched(local, theirs)|
    ensures forall p :: p in plan.conflicts <==> ChangedBoth(local, theirs, p) || UnderHeadFile(local, theirs, p)
  {
    var apply: Changeset, conflicts: set<Path> := map[], {};
    var rest := theirs.Keys;
    while rest != {}
      invariant rest <= theirs.Keys
      invariant forall p :: p in apply <==> p in theirs && p !in rest && p !in local
      invariant forall p :: p in apply ==> apply[p] == theirs[p]
      invariant forall p :: p in conflicts <==> p !in rest && ChangedBoth(local, theirs, p)
      decreases |rest|
    {
      var p :| p in rest;
      rest := rest - {p};
      if p !in local {
        apply := apply[p := theirs[p]];
      } else if local[p] != theirs[p] {
        conflicts := conflicts + {p};
      }
    }
    rest := local.Keys;
    while rest != {}
      invariant rest <= local.Keys
      invariant forall p :: p in conflicts <==>
        ChangedBoth(local, theirs, p) || (p !in rest && UnderHeadFile(local, theirs, p))
      decreases |rest|
    {
      var p :| p in rest;
      rest := rest - {p};
      if local[p].Some? {
        if exists a :: a in Ancestors(p) && a in theirs && theirs[a].Some? {
          conflicts := conflicts + {p};
        }
      }
    }
    assert apply == ToApply(local, theirs);
    plan := Plan(apply, conflicts, |Untouched(local, theirs)|);
  }

  function Removals(apply: Changeset): set<Path> {
    set p | p in apply && apply[p] == None
  }

  /** A removed ancestor frees a path. */
  predicate Freed(p: Path, gone: set<Path>) {
    exists a :: a in gone && a != [] && a < p
  }

  /** A file where a path needs a parent directory. */
  predicate FileAbove(files: Snapshot, p: Path) {
    exists a :: a in files && a != [] && a < p
  }

  /** The local edits and the head renamed one path to different destinations. */
  ghost predicate RenameConflict(synced: Snapshot, files: Snapshot, head: Snapshot) {
    exists from, to, other :: Renamed(synced, files, from, to) && Renamed(synced, head, from, other) && to != other
  }

  /** The local edits and the head's changes go together. */
  ghost predicate Agree(synced: Snapshot, files: Snapshot, head: Snapshot) {
    var local, theirs := Differences(synced, files), Differences(synced, head);
    && (forall p :: !ChangedBoth(local, theirs, p) && !UnderHeadFile(local, theirs, p))
    && !RenameConflict(synced, files, head)
  }

  function Writes(synced: Snapshot, files: Snapshot, head: Snapshot): Changeset {
    ToApply(Differences(synced, files), Differences(synced, head))
  }

  /** What a write set holds, pointwise. */
  lemma {:induction false} WritesAre(synced: Snapshot, files: Snapshot, head: Snapshot, p: Path)
    ensures p in Writes(synced, files, head) <==>
      EntryAt(synced, p) != EntryAt(head, p) && EntryAt(files, p) == EntryAt(synced, p)
    ensures p in Writes(synced, files, head) ==> Writes(synced, files, head)[p] == EntryAt(head, p)
  {
  }

  // -------------------------------------------------------------------------- interruption

  /** Some of the writes have been made. */
  function Partly(files: Snapshot, apply: Changeset, done: set<Path>): Snapshot {
    Changed(files, map p | p in apply && p in done :: apply[p])
  }

  lemma {:induction false} PartlyAt(files: Snapshot, apply: Changeset, done: set<Path>, p: Path)
    ensures EntryAt(Partly(files, apply, done), p) == if p in apply && p in done then apply[p] else EntryAt(files, p)
  {
  }

  lemma {:induction false} EntryKnown(files: Snapshot, p: Path)
    ensures p in files <==> EntryAt(files, p).Some?
    ensures p in files ==> files[p] == EntryAt(files, p).value
  {
  }

  /** A write an interrupted refresh made is not made again, and every other is. */
  lemma {:induction false} RestWrites(synced: Snapshot, files: Snapshot, head: Snapshot, done: set<Path>)
    ensures var apply := Writes(synced, files, head);
      Writes(synced, Partly(files, apply, done), head) == map p | p in apply && p !in done :: apply[p]
  {
    hide EntryAt, Partly, Writes;
    var apply := Writes(synced, files, head);
    var after := Partly(files, apply, done);
    var rest := Writes(synced, after, head);
    forall p ensures p in rest <==> p in apply && p !in done
      ensures p in rest ==> rest[p] == apply[p]
    {
      WritesAre(synced, files, head, p);
      WritesAre(synced, after, head, p);
      PartlyAt(files, apply, done, p);
    }
  }

  /** Finishing the rest gives what an uninterrupted refresh gives. */
  lemma {:induction false} Converges(synced: Snapshot, files: Snapshot, head: Snapshot, done: set<Path>)
    ensures var apply := Writes(synced, files, head);
      var after := Partly(files, apply, done);
      Changed(after, Writes(synced, after, head)) == Changed(files, apply)
  {
    hide EntryAt, Writes;
    var apply := Writes(synced, files, head);
    var after := Partly(files, apply, done);
    RestWrites(synced, files, head, done);
    forall p ensures EntryAt(Changed(after, Writes(synced, after, head)), p) == EntryAt(Changed(files, apply), p)
    {
      PartlyAt(files, apply, done, p);
    }
    SameFiles(Changed(after, Writes(synced, after, head)), Changed(files, apply));
  }

  /** A finished refresh holds the head wherever the head changed something, and the local edits everywhere else. */
  lemma {:induction false} RefreshedHolds(synced: Snapshot, files: Snapshot, head: Snapshot, p: Path)
    requires Agree(synced, files, head)
    ensures var after := Changed(files, Writes(synced, files, head));
      EntryAt(after, p) == if EntryAt(synced, p) != EntryAt(head, p) then EntryAt(head, p) else EntryAt(files, p)
  {
    hide EntryAt, RenameConflict;
    WritesAre(synced, files, head, p);
    assert !ChangedBoth(Differences(synced, files), Differences(synced, head), p);
  }

  // ------------------------------------------------------------------- planning it again

  /** Conflicts of content never arise from the refresh's own writes. */
  lemma {:induction false} NoNewChanges(synced: Snapshot, files: Snapshot, head: Snapshot, done: set<Path>, p: Path)
    requires Agree(synced, files, head) && PrefixFree(head)
    ensures var after := Partly(files, Writes(synced, files, head), done);
      var local, theirs := Differences(synced, after), Differences(synced, head);
      !ChangedBoth(local, theirs, p) && !UnderHeadFile(local, theirs, p)
  {
    hide EntryAt, RenameConflict, Partly, Writes;
    var apply := Writes(synced, files, head);
    var after := Partly(files, apply, done);
    var before, local, theirs := Differences(synced, files), Differences(synced, after), Differences(synced, head);
    PartlyAt(files, apply, done, p);
    WritesAre(synced, files, head, p);
    assert !ChangedBoth(before, theirs, p) && !UnderHeadFile(before, theirs, p);
    if UnderHeadFile(local, theirs, p) {
      var a :| a in theirs && a != [] && a < p && theirs[a].Some?;
      EntryKnown(head, a);
      EntryKnown(head, p);
    }
  }

  /** A file above a remaining addition is one that a remaining removal frees it from. */
  lemma {:induction false} AboveStays(synced: Snapshot, files: Snapshot, head: Snapshot, done: set<Path>, p: Path,
      a: Path)
    requires PrefixFree(head) && PrefixFree(files)
    requires var apply := Writes(synced, files, head);
      var after := Partly(files, apply, done);
      && p in apply && p !in done && apply[p].Some? && (FileAbove(files, p) ==> Freed(p, Removals(apply)))
      && a in after && a != [] && a < p
    ensures Freed(p, Removals(Writes(synced, Partly(files, Writes(synced, files, head), done), head)))
  {
    hide EntryAt, Partly, Writes;
    var apply := Writes(synced, files, head);
    var after := Partly(files, apply, done);
    RestWrites(synced, files, head, done);
    PartlyAt(files, apply, done, a);
    WritesAre(synced, files, head, a);
    WritesAre(synced, files, head, p);
    EntryKnown(after, a);
    EntryKnown(files, a);
    EntryKnown(head, a);
    EntryKnown(head, p);
    assert a in files;
    assert Freed(p, Removals(apply));
    var g :| g in Removals(apply) && g != [] && g < p;
    WritesAre(synced, files, head, g);
    EntryKnown(files, g);
    EntryKnown(synced, g);
    EntryKnown(head, g);
    assert a == g by { PrefixesMeet(a, g, p); }
    var rest := Writes(synced, after, head);
    assert g in rest && rest[g] == None;
    assert g in Removals(rest);
  }

  lemma {:induction false} PrefixesMeet(a: Path, g: Path, p: Path)
    requires a < p && g < p
    ensures a == g || a < g || g < a
  {
    assert a == p[..|a|] && g == p[..|g|];
    if |a| < |g| {
      assert a == g[..|a|];
    } else if |g| < |a| {
      assert g == a[..|g|];
    }
  }

  // -------------------------------------------------------------------------------- renames

  /**
   A head rename not yet applied at either end, whose entry the directory holds at exactly one new
   path of its own and has removed nowhere. Once the origin is removed and before the destination is
   added, the new path looks like a local rename of the origin.
   */
  ghost predicate LooksRenamed(synced: Snapshot, files: Snapshot, head: Snapshot, from: Path, to: Path, other: Path) {
    && Renamed(synced, head, from, other) && from in files && other !in files
    && to in files && to !in synced && files[to] == synced[from]
    && (forall q :: q in files && q !in synced && files[q] == synced[from] ==> q == to)
    && (forall v :: v in synced && v !in files ==> synced[v] != synced[from])
  }

  ghost predicate CopyOfRenamed(synced: Snapshot, files: Snapshot, head: Snapshot) {
    exists from, to, other :: LooksRenamed(synced, files, head, from, to, other)
  }

  /** Where a path stands after some of the writes: as before, or as in the head. */
  lemma {:induction false} PartlyIs(synced: Snapshot, files: Snapshot, head: Snapshot, done: set<Path>, p: Path)
    ensures var apply := Writes(synced, files, head);
      var after := Partly(files, apply, done);
      && (p in apply && p in done ==>
        EntryAt(after, p) == EntryAt(head, p) && EntryAt(files, p) == EntryAt(synced, p) != EntryAt(head, p))
      && (!(p in apply && p in done) ==> EntryAt(after, p) == EntryAt(files, p))
      && (p in after <==> EntryAt(after, p).Some?) && (p in files <==> EntryAt(files, p).Some?)
      && (p in head <==> EntryAt(head, p).Some?) && (p in synced <==> EntryAt(synced, p).Some?)
      && (p in after ==> EntryAt(after, p) == Some(after[p])) && (p in files ==> EntryAt(files, p) == Some(files[p]))
      && (p in head ==> EntryAt(head, p) == Some(head[p])) && (p in synced ==> EntryAt(synced, p) == Some(synced[p]))
  {
    hide Writes, Partly;
    WritesAre(synced, files, head, p);
    PartlyAt(files, Writes(synced, files, head), done, p);
  }

  /** A rename that only the interrupted refresh shows is the copy of a head rename. */
  lemma {:induction false} NewRename(synced: Snapshot, files: Snapshot, head: Snapshot, done: set<Path>, from: Path,
      to: Path, other: Path)
    requires Agree(synced, files, head)
    requires var after := Partly(files, Writes(synced, files, head), done);
      Renamed(synced, after, from, to) && Renamed(synced, head, from, other) && to != other
    ensures LooksRenamed(synced, files, head, from, to, other)
  {
    hide EntryAt, Writes, Partly, Renamed, LooksRenamed, UnderHeadFile, ChangedBoth;
    RenameShown(synced, files, head, done, from, to, other);
    assert !ChangedBoth(Differences(synced, files), Differences(synced, head), other);
    assert !RenameConflict(synced, files, head);
  }

  /** Whether or not the directory had conflicts, such a rename is one of three things. */
  lemma {:induction false} RenameShown(synced: Snapshot, files: Snapshot, head: Snapshot, done: set<Path>, from: Path,
      to: Path, other: Path)
    requires var after := Partly(files, Writes(synced, files, head), done);
      Renamed(synced, after, from, to) && Renamed(synced, head, from, other) && to != other
    ensures
      || ChangedBoth(Differences(synced, files), Differences(synced, head), other)
      || Renamed(synced, files, from, to)
      || LooksRenamed(synced, files, head, from, to, other)
  {
    hide EntryAt, Writes, Partly;
    var after := Partly(files, Writes(synced, files, head), done);
    PartlyIs(synced, files, head, done, from);
    PartlyIs(synced, files, head, done, to);
    PartlyIs(synced, files, head, done, other);
    NewDestination(synced, files, head, done, from, to, other);
    forall q | q in files && q !in synced && files[q] == synced[from] ensures q == to
    {
      PartlyIs(synced, files, head, done, q);
    }
    forall v | v in synced && v !in files && synced[v] == synced[from] ensures v == from && v !in after
    {
      PartlyIs(synced, files, head, done, v);
    }
  }

  lemma {:induction false} NewDestination(synced: Snapshot, files: Snapshot, head: Snapshot, done: set<Path>,
      from: Path, to: Path, other: Path)
    requires var after := Partly(files, Writes(synced, files, head), done);
      Renamed(synced, after, from, to) && Renamed(synced, head, from, other) && to != other
    ensures to in files && to !in synced && files[to] == synced[from]
    ensures other in files ==> ChangedBoth(Differences(synced, files), Differences(synced, head), other)
  {
    hide EntryAt, Writes, Partly;
    PartlyIs(synced, files, head, done, to);
    PartlyIs(synced, files, head, done, other);
  }

  /** Whether planning again after these writes would find that local edits and head disagree. */
  lemma {:induction false} AgreesAgain(synced: Snapshot, files: Snapshot, head: Snapshot, done: set<Path>)
    requires Agree(synced, files, head) && PrefixFree(head)
    ensures var after := Partly(files, Writes(synced, files, head), done);
      Agree(synced, after, head) <==> !RenameConflict(synced, after, head)
  {
    hide EntryAt, Partly, UnderHeadFile, ChangedBoth, RenameConflict, Writes;
    var after := Partly(files, Writes(synced, files, head), done);
    forall p ensures !ChangedBoth(Differences(synced, after), Differences(synced, head), p)
      && !UnderHeadFile(Differences(synced, after), Differences(synced, head), p)
    {
      NoNewChanges(synced, files, head, done, p);
    }
  }

  lemma {:induction false} WritesDefined(synced: Snapshot, files: Snapshot, head: Snapshot)
    ensures Writes(synced, files, head) == ToApply(Differences(synced, files), Differences(synced, head))
  {
  }

  lemma {:induction false} NoNewRename(synced: Snapshot, files: Snapshot, head: Snapshot, done: set<Path>)
    requires Agree(synced, files, head) && !CopyOfRenamed(synced, files, head)
    ensures !RenameConflict(synced, Partly(files, Writes(synced, files, head), done), head)
  {
    hide EntryAt, Partly, Writes, Agree, LooksRenamed, Renamed;
    var after := Partly(files, Writes(synced, files, head), done);
    if from, to, other :| Renamed(synced, after, from, to) && Renamed(synced, head, from, other) && to != other {
      NewRename(synced, files, head, done, from, to, other);
    }
  }

  /** Interrupted once the origin is removed and before an addition, such a refresh finds a rename conflict. */
  lemma {:induction false} CopyConflicts(synced: Snapshot, files: Snapshot, head: Snapshot, done: set<Path>,
      from: Path, to: Path, other: Path)
    requires Agree(synced, files, head) && LooksRenamed(synced, files, head, from, to, other)
    requires from in done && done <= Removals(Writes(synced, files, head))
    ensures RenameConflict(synced, Partly(files, Writes(synced, files, head), done), head)
  {
    hide EntryAt, Partly, Writes, UnderHeadFile, RenameConflict;
    var apply := Writes(synced, files, head);
    var after := Partly(files, apply, done);
    PartlyIs(synced, files, head, done, from);
    PartlyIs(synced, files, head, done, to);
    PartlyIs(synced, files, head, done, other);
    OriginRemoved(synced, files, head, from, other);
    forall q | q in after && q !in synced && after[q] == synced[from] ensures q == to
    {
      PartlyIs(synced, files, head, done, q);
      WritesAre(synced, files, head, q);
    }
    forall v | v in synced && v !in after && synced[v] == synced[from] ensures v == from
    {
      PartlyIs(synced, files, head, done, v);
    }
    WritesAre(synced, files, head, to);
    assert Renamed(synced, after, from, to);
    assert to != other;
    RenameConflicts(synced, after, head, from, to, other);
  }

  lemma {:induction false} RenameConflicts(synced: Snapshot, files: Snapshot, head: Snapshot, from: Path, to: Path,
      other: Path)
    requires Renamed(synced, files, from, to) && Renamed(synced, head, from, other) && to != other
    ensures RenameConflict(synced, files, head)
  {
    hide Renamed;
  }

  /** The origin of a head rename that the directory still holds is removed by the refresh. */
  lemma {:induction false} OriginRemoved(synced: Snapshot, files: Snapshot, head: Snapshot, from: Path, other: Path)
    requires Agree(synced, files, head) && Renamed(synced, head, from, other) && from in files
    ensures from in Removals(Writes(synced, files, head))
  {
    hide EntryAt, Writes, UnderHeadFile, RenameConflict;
    WritesAre(synced, files, head, from);
    EntryKnown(synced, from);
    EntryKnown(files, from);
    EntryKnown(head, from);
    var local, theirs := Differences(synced, files), Differences(synced, head);
    assert !ChangedBoth(local, theirs, from);
  }
}
