/**
 A refresh at work on a Layer's directory (src/workspace/refresh.rs): what on disk blocks it, the
 elementary steps of its writes, and when an interrupted refresh can be run again. Directories are part
 of the state, because a removal unlinks a file and only then removes the directories it left empty.
 */
module Workspaces {
  import opened Names
  import opened Chunks
  import opened Directories
  import opened Apply
  import opened Domain
  import opened Intersecting
  import opened Refresh

  /** A directory on disk: its files, and every directory in it, empty ones included. */
  datatype Disk = Disk(files: Snapshot, dirs: set<Path>)

  predicate Entry(disk: Disk, p: Path) {
    p in disk.files || p in disk.dirs
  }

  /** Nothing is both a file and a directory, and everything above an entry is a directory. */
  ghost predicate Tree(disk: Disk) {
    && [] !in disk.files && [] !in disk.dirs
    && (forall p :: p in disk.files ==> p !in disk.dirs)
    && (forall p, a :: Entry(disk, p) && a != [] && a < p ==> a in disk.dirs)
  }

  lemma {:induction false} TreePrefixFree(disk: Disk)
    requires Tree(disk)
    ensures PrefixFree(disk.files)
  {
    forall p, q | p in disk.files && q in disk.files ensures !(p < q)
    {
      assert Entry(disk, q) && p != [];
    }
  }

  // ------------------------------------------------------------------------------- blocked

  predicate RemovedUnder(gone: set<Path>, dir: Path) {
    exists r :: r in gone && dir < r
  }

  function Children(disk: Disk, dir: Path): set<Path> {
    set p | p in disk.files.Keys + disk.dirs && dir < p && |p| == |dir| + 1
  }

  function DirsBelow(disk: Disk, dir: Path): set<Path> {
    set d | d in disk.dirs && dir < d
  }

  /** Whether the removals leave a directory with nothing in it, entry by entry. */
  predicate Empties(disk: Disk, dir: Path, gone: set<Path>)
    decreases |DirsBelow(disk, dir)|
  {
    forall c :: c in Children(disk, dir) ==>
      if c in disk.dirs then
        DirsFewer(disk, dir, c);
        RemovedUnder(gone, c) && Empties(disk, c, gone)
      else c in gone
  }

  lemma {:induction false} DirsFewer(disk: Disk, dir: Path, below: Path)
    requires below in disk.dirs && dir < below
    ensures |DirsBelow(disk, below)| < |DirsBelow(disk, dir)|
  {
    assert DirsBelow(disk, below) <= DirsBelow(disk, dir) - {below};
    SmallerSet(DirsBelow(disk, below), DirsBelow(disk, dir) - {below});
  }

  /** Below the directory, every file is removed and every directory has a removal under it. */
  ghost predicate Emptied(disk: Disk, dir: Path, gone: set<Path>) {
    && (forall p :: p in disk.files && dir < p ==> p in gone)
    && (forall d :: d in disk.dirs && dir < d ==> RemovedUnder(gone, d))
  }

  /** The walk over a directory's entries decides whether the removals empty it. */
  lemma {:induction false} EmptiesExactly(disk: Disk, dir: Path, gone: set<Path>)
    requires Tree(disk)
    ensures Empties(disk, dir, gone) <==> Emptied(disk, dir, gone)
    decreases |DirsBelow(disk, dir)|
  {
    hide RemovedUnder;
    forall c | c in Children(disk, dir) && c in disk.dirs
      ensures Empties(disk, c, gone) <==> Emptied(disk, c, gone)
    {
      DirsFewer(disk, dir, c);
      EmptiesExactly(disk, c, gone);
    }
    if Empties(disk, dir, gone) {
      forall p | Entry(disk, p) && dir < p
        ensures if p in disk.dirs then RemovedUnder(gone, p) else p in gone
      {
        ChildAbove(disk, dir, p);
      }
    } else {
      var c :| c in Children(disk, dir)
        && !(if c in disk.dirs then RemovedUnder(gone, c) && Emptied(disk, c, gone) else c in gone);
      assert dir < c;
      if Emptied(disk, dir, gone) && c in disk.dirs {
        EmptiedBelow(disk, dir, c, gone);
      }
    }
  }

  lemma {:induction false} EmptiedBelow(disk: Disk, dir: Path, below: Path, gone: set<Path>)
    requires Emptied(disk, dir, gone) && dir < below
    ensures Emptied(disk, below, gone)
  {
  }

  /** An entry below a directory is one of its children or lies below a directory that is. */
  lemma {:induction false} ChildAbove(disk: Disk, dir: Path, p: Path)
    requires Tree(disk) && Entry(disk, p) && dir < p
    ensures var c := p[..|dir| + 1];
      c in Children(disk, dir) && (c == p || (c < p && c in disk.dirs))
  {
    var c := p[..|dir| + 1];
    assert c == p || c < p;
    assert dir < c;
  }

  /**
   A head addition that something on disk blocks: a file above it, or a directory at its path that the
   removals do not empty. A path below a removed file is free.
   */
  predicate Blocked(disk: Disk, apply: Changeset, p: Path) {
    var gone := Removals(apply);
    && p in apply && apply[p].Some? && !Freed(p, gone)
    && (FileAbove(disk.files, p) || (p in disk.dirs && !(RemovedUnder(gone, p) && Empties(disk, p, gone))))
  }

  predicate Removes(apply: Changeset, p: Path) {
    p in apply && apply[p] == None
  }

  /** The directory at a path gives way: something below it is removed, and nothing is left in it or in those below. */
  ghost predicate GivesWay(disk: Disk, apply: Changeset, dir: Path) {
    && (exists r :: dir < r && Removes(apply, r))
    && (forall q :: q in disk.files && dir < q ==> Removes(apply, q))
    && (forall d :: d in disk.dirs && dir < d ==> exists r :: d < r && Removes(apply, r))
  }

  lemma {:induction false} RemovesUnder(apply: Changeset, dir: Path)
    ensures RemovedUnder(Removals(apply), dir) <==> exists r :: dir < r && Removes(apply, r)
  {
    if RemovedUnder(Removals(apply), dir) {
      var r :| r in Removals(apply) && dir < r;
      assert Removes(apply, r);
    }
    if r :| dir < r && Removes(apply, r) {
      assert r in Removals(apply);
    }
  }

  lemma {:induction false} EmptiedGives(disk: Disk, apply: Changeset, dir: Path)
    requires Tree(disk)
    ensures GivesWay(disk, apply, dir) <==>
      RemovedUnder(Removals(apply), dir) && Empties(disk, dir, Removals(apply))
  {
    hide Tree, Empties;
    EmptiesExactly(disk, dir, Removals(apply));
    RemovesUnder(apply, dir);
    hide RemovedUnder;
    forall d ensures RemovedUnder(Removals(apply), d) <==> exists r :: d < r && Removes(apply, r)
    {
      RemovesUnder(apply, d);
    }
  }

  /** Below a removed file there is no other file above the path, and no directory at it. */
  lemma {:induction false} FreedAlone(disk: Disk, apply: Changeset, p: Path)
    requires Tree(disk) && Freed(p, Removals(apply)) && forall r :: Removes(apply, r) ==> r in disk.files
    ensures p !in disk.dirs && forall a :: a in disk.files && a < p ==> Removes(apply, a)
  {
    var g :| g in Removals(apply) && g != [] && g < p;
    assert Removes(apply, g) && g in disk.files && g !in disk.dirs;
    assert p in disk.dirs ==> Entry(disk, p);
    forall a | a in disk.files && a < p ensures a == g
    {
      PrefixesMeet(a, g, p);
      assert Entry(disk, a) && Entry(disk, g);
    }
  }

  /**
   An addition is blocked exactly by a file above it that stays, or by a directory at its path that
   does not give way.
   */
  lemma {:induction false} BlockedExactly(disk: Disk, apply: Changeset, p: Path)
    requires Tree(disk) && forall r :: Removes(apply, r) ==> r in disk.files
    ensures Blocked(disk, apply, p) <==>
      && p in apply && apply[p].Some?
      && ((exists a :: a in disk.files && a < p && !Removes(apply, a))
          || (p in disk.dirs && !GivesWay(disk, apply, p)))
  {
    hide Empties, GivesWay, RemovedUnder;
    EmptiedGives(disk, apply, p);
    if Freed(p, Removals(apply)) {
      FreedAlone(disk, apply, p);
    } else {
      forall a | a in disk.files && a < p ensures a != [] && !Removes(apply, a)
      {
        assert Removes(apply, a) ==> a in Removals(apply);
      }
    }
  }

  /** Nothing stands in the way of a refresh. */
  ghost predicate ConflictFree(synced: Snapshot, disk: Disk, head: Snapshot) {
    && Agree(synced, disk.files, head)
    && forall p :: !Blocked(disk, Writes(synced, disk.files, head), p)
  }

  // --------------------------------------------------------------------------- one refresh

  /** The writes in the order they are made: every removal before every addition. */
  ghost predicate Ordered(apply: Changeset, order: seq<Path>) {
    && (forall i, j :: 0 <= i < j < |order| ==> order[i] != order[j])
    && (forall p :: p in order <==> p in apply)
    && (forall i, j :: 0 <= i < j < |order| && apply[order[j]] == None ==> apply[order[i]] == None)
  }

  /** One refresh: what it starts from, what it aims at, and the order of its writes. */
  datatype Job = Job(synced: Snapshot, before: Disk, head: Snapshot, order: seq<Path>) {
    function Apply(): Changeset {
      Writes(synced, before.files, head)
    }
  }

  /** A refresh that starts: nothing stands in its way. */
  ghost predicate Starts(job: Job) {
    && Tree(job.before) && PrefixFree(job.head) && ConflictFree(job.synced, job.before, job.head)
    && Ordered(job.Apply(), job.order)
  }

  /**
   Where a refresh stands: how many paths are unlinked or placed, the directory it will try to remove
   next after a removal, and how many parents of the next addition it has made.
   */
  datatype Moment = Moment(disk: Disk, written: nat, climb: Path, made: nat)

  function Parent(p: Path): Path {
    if p == [] then [] else p[..|p| - 1]
  }

  /** A directory with nothing in it, which is what can be removed. */
  predicate Vacant(disk: Disk, dir: Path) {
    dir in disk.dirs && forall p :: p in disk.files.Keys + disk.dirs ==> !(dir < p)
  }

  function MakeDir(disk: Disk, dir: Path): Disk {
    disk.(dirs := disk.dirs + {dir})
  }

  function RemoveDir(disk: Disk, dir: Path): Disk {
    disk.(dirs := disk.dirs - {dir})
  }

  /** One system call: unlinking, removing an emptied parent, making a parent, or renaming a copy into place. */
  function Step(apply: Changeset, order: seq<Path>, m: Moment): Moment
    requires forall p :: p in order ==> p in apply
  {
    if m.climb != [] then
      if Vacant(m.disk, m.climb) then m.(disk := RemoveDir(m.disk, m.climb), climb := Parent(m.climb))
      else m.(climb := [])
    else if m.written >= |order| then m
    else
      var p := order[m.written];
      assert p in order;
      if apply[p] == None then Moment(m.disk.(files := m.disk.files - {p}), m.written + 1, Parent(p), 0)
      else if m.made + 1 < |p| then m.(disk := MakeDir(m.disk, p[..m.made + 1]), made := m.made + 1)
      else Moment(m.disk.(files := m.disk.files[p := apply[p].value]), m.written + 1, [], 0)
  }

  /** Where a refresh stands after `k` steps. */
  ghost function Run(job: Job, k: nat): Moment
    requires Ordered(job.Apply(), job.order)
  {
    if k == 0 then Moment(job.before, 0, [], 0) else Step(job.Apply(), job.order, Run(job, k - 1))
  }

  function Done(order: seq<Path>, n: nat): set<Path>
    requires n <= |order|
  {
    set p | p in order[..n]
  }

  // ------------------------------------------------------------------------ while it runs

  /** Whether any addition has begun. */
  predicate Adding(job: Job, m: Moment)
    requires m.written <= |job.order| && Ordered(job.Apply(), job.order)
  {
    m.made > 0 || (m.written > 0 && !Removal(job, m.written - 1))
  }

  predicate Removal(job: Job, i: nat)
    requires i < |job.order| && Ordered(job.Apply(), job.order)
  {
    assert job.order[i] in job.order;
    job.Apply()[job.order[i]] == None
  }

  /** A directory that lost something below it holds something still, unless it is next to be tried. */
  ghost predicate Pruned(disk: Disk, done: set<Path>, climb: Path) {
    forall d :: d in disk.dirs && RemovedUnder(done, d) && !(climb != [] && d <= climb) ==>
      exists e :: Entry(disk, e) && d < e
  }

  /** No directory stands where the head writes a file. */
  ghost predicate NoDirs(disk: Disk, apply: Changeset) {
    forall p :: p in apply && apply[p].Some? ==> p !in disk.dirs
  }

  /** The parents of the next addition that are made. */
  ghost predicate Made(disk: Disk, p: Path, made: nat) {
    made < |p| && forall k :: 0 < k <= made ==> p[..k] in disk.dirs
  }

  /** What holds after every step. */
  ghost predicate Midway(job: Job, m: Moment)
    requires Ordered(job.Apply(), job.order)
  {
    && m.written <= |job.order| && Tree(m.disk)
    && m.disk.files == Partly(job.before.files, job.Apply(), Done(job.order, m.written))
    && (m.climb != [] ==>
          m.climb in m.disk.dirs && m.made == 0 && m.written > 0 && Removal(job, m.written - 1)
          && m.climb < job.order[m.written - 1])
    && (m.made > 0 ==>
      m.written < |job.order| && !Removal(job, m.written) && Made(m.disk, job.order[m.written], m.made))
    && (if Adding(job, m) then NoDirs(m.disk, job.Apply())
        else m.disk.dirs <= job.before.dirs && Pruned(m.disk, Done(job.order, m.written), m.climb))
  }

  lemma {:induction false} BeginsMidway(job: Job)
    requires Starts(job)
    ensures Midway(job, Moment(job.before, 0, [], 0))
  {
    hide Writes, Tree;
    assert Done(job.order, 0) == {};
    NothingDone(job.before.files, job.Apply());
  }

  lemma {:induction false} NothingDone(files: Snapshot, apply: Changeset)
    ensures Partly(files, apply, {}) == files
  {
    SameFiles(Partly(files, apply, {}), files);
  }

  lemma {:induction false} PartlyMore(files: Snapshot, apply: Changeset, done: set<Path>, p: Path)
    requires p in apply
    ensures Partly(files, apply, done + {p}) == Set(Partly(files, apply, done), p, apply[p])
  {
    hide Partly, EntryAt, Set;
    forall q ensures EntryAt(Partly(files, apply, done + {p}), q) ==
      EntryAt(Set(Partly(files, apply, done), p, apply[p]), q)
    {
      PartlyAt(files, apply, done + {p}, q);
      PartlyAt(files, apply, done, q);
    }
    SameFiles(Partly(files, apply, done + {p}), Set(Partly(files, apply, done), p, apply[p]));
  }

  lemma {:induction false} DoneMore(order: seq<Path>, n: nat)
    requires n < |order|
    ensures Done(order, n + 1) == Done(order, n) + {order[n]}
  {
    assert order[..n + 1] == order[..n] + [order[n]];
  }

  /** What is done is what the order says; a path's own write is not done before its turn. */
  lemma {:induction false} DoneIs(job: Job, n: nat)
    requires Ordered(job.Apply(), job.order) && n <= |job.order|
    ensures Done(job.order, n) <= job.Apply().Keys
    ensures n < |job.order| ==> job.order[n] !in Done(job.order, n)
    ensures n > 0 && Removal(job, n - 1) ==> Done(job.order, n) <= Removals(job.Apply())
    ensures n < |job.order| && !Removal(job, n) ==> Removals(job.Apply()) <= Done(job.order, n)
    ensures n == |job.order| ==> Done(job.order, n) == job.Apply().Keys
  {
    hide Writes;
    var order := job.order;
    forall p | p in Done(order, n) ensures p in job.Apply()
      ensures n > 0 && Removal(job, n - 1) ==> p in Removals(job.Apply())
    {
      var i :| 0 <= i < n && order[i] == p;
      assert p in order;
    }
    forall p | p in job.Apply() && p !in Done(order, n)
      ensures n < |order| && (!Removal(job, n) ==> job.Apply()[p].Some?)
    {
      var i :| 0 <= i < |order| && order[i] == p;
      DoneHas(order, n, i);
    }
  }

  lemma {:induction false} DoneHas(order: seq<Path>, n: nat, i: nat)
    requires n <= |order| && i < |order|
    ensures i < n ==> order[i] in Done(order, n)
  {
    assert i < n ==> order[..n][i] == order[i];
  }

  // ------------------------------------------------------------------------------ removing

  lemma {:induction false} StepUnlinks(job: Job, m: Moment)
    requires Starts(job) && Midway(job, m) && m.climb == [] && m.written < |job.order| && Removal(job, m.written)
    ensures Midway(job, Step(job.Apply(), job.order, m))
  {
    hide Writes, Partly, ConflictFree;
    var p, done := job.order[m.written], Done(job.order, m.written);
    var next := Step(job.Apply(), job.order, m);
    assert !Adding(job, m) by { NotAdding(job, m); }
    DoneMore(job.order, m.written);
    assert p in job.Apply() by { InOrder(job, m.written); }
    PartlyMore(job.before.files, job.Apply(), done, p);
    assert p in m.disk.files by { StillThere(job, m.written, p); }
    UnlinkTree(m.disk, p);
    UnlinkPruned(m.disk, done, p);
  }

  lemma {:induction false} InOrder(job: Job, i: nat)
    requires Ordered(job.Apply(), job.order) && i < |job.order|
    ensures job.order[i] in job.Apply()
  {
    assert job.order[i] in job.order;
  }

  /** Nothing is added before the last removal. */
  lemma {:induction false} NotAdding(job: Job, m: Moment)
    requires Ordered(job.Apply(), job.order) && Midway(job, m)
    requires m.written < |job.order| && Removal(job, m.written)
    ensures !Adding(job, m)
  {
    hide Writes, Partly, Tree, Pruned, NoDirs, Made;
  }

  /** A path to remove is a file until it is unlinked. */
  lemma {:induction false} StillThere(job: Job, n: nat, p: Path)
    requires Ordered(job.Apply(), job.order) && n < |job.order| && p == job.order[n] && Removal(job, n)
    ensures p in job.before.files && p in Partly(job.before.files, job.Apply(), Done(job.order, n))
  {
    hide EntryAt, Writes, Partly;
    DoneIs(job, n);
    InOrder(job, n);
    WritesAre(job.synced, job.before.files, job.head, p);
    PartlyAt(job.before.files, job.Apply(), Done(job.order, n), p);
    EntryKnown(job.before.files, p);
    EntryKnown(job.synced, p);
    EntryKnown(job.head, p);
    EntryKnown(Partly(job.before.files, job.Apply(), Done(job.order, n)), p);
  }

  lemma {:induction false} UnlinkTree(disk: Disk, p: Path)
    requires Tree(disk) && p in disk.files
    ensures Tree(disk.(files := disk.files - {p}))
    ensures Parent(p) != [] ==> Parent(p) in disk.dirs && Parent(p) < p
  {
    var next := disk.(files := disk.files - {p});
    assert forall q :: Entry(next, q) ==> Entry(disk, q);
    assert Entry(disk, p);
  }

  lemma {:induction false} UnlinkPruned(disk: Disk, done: set<Path>, p: Path)
    requires Tree(disk) && p in disk.files && Pruned(disk, done, [])
    ensures Pruned(disk.(files := disk.files - {p}), done + {p}, Parent(p))
  {
    var next := disk.(files := disk.files - {p});
    forall d | d in next.dirs && RemovedUnder(done + {p}, d) && !(Parent(p) != [] && d <= Parent(p))
      ensures exists e :: Entry(next, e) && d < e
    {
      assert !(d < p) by { AtMostParent(d, p); }
      assert RemovedUnder(done, d);
      var e :| Entry(disk, e) && d < e;
      assert Entry(next, e);
    }
  }

  lemma {:induction false} AtMostParent(d: Path, p: Path)
    ensures d <= p ==> d == p || d <= Parent(p)
  {
    assert d <= p && |d| == |p| ==> d == p;
  }

  lemma {:induction false} StepClimbs(job: Job, m: Moment)
    requires Starts(job) && Midway(job, m) && m.climb != []
    ensures Midway(job, Step(job.Apply(), job.order, m))
  {
    hide Writes, Partly, ConflictFree, Done;
    assert !Adding(job, m);
    if Vacant(m.disk, m.climb) {
      RemoveTree(m.disk, m.climb);
      RemovePruned(m.disk, Done(job.order, m.written), m.climb);
    } else {
      KeepPruned(m.disk, Done(job.order, m.written), m.climb);
    }
  }

  lemma {:induction false} RemoveTree(disk: Disk, dir: Path)
    requires Tree(disk) && Vacant(disk, dir)
    ensures Tree(RemoveDir(disk, dir))
    ensures Parent(dir) != [] ==> Parent(dir) in RemoveDir(disk, dir).dirs && Parent(dir) < dir
  {
    var next := RemoveDir(disk, dir);
    forall q | Entry(next, q) ensures Entry(disk, q) && !(dir < q)
    {
      assert q in disk.files.Keys + disk.dirs;
    }
    assert Entry(disk, dir);
  }

  lemma {:induction false} RemovePruned(disk: Disk, done: set<Path>, dir: Path)
    requires Tree(disk) && Vacant(disk, dir) && Pruned(disk, done, dir)
    ensures Pruned(RemoveDir(disk, dir), done, Parent(dir))
  {
    var next := RemoveDir(disk, dir);
    forall d | d in next.dirs && RemovedUnder(done, d) && !(Parent(dir) != [] && d <= Parent(dir))
      ensures exists e :: Entry(next, e) && d < e
    {
      assert !(dir != [] && d <= dir) by { AtMostParent(d, dir); }
      var e :| Entry(disk, e) && d < e;
      assert Entry(next, e);
    }
  }

  lemma {:induction false} KeepPruned(disk: Disk, done: set<Path>, climb: Path)
    requires climb in disk.dirs && !Vacant(disk, climb) && Pruned(disk, done, climb)
    ensures Pruned(disk, done, [])
  {
    var p :| p in disk.files.Keys + disk.dirs && climb < p;
    forall d | d in disk.dirs && RemovedUnder(done, d) ensures exists e :: Entry(disk, e) && d < e
    {
      if d <= climb {
        assert Entry(disk, p) && d < p;
      }
    }
  }

  // -------------------------------------------------------------------------------- adding

  /** Once every removal is made and its parents are tried, no directory is left where the head writes a file. */
  lemma {:induction false} NoDirsLeft(job: Job, m: Moment)
    requires Starts(job) && Midway(job, m) && m.climb == [] && !Adding(job, m)
    requires Removals(job.Apply()) <= Done(job.order, m.written)
    ensures NoDirs(m.disk, job.Apply())
  {
    hide Writes, Partly, Agree, Freed, RemovedUnder, Pruned, Empties, Ordered;
    var apply, gone := job.Apply(), Removals(job.Apply());
    assert Done(job.order, m.written) == gone by { RemovedOnly(job, m); }
    forall p | p in apply && apply[p].Some? ensures p !in m.disk.dirs
    {
      assert !Blocked(job.before, apply, p);
      if p in m.disk.dirs {
        assert !Freed(p, gone) by { FreedFromDirs(job, p); }
        EmptiesExactly(job.before, p, gone);
        NothingRemains(job, m, p);
      }
    }
  }

  lemma {:induction false} RemovedOnly(job: Job, m: Moment)
    requires Ordered(job.Apply(), job.order) && m.written <= |job.order| && !Adding(job, m)
    requires Removals(job.Apply()) <= Done(job.order, m.written)
    ensures Done(job.order, m.written) == Removals(job.Apply())
  {
    hide Writes;
    DoneIs(job, m.written);
  }

  lemma {:induction false} FreedFromDirs(job: Job, p: Path)
    requires Tree(job.before) && p in job.before.dirs
    ensures !Freed(p, Removals(job.Apply()))
  {
    hide EntryAt, Writes;
    assert Entry(job.before, p);
    forall g | g in Removals(job.Apply()) && g != [] ensures !(g < p)
    {
      RemovalsAreFiles(job, g);
    }
  }

  lemma {:induction false} RemovalsAreFiles(job: Job, g: Path)
    requires g in Removals(job.Apply())
    ensures g in job.before.files
  {
    hide EntryAt, Writes;
    WritesAre(job.synced, job.before.files, job.head, g);
    EntryKnown(job.before.files, g);
    EntryKnown(job.synced, g);
    EntryKnown(job.head, g);
  }

  /** A directory that the removals empty would hold ever deeper directories. */
  lemma {:induction false} NothingRemains(job: Job, m: Moment, d: Path)
    requires Ordered(job.Apply(), job.order) && Midway(job, m) && !Adding(job, m) && m.climb == []
    requires Done(job.order, m.written) == Removals(job.Apply())
    requires d in m.disk.dirs && RemovedUnder(Removals(job.Apply()), d)
    requires Emptied(job.before, d, Removals(job.Apply()))
    ensures false
    decreases |DirsBelow(m.disk, d)|
  {
    hide Writes, Partly, EntryAt, Tree, RemovedUnder, Ordered, Done;
    var gone := Removals(job.Apply());
    var e :| Entry(m.disk, e) && d < e;
    PartlyAt(job.before.files, job.Apply(), gone, e);
    EntryKnown(m.disk.files, e);
    EntryKnown(job.before.files, e);
    assert e in m.disk.dirs;
    EmptiedBelow(job.before, d, e, gone);
    DirsFewer(m.disk, d, e);
    NothingRemains(job, m, e);
  }

  /** No file stands above an addition once every removal is made. */
  lemma {:induction false} NoFileAbove(job: Job, n: nat, p: Path)
    requires Starts(job) && n <= |job.order| && Removals(job.Apply()) <= Done(job.order, n)
    requires p in job.Apply() && p !in Done(job.order, n) && job.Apply()[p].Some?
    ensures !FileAbove(Partly(job.before.files, job.Apply(), Done(job.order, n)), p)
  {
    hide Writes, Partly, Agree, Tree, Done, Ordered, Freed;
    var done := Done(job.order, n);
    var after := Partly(job.before.files, job.Apply(), done);
    TreePrefixFree(job.before);
    assert !Blocked(job.before, job.Apply(), p);
    RestWrites(job.synced, job.before.files, job.head, done);
    forall a | a in after && a != [] ensures !(a < p)
    {
      if a < p {
        AboveStays(job.synced, job.before.files, job.head, done, p, a);
        NothingFreed(Writes(job.synced, after, job.head), p);
      }
    }
  }

  lemma {:induction false} NothingFreed(apply: Changeset, p: Path)
    requires Removals(apply) == {}
    ensures !Freed(p, Removals(apply))
  {
  }

  lemma {:induction false} StepMakes(job: Job, m: Moment)
    requires Starts(job) && Midway(job, m) && m.climb == [] && m.written < |job.order| && !Removal(job, m.written)
    requires m.made + 1 < |job.order[m.written]|
    ensures Midway(job, Step(job.Apply(), job.order, m))
  {
    hide Writes, Partly, ConflictFree, Done, Pruned;
    var p := job.order[m.written];
    var dir := p[..m.made + 1];
    DoneIs(job, m.written);
    InOrder(job, m.written);
    NoFileAbove(job, m.written, p);
    NoDirsNow(job, m);
    assert dir < p && dir != [];
    MakeTree(m.disk, p, m.made);
    HeadHas(job, p);
    forall q | q in job.Apply() && job.Apply()[q].Some? ensures q != dir
    {
      HeadHas(job, q);
    }
  }

  lemma {:induction false} NoDirsNow(job: Job, m: Moment)
    requires Starts(job) && Midway(job, m) && m.climb == [] && m.written < |job.order| && !Removal(job, m.written)
    ensures NoDirs(m.disk, job.Apply())
  {
    hide Writes, Partly, ConflictFree, Done, Pruned, Tree;
    if !Adding(job, m) {
      DoneIs(job, m.written);
      NoDirsLeft(job, m);
    }
  }

  lemma {:induction false} HeadHas(job: Job, p: Path)
    requires p in job.Apply() && job.Apply()[p].Some?
    ensures p in job.head
  {
    hide Writes, EntryAt;
    WritesAre(job.synced, job.before.files, job.head, p);
    EntryKnown(job.head, p);
  }

  lemma {:induction false} MakeTree(disk: Disk, p: Path, made: nat)
    requires Tree(disk) && Made(disk, p, made) && made + 1 < |p| && !FileAbove(disk.files, p)
    ensures Tree(MakeDir(disk, p[..made + 1])) && Made(MakeDir(disk, p[..made + 1]), p, made + 1)
  {
    var dir := p[..made + 1];
    var next := MakeDir(disk, dir);
    assert dir < p;
    forall q, a | Entry(next, q) && a != [] && a < q ensures a in next.dirs
    {
      if q == dir {
        assert a == p[..|a|];
      } else {
        assert Entry(disk, q);
      }
    }
  }

  lemma {:induction false} StepPlaces(job: Job, m: Moment)
    requires Starts(job) && Midway(job, m) && m.climb == [] && m.written < |job.order| && !Removal(job, m.written)
    requires m.made + 1 >= |job.order[m.written]|
    ensures Midway(job, Step(job.Apply(), job.order, m))
  {
    hide Writes, Partly, ConflictFree, Pruned, Made;
    var p, done := job.order[m.written], Done(job.order, m.written);
    DoneMore(job.order, m.written);
    InOrder(job, m.written);
    PartlyMore(job.before.files, job.Apply(), done, p);
    NoDirsNow(job, m);
    HeadHas(job, p);
    ParentsMade(m.disk, p, m.made);
    PlaceTree(m.disk, p, job.Apply()[p].value);
  }

  lemma {:induction false} ParentsMade(disk: Disk, p: Path, made: nat)
    requires p != [] && (made > 0 ==> Made(disk, p, made)) && made + 1 >= |p|
    ensures forall a :: a != [] && a < p ==> a in disk.dirs
  {
    forall a | a != [] && a < p ensures a in disk.dirs
    {
      assert a == p[..|a|];
    }
  }

  lemma {:induction false} PlaceTree(disk: Disk, p: Path, e: FileEntry)
    requires Tree(disk) && p != [] && p !in disk.dirs && forall a :: a != [] && a < p ==> a in disk.dirs
    ensures Tree(disk.(files := disk.files[p := e]))
  {
    var next := disk.(files := disk.files[p := e]);
    forall q, a | Entry(next, q) && a != [] && a < q ensures a in next.dirs
    {
      if q != p {
        assert Entry(disk, q);
      }
    }
  }

  lemma {:induction false} StepMidway(job: Job, m: Moment)
    requires Starts(job) && Midway(job, m)
    ensures Midway(job, Step(job.Apply(), job.order, m))
  {
    hide Writes, Partly, ConflictFree, Pruned, Made, NoDirs, Tree;
    if m.climb != [] {
      StepClimbs(job, m);
    } else if m.written < |job.order| {
      if Removal(job, m.written) {
        StepUnlinks(job, m);
      } else if m.made + 1 < |job.order[m.written]| {
        StepMakes(job, m);
      } else {
        StepPlaces(job, m);
      }
    }
  }

  /** Every moment of a refresh: the directory is a tree and holds the writes made so far. */
  lemma {:induction false} RunMidway(job: Job, k: nat)
    requires Starts(job)
    ensures Midway(job, Run(job, k))
  {
    hide Midway, ConflictFree, Tree;
    if k == 0 {
      BeginsMidway(job);
    } else {
      RunMidway(job, k - 1);
      StepMidway(job, Run(job, k - 1));
    }
  }

  // ------------------------------------------------------------------------------ finishing

  /** Enough steps for the writes from the `n`-th on. */
  function Cost(order: seq<Path>, n: nat): nat
    decreases |order| - n
  {
    if n >= |order| then 0 else |order[n]| + 1 + Cost(order, n + 1)
  }

  predicate Finished(job: Job, m: Moment) {
    m.written >= |job.order| && m.climb == []
  }

  ghost function Left(job: Job, m: Moment): int {
    Cost(job.order, m.written) + |m.climb| - m.made
  }

  lemma {:induction false} StepNearer(job: Job, m: Moment)
    requires Starts(job) && Midway(job, m)
    ensures if Finished(job, m) then Step(job.Apply(), job.order, m) == m
            else Left(job, Step(job.Apply(), job.order, m)) < Left(job, m)
  {
    hide Writes, Partly, ConflictFree, Pruned, NoDirs, Tree;
  }

  lemma {:induction false} RunNearer(job: Job, k: nat)
    requires Starts(job)
    ensures Finished(job, Run(job, k)) || Left(job, Run(job, k)) <= Cost(job.order, 0) - k
  {
    hide Midway, ConflictFree, Tree, Step, Left, Finished;
    if k == 0 {
      LeftFirst(job);
    } else {
      RunNearer(job, k - 1);
      RunMidway(job, k - 1);
      StepNearer(job, Run(job, k - 1));
    }
  }

  lemma {:induction false} LeftFirst(job: Job)
    ensures Left(job, Moment(job.before, 0, [], 0)) == Cost(job.order, 0)
  {
  }

  /** With enough steps a refresh finishes, and then the files are changed by exactly its writes. */
  lemma {:induction false} RunFinishes(job: Job, k: nat)
    requires Starts(job) && k > Cost(job.order, 0)
    ensures Finished(job, Run(job, k))
    ensures Run(job, k).disk.files == Changed(job.before.files, job.Apply())
  {
    hide Writes, Partly, ConflictFree, Tree, Changed, Pruned, NoDirs, Step;
    RunMidway(job, k);
    RunNearer(job, k);
    LeftNonnegative(job, Run(job, k));
    DoneIs(job, Run(job, k).written);
    AllDone(job.before.files, job.Apply());
  }

  lemma {:induction false} LeftNonnegative(job: Job, m: Moment)
    requires Starts(job) && Midway(job, m)
    ensures Left(job, m) >= 0
  {
    hide Writes, Partly, ConflictFree, Tree, Pruned, NoDirs, Step;
  }

  lemma {:induction false} AllDone(files: Snapshot, apply: Changeset)
    ensures Partly(files, apply, apply.Keys) == Changed(files, apply)
  {
    SameFiles(Partly(files, apply, apply.Keys), Changed(files, apply));
  }

  // ------------------------------------------------------------------------ planning again

  /** The head writes a file where it removes something below: a directory turns into a file. */
  ghost predicate WritesOverRemovals(apply: Changeset) {
    exists p, q :: p in apply && apply[p].Some? && q in apply && apply[q] == None && p < q
  }

  /** Without such a write, no moment leaves a directory in the way. */
  lemma {:induction false} NoNewBlocks(job: Job, k: nat, p: Path)
    requires Starts(job) && !WritesOverRemovals(job.Apply())
    ensures var disk := Run(job, k).disk; !Blocked(disk, Writes(job.synced, disk.files, job.head), p)
  {
    hide Writes, Partly, Agree, Tree, Done, Ordered, Freed, FileAbove, Empties, Pruned, Run;
    var m := Run(job, k);
    RunMidway(job, k);
    var done := Done(job.order, m.written);
    var rest := Writes(job.synced, m.disk.files, job.head);
    RestWrites(job.synced, job.before.files, job.head, done);
    if p in rest && rest[p].Some? {
      NoDirMidway(job, m, p);
      if FileAbove(m.disk.files, p) {
        AboveFreed(job, done, p);
      }
    }
  }

  lemma {:induction false} NoDirMidway(job: Job, m: Moment, p: Path)
    requires Starts(job) && !WritesOverRemovals(job.Apply()) && Midway(job, m)
    requires p in job.Apply() && job.Apply()[p].Some?
    ensures p !in m.disk.dirs
  {
    hide Writes, Partly, Agree, Done, Ordered, Freed, FileAbove, Empties, Pruned;
    assert !Blocked(job.before, job.Apply(), p);
    NothingUnder(job.Apply(), p);
    if p in job.before.dirs {
      FreedFromDirs(job, p);
    }
  }

  lemma {:induction false} NothingUnder(apply: Changeset, p: Path)
    requires !WritesOverRemovals(apply) && p in apply && apply[p].Some?
    ensures !RemovedUnder(Removals(apply), p)
  {
  }

  /** A file above a remaining addition is one that a remaining removal frees it from. */
  lemma {:induction false} AboveFreed(job: Job, done: set<Path>, p: Path)
    requires Starts(job) && p in job.Apply() && p !in done && job.Apply()[p].Some?
    requires FileAbove(Partly(job.before.files, job.Apply(), done), p)
    ensures Freed(p, Removals(Writes(job.synced, Partly(job.before.files, job.Apply(), done), job.head)))
  {
    hide Writes, Partly, Agree, Tree, Ordered, Freed, Empties;
    TreePrefixFree(job.before);
    assert !Blocked(job.before, job.Apply(), p);
    var a :| a in Partly(job.before.files, job.Apply(), done) && a != [] && a < p;
    AboveStays(job.synced, job.before.files, job.head, done, p, a);
  }

  /** Under both guards every interrupted refresh can be run again. */
  lemma {:induction false} ResumesWhen(job: Job, k: nat)
    requires Starts(job)
    requires !CopyOfRenamed(job.synced, job.before.files, job.head) && !WritesOverRemovals(job.Apply())
    ensures ConflictFree(job.synced, Run(job, k).disk, job.head)
  {
    hide Writes, Partly, Agree, Tree, Done, Ordered, Pruned, Run, Blocked, RenameConflict, CopyOfRenamed,
      WritesOverRemovals;
    var m := Run(job, k);
    RunMidway(job, k);
    var done := Done(job.order, m.written);
    AgreesAgain(job.synced, job.before.files, job.head, done);
    NoNewRename(job.synced, job.before.files, job.head, done);
    forall p ensures !Blocked(m.disk, Writes(job.synced, m.disk.files, job.head), p)
    {
      NoNewBlocks(job, k, p);
    }
  }

  /** The moment just after the removal at `i` is unlinked. */
  lemma {:induction false} Unlinked(job: Job, i: nat) returns (k: nat)
    requires Starts(job) && i < |job.order| && Removal(job, i)
    ensures Run(job, k).written == i + 1
    ensures forall a :: a != [] && a < job.order[i] ==> a in Run(job, k).disk.dirs
  {
    hide Writes, Partly, ConflictFree, Pruned, NoDirs, Ordered;
    k := Settled(job, i);
    var m := Run(job, k);
    RunMidway(job, k);
    StillThere(job, i, job.order[i]);
    assert Entry(m.disk, job.order[i]);
    k := k + 1;
  }

  /** The moment when the first `i` removals are complete. */
  lemma {:induction false} Settled(job: Job, i: nat) returns (k: nat)
    requires Starts(job) && i < |job.order| && Removal(job, i)
    ensures Run(job, k).written == i && Run(job, k).climb == [] && Run(job, k).made == 0
  {
    hide Writes, Partly, ConflictFree, Pruned, NoDirs;
    if i == 0 {
      k := 0;
    } else {
      EarlierRemoval(job, i - 1, i);
      k := Settled(job, i - 1);
      k := Climbed(job, k + 1);
    }
  }

  lemma {:induction false} EarlierRemoval(job: Job, i: nat, j: nat)
    requires Ordered(job.Apply(), job.order) && i < j < |job.order| && Removal(job, j)
    ensures Removal(job, i)
  {
    hide Writes;
  }

  /** Climbing ends. */
  lemma {:induction false} Climbed(job: Job, k: nat) returns (j: nat)
    requires Ordered(job.Apply(), job.order) && Run(job, k).made == 0
    ensures Run(job, j).written == Run(job, k).written && Run(job, j).climb == [] && Run(job, j).made == 0
    decreases |Run(job, k).climb|
  {
    hide Writes, Vacant;
    j := k;
    if Run(job, k).climb != [] {
      j := Climbed(job, k + 1);
    }
  }

  /** Just after its origin is unlinked, a head rename with a lone new copy is refused. */
  lemma {:induction false} CopyRefused(job: Job) returns (k: nat)
    requires Starts(job) && CopyOfRenamed(job.synced, job.before.files, job.head)
    ensures !ConflictFree(job.synced, Run(job, k).disk, job.head)
  {
    hide Writes, Partly, Tree, Pruned, NoDirs, Run, RenameConflict, LooksRenamed, Blocked;
    var from, to, other :| LooksRenamed(job.synced, job.before.files, job.head, from, to, other);
    OriginGone(job, from, to, other);
    var i := PlaceOf(job, from);
    k := Unlinked(job, i);
    RunMidway(job, k);
    DoneIs(job, i + 1);
    DoneHas(job.order, i + 1, i);
    CopyConflicts(job.synced, job.before.files, job.head, Done(job.order, i + 1), from, to, other);
  }

  lemma {:induction false} OriginGone(job: Job, from: Path, to: Path, other: Path)
    requires Starts(job) && LooksRenamed(job.synced, job.before.files, job.head, from, to, other)
    ensures from in Removals(job.Apply())
  {
    hide Writes, Tree, Ordered, Renamed, Agree, Blocked;
    OriginRemoved(job.synced, job.before.files, job.head, from, other);
  }

  lemma {:induction false} PlaceOf(job: Job, p: Path) returns (i: nat)
    requires Ordered(job.Apply(), job.order) && p in Removals(job.Apply())
    ensures i < |job.order| && job.order[i] == p && Removal(job, i)
  {
    hide Writes;
    assert p in job.order;
    i :| 0 <= i < |job.order| && job.order[i] == p;
  }

  /** The last removal below a path. */
  lemma {:induction false} LastUnder(job: Job, p: Path, n: nat) returns (i: nat)
    requires Ordered(job.Apply(), job.order) && n <= |job.order|
    requires exists j :: 0 <= j < n && Removal(job, j) && p < job.order[j]
    ensures i < n && Removal(job, i) && p < job.order[i]
    ensures forall j :: i < j < n && Removal(job, j) ==> !(p < job.order[j])
  {
    hide Writes, Ordered;
    if Removal(job, n - 1) && p < job.order[n - 1] {
      i := n - 1;
    } else {
      i := LastUnder(job, p, n - 1);
    }
  }

  /** Just after the last file below such a path is unlinked, its directory is still there and refuses the write. */
  lemma {:induction false} DirectoryRefused(job: Job) returns (k: nat)
    requires Starts(job) && WritesOverRemovals(job.Apply())
    ensures !ConflictFree(job.synced, Run(job, k).disk, job.head)
  {
    hide Writes, Partly, Tree, Pruned, NoDirs, Run, Agree, Blocked, Done;
    var apply := job.Apply();
    var p, q :| p in apply && apply[p].Some? && q in apply && apply[q] == None && p < q;
    var j := PlaceOf(job, q);
    var i := LastUnder(job, p, |job.order|);
    k := Unlinked(job, i);
    RunMidway(job, k);
    HeadNonempty(job, p);
    var m := Run(job, k);
    var rest := Writes(job.synced, m.disk.files, job.head);
    RestWrites(job.synced, job.before.files, job.head, Done(job.order, i + 1));
    StillToWrite(job, i, p);
    assert Removals(rest) <= Removals(apply);
    LeftInTheWay(job, i, p, Removals(rest));
    assert Blocked(m.disk, rest, p) by { BlockedByDir(m.disk, rest, p); }
  }

  lemma {:induction false} HeadNonempty(job: Job, p: Path)
    requires Starts(job) && p in job.Apply() && job.Apply()[p].Some?
    ensures p != []
  {
    hide Writes, ConflictFree, Tree, Ordered;
    HeadHas(job, p);
  }

  lemma {:induction false} StillToWrite(job: Job, i: nat, p: Path)
    requires Ordered(job.Apply(), job.order) && i < |job.order| && Removal(job, i)
    requires p in job.Apply() && job.Apply()[p].Some?
    ensures p !in Done(job.order, i + 1)
  {
    hide Writes, Ordered;
    DoneIs(job, i + 1);
  }

  /** No later removal is below the path, and none above it frees it. */
  lemma {:induction false} LeftInTheWay(job: Job, i: nat, p: Path, gone: set<Path>)
    requires Ordered(job.Apply(), job.order) && Tree(job.before) && i < |job.order| && Removal(job, i)
      && p < job.order[i]
    requires forall j :: i < j < |job.order| && Removal(job, j) ==> !(p < job.order[j])
    requires gone <= Removals(job.Apply()) && gone !! Done(job.order, i + 1)
    ensures !RemovedUnder(gone, p) && !Freed(p, gone)
  {
    hide Writes, Done, Ordered;
    forall r | r in gone ensures !(p < r)
    {
      var j := PlaceOf(job, r);
      DoneHas(job.order, i + 1, j);
    }
    StillThere(job, i, job.order[i]);
    assert Entry(job.before, job.order[i]);
    forall g | g in gone && g != [] ensures !(g < p)
    {
      RemovalsAreFiles(job, g);
      PrefixOn(g, p, job.order[i]);
    }
  }

  lemma {:induction false} PrefixOn(a: Path, p: Path, q: Path)
    ensures a < p && p < q ==> a < q
  {
  }

  lemma {:induction false} BlockedByDir(disk: Disk, apply: Changeset, p: Path)
    requires p in apply && apply[p].Some? && p in disk.dirs
    requires !RemovedUnder(Removals(apply), p) && !Freed(p, Removals(apply))
    ensures Blocked(disk, apply, p)
  {
  }

  /**
   When an interrupted refresh can always be run again: planning again finds no conflict after any
   number of steps exactly when the directory holds no lone new copy of a path the head renames, and
   the head writes no file where it removes something below.
   */
  lemma {:induction false} ResumesExactly(job: Job)
    requires Starts(job)
    ensures (forall k :: ConflictFree(job.synced, Run(job, k).disk, job.head))
         <==> !CopyOfRenamed(job.synced, job.before.files, job.head) && !WritesOverRemovals(job.Apply())
  {
    hide ConflictFree, CopyOfRenamed, WritesOverRemovals, Writes, Run, Tree, Ordered;
    if CopyOfRenamed(job.synced, job.before.files, job.head) {
      var k := CopyRefused(job);
    } else if WritesOverRemovals(job.Apply()) {
      var k := DirectoryRefused(job);
    } else {
      forall k ensures ConflictFree(job.synced, Run(job, k).disk, job.head)
      {
        ResumesWhen(job, k);
      }
    }
  }

  const X: Path := [[120]]
  const Y: Path := [[121]]
  const Z: Path := [[122]]
  const XY: Path := [[120], [121]]

  /**
   Resuming can fail: the head renames x to y, and the directory holds z, a new copy of x. Interrupted
   after x is unlinked, the refresh is refused when it is planned again.
   */
  lemma {:induction false} CopyWitness(e: FileEntry)
    ensures var job := XToY(e);
      && Starts(job) && !WritesOverRemovals(job.Apply()) && Run(job, 1).disk == Disk(map[Z := e], {})
      && !ConflictFree(job.synced, Run(job, 1).disk, job.head)
  {
    hide Agree, Writes;
    CopyStarts(e);
    CopyAgrees(e);
    assert Run(XToY(e), 0) == Moment(XToY(e).before, 0, [], 0);
    CopyUnlinks(e);
  }

  /** The head renames x to y, and the directory holds z, a new copy of x. */
  function XToY(e: FileEntry): Job {
    Job(map[X := e], Disk(map[X := e, Z := e], {}), map[Y := e], [X, Y])
  }

  lemma {:induction false} CopyStarts(e: FileEntry)
    ensures Starts(XToY(e)) && XToY(e).Apply() == map[X := None, Y := Some(e)] && !WritesOverRemovals(XToY(e).Apply())
  {
    hide Agree, Writes;
    CopyWrites(e);
    CopyAgrees(e);
    Flat(XToY(e).before, XToY(e).Apply());
    assert forall p, q: Path :: |p| == 1 && |q| == 1 ==> !(p < q);
    assert X[0] != Y[0];
  }

  lemma {:induction false} CopyUnlinks(e: FileEntry)
    ensures map[X := e, Z := e] - {X} == map[Z := e]
  {
    assert X[0] != Z[0];
  }

  lemma {:induction false} CopyWrites(e: FileEntry)
    ensures Writes(map[X := e], map[X := e, Z := e], map[Y := e]) == map[X := None, Y := Some(e)]
  {
    assert X[0] != Y[0] && X[0] != Z[0] && Y[0] != Z[0];
  }

  lemma {:induction false} CopyAgrees(e: FileEntry)
    ensures Agree(map[X := e], map[X := e, Z := e], map[Y := e]) && !Agree(map[X := e], map[Z := e], map[Y := e])
  {
    var synced, files, head := map[X := e], map[X := e, Z := e], map[Y := e];
    assert X[0] != Y[0] && X[0] != Z[0] && Y[0] != Z[0];
    assert forall from, to :: !Renamed(synced, files, from, to);
    assert Renamed(synced, map[Z := e], X, Z) && Renamed(synced, head, X, Y);
    assert forall p, q: Path :: |p| == 1 && |q| == 1 ==> !(p < q);
  }

  lemma {:induction false} Flat(disk: Disk, apply: Changeset)
    requires disk.dirs == {} && (forall p :: p in disk.files ==> |p| == 1) && forall p :: p in apply ==> |p| == 1
    ensures Tree(disk) && forall p :: !Blocked(disk, apply, p)
  {
  }

  /**
   It can also fail without any rename: the head turns directory x, which holds only x/y, into a file.
   Interrupted after x/y is unlinked and before x is removed, the empty directory x is in the way.
   */
  lemma {:induction false} DirectoryWitness(e: FileEntry, f: FileEntry)
    requires e != f
    ensures var job := XYToX(e, f);
      && Starts(job) && !CopyOfRenamed(job.synced, job.before.files, job.head)
      && Run(job, 1).disk == Disk(map[], {X}) && !ConflictFree(job.synced, Run(job, 1).disk, job.head)
  {
    hide Agree, Writes;
    DirectoryStarts(e, f);
    DirectoryAgrees(e, f);
    DirectoryBlocks(e, f);
    assert Run(XYToX(e, f), 0) == Moment(XYToX(e, f).before, 0, [], 0);
  }

  /** The head turns directory x, which holds only x/y, into a file. */
  function XYToX(e: FileEntry, f: FileEntry): Job {
    Job(map[XY := e], Disk(map[XY := e], {X}), map[X := f], [XY, X])
  }

  lemma {:induction false} DirectoryStarts(e: FileEntry, f: FileEntry)
    requires e != f
    ensures Starts(XYToX(e, f)) && XYToX(e, f).Apply() == map[XY := None, X := Some(f)]
  {
    assert X < XY && X != XY;
    assert XYToX(e, f).Apply() == map[XY := None, X := Some(f)];
    DirectoryAgrees(e, f);
    hide Agree, Writes;
    DirectoryBlocks(e, f);
  }

  lemma {:induction false} DirectoryAgrees(e: FileEntry, f: FileEntry)
    requires e != f
    ensures Agree(map[XY := e], map[XY := e], map[X := f]) && !CopyOfRenamed(map[XY := e], map[XY := e], map[X := f])
    ensures Writes(map[XY := e], map[], map[X := f]) == map[X := Some(f)]
  {
    assert X < XY && X != XY;
  }

  lemma {:induction false} DirectoryBlocks(e: FileEntry, f: FileEntry)
    ensures var disk, apply: Changeset := Disk(map[XY := e], {X}), map[XY := None, X := Some(f)];
      Tree(disk) && forall p :: !Blocked(disk, apply, p)
    ensures Blocked(Disk(map[], {X}), map[X := Some(f)], X)
  {
    var disk, apply: Changeset := Disk(map[XY := e], {X}), map[XY := None, X := Some(f)];
    assert X < XY && X != XY && |X| == 1;
    forall p, a | Entry(disk, p) && a != [] && a < p ensures a in disk.dirs
    {
      assert p == XY || p == X;
      BelowXY(a);
    }
    assert Tree(disk);
    assert XY in Removals(apply);
    EmptiesExactly(disk, X, Removals(apply));
    assert forall d :: d in disk.dirs ==> !(X < d);
  }

  lemma {:induction false} BelowXY(a: Path)
    ensures a != [] ==> !(a < X) && (a < XY ==> a == X)
  {
    assert a < XY ==> a == XY[..|a|];
  }

  // ----------------------------------------------------------------------------- the writes

  /** Destinations that the local edits and the head renamed one path to, differently. */
  method RenameClashes(synced: Snapshot, files: Snapshot, head: Snapshot) returns (clashes: set<Path>)
    ensures clashes == {} <==> !RenameConflict(synced, files, head)
  {
    hide Renamed;
    var local := RenamesTo(synced, files);
    var theirs := RenamesTo(synced, head);
    clashes := (set from | from in local && from in theirs && local[from] != theirs[from] :: local[from])
             + (set from | from in local && from in theirs && local[from] != theirs[from] :: theirs[from]);
    if from, to, other :| Renamed(synced, files, from, to) && Renamed(synced, head, from, other) && to != other {
      assert from in local && local[from] == to && from in theirs && theirs[from] == other;
      assert to in clashes;
    }
    if clashes != {} {
      var p :| p in clashes;
      var from :| from in local && from in theirs && local[from] != theirs[from];
      assert Renamed(synced, files, from, local[from]) && Renamed(synced, head, from, theirs[from]);
    }
  }

  /** The planned writes, and every path that refuses the refresh. */
  method Refusals(synced: Snapshot, disk: Disk, head: Snapshot, uncertain: set<Path>, aliased: set<Path>)
    returns (apply: Changeset, conflicts: set<Path>)
    ensures apply == Writes(synced, disk.files, head)
    ensures conflicts == {} <==>
      ConflictFree(synced, disk, head) && uncertain !! Differences(synced, head).Keys && aliased == {}
  {
    hide Blocked, UnderHeadFile, ChangedBoth, ConflictFree, Renamed, RenameConflict, Differences;
    var local, theirs := Differences(synced, disk.files), Differences(synced, head);
    var plan := PlanRefresh(local, theirs);
    WritesDefined(synced, disk.files, head);
    apply := plan.apply;
    var renames := RenameClashes(synced, disk.files, head);
    var blocked := set p | p in apply && Blocked(disk, apply, p);
    conflicts := plan.conflicts + (uncertain * theirs.Keys) + renames + blocked + aliased;
    FreeWhenEmpty(synced, disk, head, plan, renames, blocked);
    AllEmpty(plan.conflicts, uncertain, theirs.Keys, renames, blocked, aliased);
  }

  lemma {:induction false} FreeWhenEmpty(synced: Snapshot, disk: Disk, head: Snapshot, plan: Plan, renames: set<Path>,
      blocked: set<Path>)
    requires plan.apply == Writes(synced, disk.files, head)
    requires forall p :: p in plan.conflicts <==>
      || ChangedBoth(Differences(synced, disk.files), Differences(synced, head), p)
      || UnderHeadFile(Differences(synced, disk.files), Differences(synced, head), p)
    requires renames == {} <==> !RenameConflict(synced, disk.files, head)
    requires blocked == set p | p in plan.apply && Blocked(disk, plan.apply, p)
    ensures plan.conflicts == {} && renames == {} && blocked == {} <==> ConflictFree(synced, disk, head)
  {
    hide ChangedBoth, UnderHeadFile, RenameConflict, Writes;
    forall p ensures Blocked(disk, plan.apply, p) ==> p in blocked
    {
    }
    hide Blocked;
  }

  lemma {:induction false} AllEmpty(a: set<Path>, b: set<Path>, c: set<Path>, d: set<Path>, e: set<Path>, f: set<Path>)
    ensures a + b * c + d + e + f == {} <==> a == {} && b !! c && d == {} && e == {} && f == {}
  {
    var all := a + b * c + d + e + f;
    assert a <= all && d <= all && e <= all && f <= all;
    if p :| p in b && p in c {
      assert p in all;
    }
  }

  /** The paths of a set, one after another. */
  method Listing(paths: set<Path>) returns (list: seq<Path>)
    ensures forall p :: p in list <==> p in paths
    ensures forall i, j :: 0 <= i < j < |list| ==> list[i] != list[j]
  {
    list := [];
    var rest := paths;
    while rest != {}
      invariant rest <= paths && forall p :: p in list <==> p in paths - rest
      invariant forall i, j :: 0 <= i < j < |list| ==> list[i] != list[j]
      decreases |rest|
    {
      var p :| p in rest;
      assert p !in list;
      list, rest := list + [p], rest - {p};
    }
  }

  lemma {:induction false} ListingsOrdered(apply: Changeset, removals: seq<Path>, additions: seq<Path>)
    requires forall p :: p in removals <==> p in Removals(apply)
    requires forall p :: p in additions <==> p in apply.Keys - Removals(apply)
    requires forall i, j :: 0 <= i < j < |removals| ==> removals[i] != removals[j]
    requires forall i, j :: 0 <= i < j < |additions| ==> additions[i] != additions[j]
    ensures Ordered(apply, removals + additions) && Listed(apply, removals, additions)
  {
    var order := removals + additions;
    forall i | 0 <= i < |order|
      ensures order[i] in apply && (apply[order[i]] == None <==> i < |removals|)
    {
      if i < |removals| {
        assert order[i] in removals;
      } else {
        assert order[i] == additions[i - |removals|] && order[i] in additions;
      }
    }
    forall p ensures p in order <==> p in apply
    {
      assert p in order <==> p in removals || p in additions;
    }
  }

  /** A Layer's directory on disk. */
  class Workspace {
    var files: Snapshot
    var dirs: set<Path>

    function Now(): Disk
      reads this
    {
      Disk(files, dirs)
    }

    /**
     Refreshes the directory unless something conflicts, removals first. `budget` is how many steps are
     made before an interruption; without one the refresh completes. `uncertain` are paths still
     changing and `aliased` what the volume reports; either kind refuses the refresh.
     */
    method RefreshTo(synced: Snapshot, head: Snapshot, uncertain: set<Path>, aliased: set<Path>, budget: Option<nat>)
      returns (conflicts: set<Path>, order: seq<Path>)
      requires PrefixFree(head) && Tree(Now())
      modifies this
      ensures conflicts == {} <==>
        && old(ConflictFree(synced, Now(), head))
        && uncertain !! Differences(synced, head).Keys && aliased == {}
      ensures conflicts != {} ==> Now() == old(Now())
      ensures conflicts == {} ==> Starts(Job(synced, old(Now()), head, order))
      ensures conflicts == {} && budget.Some? ==> Now() == Run(Job(synced, old(Now()), head, order), budget.value).disk
      ensures conflicts == {} && budget.None? ==>
        Tree(Now()) && files == Changed(old(files), Writes(synced, old(files), head))
    {
      hide ConflictFree, Writes, Differences, Changed, PrefixFree, Tree, Run, Starts;
      var apply;
      apply, conflicts := Refusals(synced, Now(), head, uncertain, aliased);
      order := [];
      if conflicts == {} {
        order := WriteAll(synced, head, apply, budget);
      }
    }

    /** Makes the planned writes, every removal before every addition, as far as the budget goes. */
    method WriteAll(ghost synced: Snapshot, ghost head: Snapshot, apply: Changeset, budget: Option<nat>)
      returns (order: seq<Path>)
      requires PrefixFree(head) && Tree(Now()) && ConflictFree(synced, Now(), head)
        && apply == Writes(synced, files, head)
      modifies this
      ensures Starts(Job(synced, old(Now()), head, order))
      ensures budget.Some? ==> Now() == Run(Job(synced, old(Now()), head, order), budget.value).disk
      ensures budget.None? ==> Tree(Now()) && files == Changed(old(files), apply)
    {
      hide ConflictFree, Writes, Changed, PrefixFree, Tree, Run, Ordered, Removals;
      var removals := Listing(Removals(apply));
      var additions := Listing(apply.Keys - Removals(apply));
      order := removals + additions;
      ListingsOrdered(apply, removals, additions);
      ghost var job := Job(synced, Now(), head, order);
      var total: nat := if budget.Some? then budget.value else Cost(order, 0) + 1;
      RunBegins(job);
      var left := RemoveAll(job, apply, removals, additions, total);
      left := PlaceAll(job, apply, removals, additions, total, left);
      RunTree(job, total);
      if budget.None? {
        RunFinishes(job, total);
      }
    }

    method RemoveAll(ghost job: Job, ghost apply: Changeset, removals: seq<Path>, ghost additions: seq<Path>,
        total: nat)
      returns (left: nat)
      requires apply == job.Apply() && job.order == removals + additions && Ordered(apply, job.order)
      requires Listed(apply, removals, additions) && Run(job, 0) == Moment(Now(), 0, [], 0)
      modifies this
      ensures left <= total && Now() == Run(job, total - left).disk
      ensures left > 0 ==> Run(job, total - left) == Moment(Now(), |removals|, [], 0)
    {
      hide Writes, Run, Ordered, Listed;
      left := total;
      var i := 0;
      while i < |removals| && left > 0
        invariant i <= |removals| && left <= total && Now() == Run(job, total - left).disk
        invariant left > 0 ==> Run(job, total - left) == Moment(Now(), i, [], 0)
      {
        ListedAt(job, removals, additions, i);
        left := RemovePath(job, total - left, i, removals[i], left);
        i := i + 1;
      }
    }

    method PlaceAll(ghost job: Job, apply: Changeset, ghost removals: seq<Path>, additions: seq<Path>, total: nat,
        budget: nat)
      returns (left: nat)
      requires apply == job.Apply() && job.order == removals + additions && Ordered(apply, job.order)
      requires Listed(apply, removals, additions) && budget <= total && Now() == Run(job, total - budget).disk
      requires budget > 0 ==> Run(job, total - budget) == Moment(Now(), |removals|, [], 0)
      modifies this
      ensures Now() == Run(job, total).disk
    {
      hide Writes, Run, Ordered, Listed;
      left := budget;
      var i := 0;
      while i < |additions| && left > 0
        invariant i <= |additions| && left <= total && Now() == Run(job, total - left).disk
        invariant left > 0 ==> Run(job, total - left) == Moment(Now(), |removals| + i, [], 0)
      {
        ListedAt(job, removals, additions, |removals| + i);
        left := PlacePath(job, total - left, |removals| + i, additions[i], apply[additions[i]].value, left);
        i := i + 1;
      }
      if left > 0 {
        RunStays(job, total - left, total);
      }
    }

    /** Removes a path the head deletes, then the parents it leaves empty. */
    method RemovePath(ghost job: Job, ghost used: nat, ghost i: nat, p: Path, budget: nat) returns (left: nat)
      requires Ordered(job.Apply(), job.order) && i < |job.order| && job.order[i] == p && Removal(job, i)
      requires budget > 0 && Run(job, used) == Moment(Now(), i, [], 0)
      modifies this
      ensures left <= budget && Now() == Run(job, used + budget - left).disk
      ensures left > 0 ==> Run(job, used + budget - left) == Moment(Now(), i + 1, [], 0)
    {
      hide Writes, Ordered, Vacant;
      files := files - {p};
      left := budget - 1;
      var dir := Parent(p);
      while dir != [] && left > 0
        invariant left <= budget && Run(job, used + budget - left) == Moment(Now(), i + 1, dir, 0)
        decreases left
      {
        if Vacant(Now(), dir) {
          dirs, dir := dirs - {dir}, Parent(dir);
        } else {
          dir := [];
        }
        left := left - 1;
      }
    }

    /** Makes the parents a head entry needs and renames a complete copy of it into place. */
    method PlacePath(ghost job: Job, ghost used: nat, ghost i: nat, p: Path, entry: FileEntry, budget: nat)
      returns (left: nat)
      requires Ordered(job.Apply(), job.order) && i < |job.order| && job.order[i] == p && !Removal(job, i)
      requires p in job.Apply() && job.Apply()[p] == Some(entry)
      requires budget > 0 && Run(job, used) == Moment(Now(), i, [], 0)
      modifies this
      ensures left <= budget && Now() == Run(job, used + budget - left).disk
      ensures left > 0 ==> Run(job, used + budget - left) == Moment(Now(), i + 1, [], 0)
    {
      hide Writes, Ordered;
      left := budget;
      var made := 0;
      while made + 1 < |p| && left > 0
        invariant left <= budget && Run(job, used + budget - left) == Moment(Now(), i, [], made)
        decreases left
      {
        dirs := dirs + {p[..made + 1]};
        made, left := made + 1, left - 1;
      }
      if left == 0 {
        return;
      }
      files := files[p := entry];
      left := left - 1;
    }
  }

  lemma {:induction false} RunBegins(job: Job)
    requires Ordered(job.Apply(), job.order)
    ensures Run(job, 0) == Moment(job.before, 0, [], 0)
  {
  }

  ghost predicate Listed(apply: Changeset, removals: seq<Path>, additions: seq<Path>) {
    && (forall p :: p in removals <==> p in Removals(apply))
    && (forall p :: p in additions <==> p in apply.Keys - Removals(apply))
  }

  lemma {:induction false} ListedAt(job: Job, removals: seq<Path>, additions: seq<Path>, i: nat)
    requires Ordered(job.Apply(), job.order) && job.order == removals + additions && i < |job.order|
    requires Listed(job.Apply(), removals, additions)
    ensures Removal(job, i) <==> i < |removals|
    ensures i >= |removals| ==> job.order[i] in job.Apply() && job.Apply()[job.order[i]].Some?
  {
    hide Writes, Ordered;
    InOrder(job, i);
    if i < |removals| {
      assert removals[i] in removals;
    } else {
      assert additions[i - |removals|] in additions;
    }
  }

  /** A finished refresh stays where it is. */
  lemma {:induction false} RunStays(job: Job, k: nat, n: nat)
    requires Ordered(job.Apply(), job.order) && k <= n && Finished(job, Run(job, k))
    ensures Run(job, n) == Run(job, k)
  {
    hide Writes;
    if k < n {
      RunStays(job, k, n - 1);
    }
  }

  lemma {:induction false} RunTree(job: Job, k: nat)
    requires Starts(job)
    ensures Tree(Run(job, k).disk)
    ensures Run(job, k).written <= |job.order|
    ensures Run(job, k).disk.files == Partly(job.before.files, job.Apply(), Done(job.order, Run(job, k).written))
  {
    hide Writes, Tree, Partly, Pruned, NoDirs, Made, ConflictFree;
    RunMidway(job, k);
  }

  /** However often it is interrupted, a refresh run again ends as one refresh would. */
  method RefreshRepeatedly(w: Workspace, synced: Snapshot, head: Snapshot, budgets: seq<nat>)
    returns (conflicts: set<Path>)
    requires PrefixFree(head) && Tree(w.Now()) && ConflictFree(synced, w.Now(), head)
    requires !CopyOfRenamed(synced, w.files, head) && !WritesOverRemovals(Writes(synced, w.files, head))
    modifies w
    ensures conflicts == {} && w.files == Changed(old(w.files), Writes(synced, old(w.files), head))
  {
    hide ConflictFree, CopyOfRenamed, WritesOverRemovals, PrefixFree, Changed, Tree, Writes, Run, Partly;
    ghost var order;
    for i := 0 to |budgets|
      invariant Tree(w.Now()) && ConflictFree(synced, w.Now(), head)
      invariant !CopyOfRenamed(synced, w.files, head) && !WritesOverRemovals(Writes(synced, w.files, head))
      invariant Changed(w.files, Writes(synced, w.files, head)) ==
        Changed(old(w.files), Writes(synced, old(w.files), head))
    {
      ghost var job := Job(synced, w.Now(), head, []);
      conflicts, order := w.RefreshTo(synced, head, {}, {}, Some(budgets[i]));
      job := job.(order := order);
      StillGuarded(job, budgets[i]);
    }
    conflicts, order := w.RefreshTo(synced, head, {}, {}, None);
  }

  /** An interruption keeps both guards, and what remains leads to the same files. */
  lemma {:induction false} StillGuarded(job: Job, k: nat)
    requires Starts(job)
    requires !CopyOfRenamed(job.synced, job.before.files, job.head) && !WritesOverRemovals(job.Apply())
    ensures var disk := Run(job, k).disk;
      && Tree(disk) && ConflictFree(job.synced, disk, job.head)
      && !CopyOfRenamed(job.synced, disk.files, job.head)
      && !WritesOverRemovals(Writes(job.synced, disk.files, job.head))
      && Changed(disk.files, Writes(job.synced, disk.files, job.head)) == Changed(job.before.files, job.Apply())
  {
    hide ConflictFree, CopyOfRenamed, PrefixFree, Changed, Tree, Writes, Run, Partly, Ordered;
    var m := Run(job, k);
    RunTree(job, k);
    ResumesWhen(job, k);
    var done := Done(job.order, m.written);
    RestWrites(job.synced, job.before.files, job.head, done);
    Converges(job.synced, job.before.files, job.head, done);
    NoNewCopy(job.synced, job.before.files, job.head, done);
  }

  lemma {:induction false} NoNewCopy(synced: Snapshot, files: Snapshot, head: Snapshot, done: set<Path>)
    ensures CopyOfRenamed(synced, Partly(files, Writes(synced, files, head), done), head) ==>
      CopyOfRenamed(synced, files, head)
  {
    hide LooksRenamed, Writes, Partly;
    var after := Partly(files, Writes(synced, files, head), done);
    if from, to, other :| LooksRenamed(synced, after, head, from, to, other) {
      CopyBefore(synced, files, head, done, from, to, other);
    }
  }

  /** Writes of the refresh make no copy look new. */
  lemma {:induction false} CopyBefore(synced: Snapshot, files: Snapshot, head: Snapshot, done: set<Path>, from: Path,
      to: Path, other: Path)
    requires LooksRenamed(synced, Partly(files, Writes(synced, files, head), done), head, from, to, other)
    ensures LooksRenamed(synced, files, head, from, to, other)
  {
    hide Writes, Partly, EntryAt;
    var after := Partly(files, Writes(synced, files, head), done);
    PartlyIs(synced, files, head, done, from);
    PartlyIs(synced, files, head, done, to);
    PartlyIs(synced, files, head, done, other);
    forall q | q in files && q !in synced && files[q] == synced[from] ensures q == to
    {
      PartlyIs(synced, files, head, done, q);
    }
    forall v | v in synced && v !in files ensures synced[v] != synced[from]
    {
      PartlyIs(synced, files, head, done, v);
    }
  }
}
