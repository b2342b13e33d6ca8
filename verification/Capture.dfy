/**
 The capture stat cache (src/capture.rs): which cached contents a scan may reuse. Files change at any
 moment, their change times lag the clock by at most the racy margin, and a trusted entry that a later
 scan still matches is the file's content.
 */
module Capture {
  import opened Names
  import opened Chunks
  import opened Directories
  import opened Domain

  const ATTEMPTS: nat := 3
  const RACY_MARGIN_NS: int := 2_000_000_000

  /** The fields compared to decide whether an entry may have changed. */
  datatype Stat = Stat(size: nat, mtime: int, ctime: int, ino: nat, mode: nat)

  datatype Cached = Cached(stat: Stat, entry: FileEntry, trusted: bool)

  // ----------------------------------------------------------------------------- the files

  /** One change of a path: when it happened, and what it left there; nothing, for a removal. */
  datatype Edit = Edit(time: int, stat: Stat, entry: Option<FileEntry>)

  /** Every change of one path, in order. */
  type Timeline = seq<Edit>

  /** Changes are ordered in time, and change times lag the clock by at most the margin. */
  ghost predicate Lawful(line: Timeline) {
    && (forall i, j :: 0 <= i < j < |line| ==> line[i].time <= line[j].time)
    && (forall i :: 0 <= i < |line| && line[i].entry.Some? ==> line[i].stat.ctime >= line[i].time - RACY_MARGIN_NS)
  }

  /** How many changes had happened by a moment. */
  function ChangesBy(line: Timeline, t: int): (n: nat)
    ensures n <= |line|
    ensures forall i :: 0 <= i < |line| && (forall j, k :: 0 <= j < k < |line| ==> line[j].time <= line[k].time) ==>
      (i < n <==> line[i].time <= t)
  {
    if line == [] then 0
    else
      var last := |line| - 1;
      assert forall i :: 0 <= i < last ==> line[..last][i] == line[i];
      if line[last].time <= t then |line| else ChangesBy(line[..last], t)
  }

  function LastChange(line: Timeline, t: int): Option<Edit> {
    var n := ChangesBy(line, t); if n == 0 then None else Some(line[n - 1])
  }

  /** What a path's `lstat` shows at a moment. */
  function StatAt(line: Timeline, t: int): Option<Stat> {
    var last := LastChange(line, t); if last.Some? && last.value.entry.Some? then Some(last.value.stat) else None
  }

  function ContentAt(line: Timeline, t: int): Option<FileEntry> {
    var last := LastChange(line, t); if last.Some? then last.value.entry else None
  }

  /** Nothing changed after one moment and up to another. */
  predicate Quiet(line: Timeline, from: int, to: int) {
    ChangesBy(line, from) == ChangesBy(line, to)
  }

  /**
   A fingerprint older than the margin before a moment proves that nothing has changed since: any
   change from that moment on leaves a younger change time.
   */
  lemma {:induction false} OldMeansQuiet(line: Timeline, since: int, at: int, stat: Stat)
    requires Lawful(line) && since <= at && StatAt(line, at) == Some(stat) && stat.ctime < since - RACY_MARGIN_NS
    ensures Quiet(line, since, at)
  {
    var n := ChangesBy(line, at);
    assert line[n - 1].stat == stat && line[n - 1].time < since;
    var m := ChangesBy(line, since);
    assert m >= n by { assert n - 1 < m; }
    ChangesGrow(line, since, at);
  }

  lemma {:induction false} QuietInside(line: Timeline, from: int, a: int, b: int, to: int)
    requires Lawful(line) && from <= a <= b <= to && Quiet(line, from, to)
    ensures Quiet(line, a, b) && Quiet(line, from, a)
  {
    ChangesGrow(line, from, a);
    ChangesGrow(line, a, b);
    ChangesGrow(line, b, to);
  }

  lemma {:induction false} ChangesGrow(line: Timeline, from: int, to: int)
    requires Lawful(line) && from <= to
    ensures ChangesBy(line, from) <= ChangesBy(line, to)
  {
    var m, n := ChangesBy(line, from), ChangesBy(line, to);
    if m > 0 {
      assert m - 1 < m;
      assert line[m - 1].time <= from;
      assert m - 1 < n;
    }
  }

  // --------------------------------------------------------------------------- observations

  /** A path found by the walk, with its `lstat` and when that was taken. */
  datatype Found = Found(path: Path, stat: Stat, time: int)

  /** One attempt to read an entry: between two `lstat` calls, unless the path is gone or changed under the read. */
  datatype Try =
    | Vanished
    | Raced
    | Tried(start: int, before: Option<Stat>, content: Option<FileEntry>, end: int, after: Option<Stat>)

  ghost predicate FoundTrue(line: Timeline, f: Found) {
    StatAt(line, f.time) == Some(f.stat)
  }

  /** A read sees the content only if nothing changes while it runs. */
  ghost predicate TryTrue(line: Timeline, since: int, t: Try) {
    t.Tried? ==>
      && since <= t.start <= t.end && t.before == StatAt(line, t.start) && t.after == StatAt(line, t.end)
      && (Quiet(line, t.start, t.end) && t.content.Some? ==> t.content == ContentAt(line, t.start))
  }

  datatype Hashed = Stable(stat: Stat, entry: FileEntry) | Gone | Unstable

  /** An attempt whose two fingerprints agree around a read. */
  predicate Settles(t: Try) {
    t.Tried? && t.before.Some? && t.content.Some? && t.after == t.before
  }

  /** An attempt that ends the reading: the path is gone, or its content is known. */
  predicate Ends(t: Try) {
    t.Vanished? || Settles(t)
  }

  /** The attempt at `i` is the first that ends the reading, and this is what it gives. */
  ghost predicate EndsAt(tries: seq<Try>, i: nat, h: Hashed) {
    && i < ATTEMPTS <= |tries| && Ends(tries[i]) && (forall j :: 0 <= j < i ==> !Ends(tries[j]))
    && h == if tries[i].Vanished? then Gone else Stable(tries[i].before.value, tries[i].content.value)
  }

  /** The result of up to three attempts: that of the first that ends the reading, if any does. */
  ghost predicate ReadsTo(tries: seq<Try>, h: Hashed) {
    if h.Unstable? then forall i :: 0 <= i < ATTEMPTS <= |tries| ==>
      !Ends(tries[i]) else exists i :: EndsAt(tries, i, h)
  }

  /** The attempts decide the result. */
  lemma {:induction false} ReadsToOne(tries: seq<Try>, g: Hashed, h: Hashed)
    requires |tries| >= ATTEMPTS && ReadsTo(tries, g) && ReadsTo(tries, h)
    ensures g == h
  {
    if !g.Unstable? && !h.Unstable? {
      var i :| EndsAt(tries, i, g);
      var j :| EndsAt(tries, j, h);
      assert i == j;
    }
  }

  /** Reads an entry between two equal fingerprints, or gives up. */
  method ReadStable(tries: seq<Try>) returns (h: Hashed)
    requires |tries| >= ATTEMPTS
    ensures ReadsTo(tries, h)
  {
    for i := 0 to ATTEMPTS
      invariant forall j :: 0 <= j < i ==> !Ends(tries[j])
    {
      match tries[i]
      case Vanished =>
        assert EndsAt(tries, i, Gone);
        return Gone;
      case Raced =>
      case Tried(_, before, content, _, after) =>
        if before.Some? && content.Some? && after == before {
          assert EndsAt(tries, i, Stable(before.value, content.value));
          return Stable(before.value, content.value);
        }
    }
    return Unstable;
  }

  // ------------------------------------------------------------------------------ trust

  /** Both times are older than the reference. */
  predicate Old(stat: Stat, racy: int) {
    stat.mtime < racy && stat.ctime < racy
  }

  /** At some moment up to `by` the path had this fingerprint, already old, and this content. */
  ghost predicate Vouched(line: Timeline, stat: Stat, entry: FileEntry, upTo: int) {
    exists since :: since <= upTo && VouchedAt(line, stat, entry, since)
  }

  ghost predicate VouchedAt(line: Timeline, stat: Stat, entry: FileEntry, since: int) {
    stat.ctime < since - RACY_MARGIN_NS && StatAt(line, since) == Some(stat) && ContentAt(line, since) == Some(entry)
  }

  /** A vouched fingerprint that shows again shows its content. */
  lemma {:induction false} VouchedContent(line: Timeline, stat: Stat, entry: FileEntry, upTo: int, at: int)
    requires Lawful(line) && Vouched(line, stat, entry, upTo) && upTo <= at && StatAt(line, at) == Some(stat)
    ensures ContentAt(line, at) == Some(entry)
  {
    hide ChangesBy;
    var since :| since <= upTo && VouchedAt(line, stat, entry, since);
    OldMeansQuiet(line, since, at, stat);
  }

  /** A stable read whose fingerprint is old at the scan's start vouches for its content from then on. */
  lemma {:induction false} StableVouches(line: Timeline, now: int, t: Try)
    requires Lawful(line) && TryTrue(line, now, t) && Settles(t) && Old(t.before.value, now - RACY_MARGIN_NS)
    ensures VouchedAt(line, t.before.value, t.content.value, now)
  {
    hide ChangesBy;
    OldMeansQuiet(line, now, t.end, t.before.value);
    QuietInside(line, now, t.start, t.end, t.end);
  }

  /** Every trusted entry is vouched for. */
  ghost predicate CacheSound(world: map<Path, Timeline>, entries: map<Path, Cached>, upTo: int) {
    forall p :: p in entries && entries[p].trusted ==>
      p in world && Vouched(world[p], entries[p].stat, entries[p].entry, upTo)
  }

  lemma {:induction false} SoundLater(world: map<Path, Timeline>, entries: map<Path, Cached>, upTo: int, later: int)
    requires CacheSound(world, entries, upTo) && upTo <= later
    ensures CacheSound(world, entries, later)
  {
    hide VouchedAt;
  }

  ghost predicate AllLawful(world: map<Path, Timeline>) {
    forall p :: p in world ==> Lawful(world[p])
  }

  /** What a scan observed is true of the files. */
  ghost predicate Observed(world: map<Path, Timeline>, now: int, found: seq<Found>, tries: map<Path, seq<Try>>) {
    && (forall i :: 0 <= i < |found| ==>
          var p := found[i].path;
          && p in world && now <= found[i].time && FoundTrue(world[p], found[i])
          && p in tries && |tries[p]| >= ATTEMPTS
            && (forall k :: 0 <= k < |tries[p]| ==> TryTrue(world[p], now, tries[p][k])))
    && (forall i, j :: 0 <= i < j < |found| ==> found[i].path != found[j].path)
  }

  // ------------------------------------------------------------------------------ scanning

  datatype Scan = Scan(entries: Snapshot, uncertain: set<Path>)

  /** What one found path comes to: its cached entry or a fresh read, if either settles. */
  datatype Settled = Kept(cached: Cached, reused: bool) | Dropped | Unsettled

  /** A trusted cache entry whose fingerprint the walk found again. */
  predicate TrustedMatch(old': map<Path, Cached>, f: Found) {
    f.path in old' && old'[f.path].trusted && old'[f.path].stat == f.stat
  }

  /** What a fresh read of a found path comes to: it is trusted when both fingerprints agree and are old. */
  function FromRead(racy: int, f: Found, h: Hashed): Settled {
    match h
    case Gone => Dropped
    case Unstable => Unsettled
    case Stable(read, entry) => Kept(Cached(f.stat, entry, Old(f.stat, racy) && Old(read, racy) && f.stat == read),
      false)
  }

  /** The trust rule: a trusted match is reused as it is, and anything else is read again. */
  ghost predicate SettlesTo(old': map<Path, Cached>, racy: int, f: Found, tries: seq<Try>, s: Settled) {
    if TrustedMatch(old', f) then s == Kept(old'[f.path], true)
    else exists h :: ReadsTo(tries, h) && s == FromRead(racy, f, h)
  }

  /** The attempt at `i` is the first that finds the path gone, or its content between equal fingerprints. */
  ghost predicate Decides(tries: seq<Try>, i: nat) {
    i < |tries| && EndsHere(tries[i]) && forall j :: 0 <= j < i ==> !EndsHere(tries[j])
  }

  predicate EndsHere(t: Try) {
    || t.Vanished?
    || (t.Tried? && t.before.Some? && t.content.Some? && t.after == t.before)
  }

  /** Both fingerprints of a read path agree, and all their times are older than the margin before the scan. */
  predicate Trustworthy(now: int, found: Stat, read: Stat) {
    && found == read
    && found.mtime < now - RACY_MARGIN_NS && found.ctime < now - RACY_MARGIN_NS
    && read.mtime < now - RACY_MARGIN_NS && read.ctime < now - RACY_MARGIN_NS
  }

  /** What a found path comes to: what a trusted match was, or what the first deciding attempt of three says. */
  ghost predicate SettledLaw(old': map<Path, Cached>, now: int, f: Found, tries: seq<Try>, s: Settled) {
    if f.path in old' && old'[f.path].trusted && old'[f.path].stat == f.stat then s == Kept(old'[f.path], true)
    else
      && (forall i: nat :: i < ATTEMPTS && Decides(tries, i) ==>
            match tries[i]
            case Tried(_, read, content, _, _) =>
              && s.Kept? && !s.reused && Some(s.cached.entry) == content && s.cached.stat == f.stat
              && (s.cached.trusted <==> Trustworthy(now, f.stat, read.value))
            case _ => s == Dropped)
      && ((forall i: nat :: i < ATTEMPTS ==> !Decides(tries, i)) ==> s == Unsettled)
  }

  lemma {:induction false} DecidesEnds(tries: seq<Try>, i: nat, h: Hashed)
    requires |tries| >= ATTEMPTS
    ensures EndsAt(tries, i, h) ==>
      && Decides(tries, i)
      && h == (if tries[i].Vanished? then Gone else Stable(tries[i].before.value, tries[i].content.value))
    ensures Decides(tries, i) && i < ATTEMPTS ==> exists g :: EndsAt(tries, i, g)
  {
    if Decides(tries, i) && i < ATTEMPTS {
      assert EndsAt(tries, i, if tries[i].Vanished? then Gone
        else Stable(tries[i].before.value, tries[i].content.value));
    }
  }

  /** What a read gives is what its first deciding attempt says. */
  lemma {:induction false} ReadsLaw(tries: seq<Try>, h: Hashed, i: nat)
    requires |tries| >= ATTEMPTS && ReadsTo(tries, h) && i < ATTEMPTS && Decides(tries, i)
    ensures h == if tries[i].Vanished? then Gone else Stable(tries[i].before.value, tries[i].content.value)
  {
    DecidesEnds(tries, i, h);
    var g :| EndsAt(tries, i, g);
    ReadsToOne(tries, g, h) by { assert ReadsTo(tries, g); }
    DecidesEnds(tries, i, g);
  }

  lemma {:induction false} ReadsUndecided(tries: seq<Try>, h: Hashed)
    requires |tries| >= ATTEMPTS && ReadsTo(tries, h) && forall i: nat :: i < ATTEMPTS ==> !Decides(tries, i)
    ensures h == Unstable
  {
    if !h.Unstable? {
      var i: nat :| EndsAt(tries, i, h);
      DecidesEnds(tries, i, h);
    }
  }

  lemma {:induction false} SettlesLaw(old': map<Path, Cached>, now: int, f: Found, tries: seq<Try>, s: Settled)
    requires |tries| >= ATTEMPTS && SettlesTo(old', now - RACY_MARGIN_NS, f, tries, s)
    ensures SettledLaw(old', now, f, tries, s)
  {
    hide Decides, ReadsTo;
    if !TrustedMatch(old', f) {
      var h :| ReadsTo(tries, h) && s == FromRead(now - RACY_MARGIN_NS, f, h);
      forall i: nat | i < ATTEMPTS && Decides(tries, i)
        ensures i < |tries| && EndsHere(tries[i])
        ensures h == if tries[i].Vanished? then Gone else Stable(tries[i].before.value, tries[i].content.value)
      {
        DecidesHere(tries, i);
        ReadsLaw(tries, h, i);
      }
      if forall i: nat :: i < ATTEMPTS ==> !Decides(tries, i) {
        ReadsUndecided(tries, h);
      }
    }
  }

  lemma {:induction false} DecidesHere(tries: seq<Try>, i: nat)
    requires Decides(tries, i)
    ensures i < |tries| && EndsHere(tries[i])
  {
  }

  /** Settles one found path. What is trusted, reused or read, is the content the walk saw. */
  method SettleFound(ghost world: map<Path, Timeline>, old': map<Path, Cached>, now: int, f: Found, tries: seq<Try>)
    returns (s: Settled)
    requires f.path in world && Lawful(world[f.path]) && now <= f.time && FoundTrue(world[f.path], f)
    requires |tries| >= ATTEMPTS && forall k :: 0 <= k < |tries| ==> TryTrue(world[f.path], now, tries[k])
    requires CacheSound(world, old', now)
    ensures SettlesTo(old', now - RACY_MARGIN_NS, f, tries, s)
    ensures SettledLaw(old', now, f, tries, s)
    ensures s.Kept? && s.cached.trusted ==>
      && Vouched(world[f.path], s.cached.stat, s.cached.entry, now)
      && ContentAt(world[f.path], f.time) == Some(s.cached.entry)
  {
    hide ChangesBy, StatAt, ContentAt, VouchedAt, TryTrue, Lawful, ReadsTo, SettledLaw;
    var racy := now - RACY_MARGIN_NS;
    if f.path in old' && old'[f.path].trusted && old'[f.path].stat == f.stat {
      VouchedContent(world[f.path], f.stat, old'[f.path].entry, now, f.time);
      s := Kept(old'[f.path], true);
    } else {
      var h := ReadStable(tries);
      assert ReadsTo(tries, h);
      match h {
        case Gone => s := Dropped;
        case Unstable => s := Unsettled;
        case Stable(read, entry) =>
          var trusted := Old(f.stat, racy) && Old(read, racy) && f.stat == read;
          if trusted {
            ghost var t := StableTry(tries, h);
            StableVouches(world[f.path], now, t);
            VouchedContent(world[f.path], f.stat, entry, now, f.time);
          }
          s := Kept(Cached(f.stat, entry, trusted), false);
      }
    }
    SettlesLaw(old', now, f, tries, s);
  }

  lemma {:induction false} StableTry(tries: seq<Try>, h: Hashed) returns (t: Try)
    requires h.Stable? && ReadsTo(tries, h)
    ensures t in tries && Settles(t) && t.before.value == h.stat && t.content.value == h.entry
  {
    var i: nat :| EndsAt(tries, i, h);
    t := tries[i];
  }

  /** Where a settled path ends up: kept in cache and scan, dropped from both, or uncertain with its prior entry. */
  ghost predicate EndsUp(s: Settled, p: Path, renewed: map<Path, Cached>, files: Snapshot, uncertain: set<Path>,
      prior: Snapshot)
  {
    match s
    case Kept(cached, _) => p in renewed && renewed[p] == cached && EntryAt(files, p) == Some(cached.entry)
      && p !in uncertain
    case Dropped => p !in renewed && EntryAt(files, p) == None && p !in uncertain
    case Unsettled => p !in renewed && EntryAt(files, p) == EntryAt(prior, p) && p in uncertain
  }

  /** A found path is settled by the trust rule and ends up accordingly. */
  ghost predicate Placed(old': map<Path, Cached>, racy: int, f: Found, tries: map<Path, seq<Try>>,
                         renewed: map<Path, Cached>, files: Snapshot, uncertain: set<Path>, prior: Snapshot) {
    f.path in tries && exists s ::
      SettlesTo(old', racy, f, tries[f.path], s) && EndsUp(s, f.path, renewed, files, uncertain, prior)
  }

  /** The whole result of a scan: every found path is placed, and nothing else is there. */
  ghost predicate Scanned(old': map<Path, Cached>, now: int, found: seq<Found>, tries: map<Path, seq<Try>>,
      prior: Snapshot,
                          renewed: map<Path, Cached>, scan: Scan) {
    && (forall i :: 0 <= i < |found| ==>
          Placed(old', now - RACY_MARGIN_NS, found[i], tries, renewed, scan.entries, scan.uncertain, prior))
    && (forall p :: p in renewed || p in scan.entries || p in scan.uncertain ==> Among(found, p))
  }

  /**
   Where a found path ends: a trusted match stays as it was in cache and scan; otherwise the first
   deciding attempt says whether it is gone from both or there with what was read, trusted exactly
   when that is safe; and without one it is uncertain, out of the cache, with its prior entry.
   */
  ghost predicate FoundLaw(before: map<Path, Cached>, now: int, f: Found, tries: seq<Try>, prior: Snapshot,
      after: map<Path, Cached>, scan: Scan)
  {
    var p := f.path;
    if p in before && before[p].trusted && before[p].stat == f.stat then
      && p in after && after[p] == before[p]
      && p in scan.entries && scan.entries[p] == before[p].entry && p !in scan.uncertain
    else
      && (forall i: nat :: i < ATTEMPTS && Decides(tries, i) ==>
            match tries[i]
            case Tried(_, read, content, _, _) =>
              && p in after && after[p].stat == f.stat && Some(after[p].entry) == content
              && (after[p].trusted <==> Trustworthy(now, f.stat, read.value))
              && p in scan.entries && Some(scan.entries[p]) == content && p !in scan.uncertain
            case _ => p !in after && p !in scan.entries && p !in scan.uncertain)
      && ((forall i: nat :: i < ATTEMPTS ==> !Decides(tries, i)) ==>
            && p !in after && p in scan.uncertain
            && (p in scan.entries <==> p in prior) && (p in prior ==> scan.entries[p] == prior[p]))
  }

  /** Every found path ends as its attempts say, and no other path is in the cache or the scan. */
  ghost predicate ScanLaw(before: map<Path, Cached>, now: int, found: seq<Found>, tries: map<Path, seq<Try>>,
      prior: Snapshot, after: map<Path, Cached>, scan: Scan)
  {
    && (forall i :: 0 <= i < |found| ==>
          found[i].path in tries
          && FoundLaw(before, now, found[i], tries[found[i].path], prior, after, scan))
    && (forall p :: p in after || p in scan.entries || p in scan.uncertain ==>
          exists i :: 0 <= i < |found| && found[i].path == p)
  }

  lemma {:induction false} PlacedLaw(before: map<Path, Cached>, now: int, f: Found, tries: map<Path, seq<Try>>,
      prior: Snapshot, after: map<Path, Cached>, scan: Scan)
    requires Placed(before, now - RACY_MARGIN_NS, f, tries, after, scan.entries, scan.uncertain, prior)
    requires |tries[f.path]| >= ATTEMPTS
    ensures FoundLaw(before, now, f, tries[f.path], prior, after, scan)
  {
    hide Decides, SettlesTo, Trustworthy;
    var s :| SettlesTo(before, now - RACY_MARGIN_NS, f, tries[f.path], s)
      && EndsUp(s, f.path, after, scan.entries, scan.uncertain, prior);
    SettlesLaw(before, now, f, tries[f.path], s);
  }

  lemma {:induction false} ScannedLaw(before: map<Path, Cached>, now: int, found: seq<Found>,
      tries: map<Path, seq<Try>>, prior: Snapshot, after: map<Path, Cached>, scan: Scan)
    requires Scanned(before, now, found, tries, prior, after, scan)
    requires forall i :: 0 <= i < |found| ==> found[i].path in tries && |tries[found[i].path]| >= ATTEMPTS
    ensures ScanLaw(before, now, found, tries, prior, after, scan)
  {
    hide Placed, FoundLaw;
    forall i | 0 <= i < |found| ensures FoundLaw(before, now, found[i], tries[found[i].path], prior, after, scan)
    {
      PlacedLaw(before, now, found[i], tries, prior, after, scan);
    }
  }

  /** A Layer's stat cache. */
  class StatCache {
    var entries: map<Path, Cached>
    var dirty: bool

    /**
     Scans a directory's found paths. Each is settled by the trust rule; whatever ends up trusted,
     reused or read afresh, shows its content at the walk's `lstat`; the new cache is sound again; and
     it is dirty exactly when something was read or an old entry was not found.
     */
    method ScanFound(ghost world: map<Path, Timeline>, now: int, found: seq<Found>, tries: map<Path, seq<Try>>,
        prior: Snapshot)
      returns (scan: Scan)
      requires AllLawful(world) && Observed(world, now, found, tries) && CacheSound(world, entries, now)
      modifies this
      ensures Scanned(old(entries), now, found, tries, prior, entries, scan)
      ensures ScanLaw(old(entries), now, found, tries, prior, entries, scan)
      ensures CacheSound(world, entries, now) && Exact(world, found, entries, scan)
      ensures dirty <==> old(dirty) || Fresh(old(entries), found) || Unfound(old(entries), found)
      ensures !dirty ==> entries == old(entries)
    {
      hide Lawful, TryTrue, FoundTrue, SettlesTo, Among, CacheSound, Observed, AllLawful, Vouched, ContentAt, Scanned,
        Exact,
        ScanInvariant, ScanLaw, LeftOf, Fresh, Unfound, TrustedMatch, RenewedBy, FilesBy, UncertainBy;
      var left := entries;
      ghost var before := entries;
      var renewed: map<Path, Cached> := map[];
      var files: Snapshot, uncertain: set<Path> := map[], {};
      var touched := dirty;
      NothingScanned(world, before, now, tries, prior);
      for n := 0 to |found|
        invariant ScanInvariant(world, before, now, found[..n], tries, renewed, files, uncertain, prior)
        invariant LeftOf(before, left, found[..n]) && CacheSound(world, left, now)
        invariant touched <==> old(dirty) || Fresh(before, found[..n])
      {
        var f := found[n];
        FoundApart(world, now, found, tries, n);
        var s := SettleFound(world, left, now, f, tries[f.path]);
        SettledBefore(before, left, found[..n], now, f, tries[f.path], s);
        FoundMore(world, before, now, found[..n], f, tries, s, renewed, files, uncertain, prior);
        LeftMore(world, before, left, found[..n], now, f);
        assert found[..n + 1] == found[..n] + [f];
        FreshMore(before, found[..n], f);
        ReusedIs(before, now, f, tries[f.path], s);
        touched := touched || !(s.Kept? && s.reused);
        left := left - {f.path};
        renewed, files, uncertain :=
          RenewedBy(renewed, f.path, s), FilesBy(files, f.path, s, prior), UncertainBy(uncertain, f.path, s);
      }
      assert found[..|found|] == found;
      LeftDone(before, left, found);
      dirty := touched || left != map[];
      entries := renewed;
      scan := Scan(files, uncertain);
      ScanDone(world, before, now, found, tries, renewed, files, uncertain, prior);
      ObservedTries(world, now, found, tries);
      ScannedLaw(before, now, found, tries, prior, renewed, scan);
    }
  }

  lemma {:induction false} ObservedTries(world: map<Path, Timeline>, now: int, found: seq<Found>,
      tries: map<Path, seq<Try>>)
    requires Observed(world, now, found, tries)
    ensures forall i :: 0 <= i < |found| ==> found[i].path in tries && |tries[found[i].path]| >= ATTEMPTS
  {
    hide FoundTrue, TryTrue;
  }

  /** Some found path is not a trusted match, so it is read. */
  ghost predicate Fresh(old': map<Path, Cached>, found: seq<Found>) {
    exists i :: 0 <= i < |found| && !TrustedMatch(old', found[i])
  }

  /** Some cached path was not found. */
  ghost predicate Unfound(old': map<Path, Cached>, found: seq<Found>) {
    exists p :: p in old' && !Among(found, p)
  }

  predicate Among(found: seq<Found>, p: Path) {
    exists i :: 0 <= i < |found| && found[i].path == p
  }

  /** The cache entries still to be matched. */
  ghost predicate LeftOf(before: map<Path, Cached>, left: map<Path, Cached>, found: seq<Found>) {
    (forall p :: p in left <==> p in before && !Among(found, p)) && forall p :: p in left ==> left[p] == before[p]
  }

  function RenewedBy(renewed: map<Path, Cached>, p: Path, s: Settled): map<Path, Cached> {
    if s.Kept? then renewed[p := s.cached] else renewed
  }

  function FilesBy(files: Snapshot, p: Path, s: Settled, prior: Snapshot): Snapshot {
    match s
    case Kept(cached, _) => files[p := cached.entry]
    case Dropped => files
    case Unsettled => if p in prior then files[p := prior[p]] else files
  }

  function UncertainBy(uncertain: set<Path>, p: Path, s: Settled): set<Path> {
    if s.Unsettled? then uncertain + {p} else uncertain
  }

  /** The trusted results of a scan are the files' contents at its walk. */
  ghost predicate Exact(world: map<Path, Timeline>, found: seq<Found>, cache: map<Path, Cached>, scan: Scan) {
    forall i :: 0 <= i < |found| && found[i].path in cache && cache[found[i].path].trusted ==>
      Shows(world, found[i], EntryAt(scan.entries, found[i].path))
  }

  /** The content the walk's `lstat` saw. */
  ghost predicate Shows(world: map<Path, Timeline>, f: Found, entry: Option<FileEntry>) {
    f.path in world && entry.Some? && ContentAt(world[f.path], f.time) == entry
  }

  /** What is known after some of the found paths. */
  ghost predicate ScanInvariant(world: map<Path, Timeline>, before: map<Path, Cached>, now: int, found: seq<Found>,
                                tries: map<Path, seq<Try>>, renewed: map<Path, Cached>, files: Snapshot,
                                  uncertain: set<Path>, prior: Snapshot) {
    && Scanned(before, now, found, tries, prior, renewed, Scan(files, uncertain))
    && CacheSound(world, renewed, now) && Exact(world, found, renewed, Scan(files, uncertain))
  }

  lemma {:induction false} NothingScanned(world: map<Path, Timeline>, before: map<Path, Cached>, now: int,
      tries: map<Path, seq<Try>>, prior: Snapshot)
    ensures ScanInvariant(world, before, now, [], tries, map[], map[], {}, prior)
    ensures LeftOf(before, before, []) && !Fresh(before, [])
  {
  }

  lemma {:induction false} AmongMore(found: seq<Found>, f: Found)
    ensures forall p :: Among(found + [f], p) <==> Among(found, p) || p == f.path
  {
    forall p ensures Among(found + [f], p) <==> Among(found, p) || p == f.path
    {
      if i :| 0 <= i < |found| && found[i].path == p {
        assert (found + [f])[i].path == p;
      }
      assert (found + [f])[|found|] == f;
    }
  }

  lemma {:induction false} AmongAt(found: seq<Found>, i: nat)
    requires i < |found|
    ensures Among(found, found[i].path)
  {
  }

  lemma {:induction false} FoundApart(world: map<Path, Timeline>, now: int, found: seq<Found>,
      tries: map<Path, seq<Try>>, n: nat)
    requires AllLawful(world) && Observed(world, now, found, tries) && n < |found|
    ensures !Among(found[..n], found[n].path)
    ensures var f := found[n];
      && f.path in world && Lawful(world[f.path]) && now <= f.time && FoundTrue(world[f.path], f)
      && f.path in tries && |tries[f.path]| >= ATTEMPTS
      && forall k :: 0 <= k < |tries[f.path]| ==> TryTrue(world[f.path], now, tries[f.path][k])
  {
    hide Lawful, FoundTrue, TryTrue;
  }

  /** Settling against the entries left is settling against the cache as loaded. */
  lemma {:induction false} SettledBefore(before: map<Path, Cached>, left: map<Path, Cached>, found: seq<Found>,
      now: int, f: Found, tries: seq<Try>, s: Settled)
    requires LeftOf(before, left, found) && !Among(found, f.path) && SettlesTo(left, now - RACY_MARGIN_NS, f, tries, s)
    ensures SettlesTo(before, now - RACY_MARGIN_NS, f, tries, s)
  {
    hide Among, ReadsTo, FromRead;
  }

  lemma {:induction false} ReusedIs(before: map<Path, Cached>, now: int, f: Found, tries: seq<Try>, s: Settled)
    requires SettlesTo(before, now - RACY_MARGIN_NS, f, tries, s)
    ensures TrustedMatch(before, f) <==> s.Kept? && s.reused
  {
    hide ReadsTo, TrustedMatch;
  }

  lemma {:induction false} FreshMore(before: map<Path, Cached>, found: seq<Found>, f: Found)
    ensures Fresh(before, found + [f]) <==> Fresh(before, found) || !TrustedMatch(before, f)
  {
    hide TrustedMatch;
    if i :| 0 <= i < |found| && !TrustedMatch(before, found[i]) {
      assert (found + [f])[i] == found[i];
    }
    assert (found + [f])[|found|] == f;
  }

  lemma {:induction false} LeftMore(world: map<Path, Timeline>, before: map<Path, Cached>, left: map<Path, Cached>,
      found: seq<Found>, now: int, f: Found)
    requires LeftOf(before, left, found) && CacheSound(world, left, now)
    ensures LeftOf(before, left - {f.path}, found + [f]) && CacheSound(world, left - {f.path}, now)
  {
    hide Among, Vouched;
    AmongMore(found, f);
  }

  lemma {:induction false} LeftDone(before: map<Path, Cached>, left: map<Path, Cached>, found: seq<Found>)
    requires LeftOf(before, left, found)
    ensures left != map[] <==> Unfound(before, found)
  {
    hide Among;
    if left != map[] {
      var p :| p in left;
    }
  }

  /** One more path settled. */
  lemma {:induction false} FoundMore(world: map<Path, Timeline>, before: map<Path, Cached>, now: int,
      found: seq<Found>, f: Found,
                                     tries: map<Path, seq<Try>>, s: Settled, renewed: map<Path, Cached>,
                                       files: Snapshot, uncertain: set<Path>, prior: Snapshot)
    requires ScanInvariant(world, before, now, found, tries, renewed, files, uncertain, prior) && !Among(found, f.path)
    requires f.path in world && f.path in tries && SettlesTo(before, now - RACY_MARGIN_NS, f, tries[f.path], s)
    requires s.Kept? && s.cached.trusted ==>
      && Vouched(world[f.path], s.cached.stat, s.cached.entry, now)
      && ContentAt(world[f.path], f.time) == Some(s.cached.entry)
    ensures ScanInvariant(world, before, now, found + [f], tries, RenewedBy(renewed, f.path, s),
      FilesBy(files, f.path, s, prior), UncertainBy(uncertain, f.path, s), prior)
  {
    hide SettlesTo, Among, Vouched, ContentAt, CacheSound, RenewedBy, FilesBy, UncertainBy, EndsUp, Scanned, Exact;
    SoundMore(world, renewed, now, f, s);
    ScannedMore(before, now, found, f, tries, s, renewed, files, uncertain, prior);
    OnlyFoundSo(before, now, found, tries, prior, renewed, files, uncertain);
    ExactMore(world, found, f, s, renewed, files, uncertain, prior);
  }

  lemma {:induction false} OnlyFoundSo(before: map<Path, Cached>, now: int, found: seq<Found>,
      tries: map<Path, seq<Try>>, prior: Snapshot,
                                       renewed: map<Path, Cached>, files: Snapshot, uncertain: set<Path>)
    requires Scanned(before, now, found, tries, prior, renewed, Scan(files, uncertain))
    ensures forall p :: p in renewed || p in files || p in uncertain ==> Among(found, p)
  {
    hide Placed, Among;
  }

  lemma {:induction false} SoundMore(world: map<Path, Timeline>, renewed: map<Path, Cached>, now: int, f: Found,
      s: Settled)
    requires CacheSound(world, renewed, now) && f.path in world
    requires s.Kept? && s.cached.trusted ==> Vouched(world[f.path], s.cached.stat, s.cached.entry, now)
    ensures CacheSound(world, RenewedBy(renewed, f.path, s), now)
  {
    hide Vouched;
  }

  lemma {:induction false} ScannedMore(before: map<Path, Cached>, now: int, found: seq<Found>, f: Found,
      tries: map<Path, seq<Try>>, s: Settled,
                                       renewed: map<Path, Cached>, files: Snapshot, uncertain: set<Path>,
                                         prior: Snapshot)
    requires Scanned(before, now, found, tries, prior, renewed, Scan(files, uncertain)) && !Among(found, f.path)
    requires f.path in tries && SettlesTo(before, now - RACY_MARGIN_NS, f, tries[f.path], s)
    ensures Scanned(before, now, found + [f], tries, prior, RenewedBy(renewed, f.path, s),
                    Scan(FilesBy(files, f.path, s, prior), UncertainBy(uncertain, f.path, s)))
  {
    hide SettlesTo, Among, RenewedBy, FilesBy, UncertainBy, EndsUp, Placed;
    var renewed', files', uncertain' :=
      RenewedBy(renewed, f.path, s), FilesBy(files, f.path, s, prior), UncertainBy(uncertain, f.path, s);
    AmongMore(found, f);
    OnlyFound(f.path, s, renewed, files, uncertain, prior);
    forall i | 0 <= i < |found + [f]|
      ensures Placed(before, now - RACY_MARGIN_NS, (found + [f])[i], tries, renewed', files', uncertain', prior)
    {
      if i < |found| {
        AmongAt(found, i);
        PlacedStill(before, now, found[i], tries, s, f.path, renewed, files, uncertain, prior);
      } else {
        EndsUpNow(s, f.path, found, renewed, files, uncertain, prior);
        PlacedBy(before, now, f, tries, s, renewed', files', uncertain', prior);
      }
    }
  }

  lemma {:induction false} PlacedBy(before: map<Path, Cached>, now: int, f: Found, tries: map<Path, seq<Try>>,
      s: Settled,
                                    renewed: map<Path, Cached>, files: Snapshot, uncertain: set<Path>, prior: Snapshot)
    requires f.path in tries && SettlesTo(before, now - RACY_MARGIN_NS, f, tries[f.path], s)
    requires EndsUp(s, f.path, renewed, files, uncertain, prior)
    ensures Placed(before, now - RACY_MARGIN_NS, f, tries, renewed, files, uncertain, prior)
  {
    hide SettlesTo, EndsUp;
  }

  lemma {:induction false} ExactMore(world: map<Path, Timeline>, found: seq<Found>, f: Found, s: Settled,
                                     renewed: map<Path, Cached>, files: Snapshot, uncertain: set<Path>, prior: Snapshot)
    requires Exact(world, found, renewed, Scan(files, uncertain)) && !Among(found, f.path) && f.path in world
    requires forall q :: q in renewed || q in files || q in uncertain ==> Among(found, q)
    requires s.Kept? && s.cached.trusted ==> ContentAt(world[f.path], f.time) == Some(s.cached.entry)
    ensures Exact(world, found + [f], RenewedBy(renewed, f.path, s),
                  Scan(FilesBy(files, f.path, s, prior), UncertainBy(uncertain, f.path, s)))
  {
    hide Among, ContentAt, RenewedBy, FilesBy, UncertainBy, EntryAt;
    var renewed', files' := RenewedBy(renewed, f.path, s), FilesBy(files, f.path, s, prior);
    forall i | 0 <= i < |found + [f]| && (found + [f])[i].path in renewed' && renewed'[(found + [f])[i].path].trusted
      ensures Shows(world, (found + [f])[i], EntryAt(files', (found + [f])[i].path))
    {
      if i < |found| {
        AmongAt(found, i);
        ElseWhere(f.path, found[i].path, s, renewed, files, uncertain, prior);
      } else {
        EndsUpNow(s, f.path, found, renewed, files, uncertain, prior);
        TrustedShows(s, f, renewed', files', UncertainBy(uncertain, f.path, s), prior);
      }
    }
  }

  lemma {:induction false} EndsUpNow(s: Settled, p: Path, found: seq<Found>, renewed: map<Path, Cached>,
      files: Snapshot, uncertain: set<Path>, prior: Snapshot)
    requires !Among(found, p)
    requires forall q :: q in renewed || q in files || q in uncertain ==> Among(found, q)
    ensures EndsUp(s, p, RenewedBy(renewed, p, s), FilesBy(files, p, s, prior), UncertainBy(uncertain, p, s), prior)
  {
    hide Among;
  }

  lemma {:induction false} TrustedShows(s: Settled, f: Found, renewed: map<Path, Cached>, files: Snapshot,
      uncertain: set<Path>, prior: Snapshot)
    requires EndsUp(s, f.path, renewed, files, uncertain, prior)
    ensures f.path in renewed ==>
      s.Kept? && renewed[f.path] == s.cached && EntryAt(files, f.path) == Some(s.cached.entry)
  {
  }

  /** Settling one path leaves every other where it was. */
  lemma {:induction false} ElseWhere(p: Path, q: Path, s: Settled, renewed: map<Path, Cached>, files: Snapshot,
      uncertain: set<Path>, prior: Snapshot)
    ensures q != p ==>
      && (q in RenewedBy(renewed, p, s) <==> q in renewed)
        && (q in renewed ==> RenewedBy(renewed, p, s)[q] == renewed[q])
      && EntryAt(FilesBy(files, p, s, prior), q) == EntryAt(files, q)
      && (q in UncertainBy(uncertain, p, s) <==> q in uncertain)
  {
  }

  lemma {:induction false} OnlyFound(p: Path, s: Settled, renewed: map<Path, Cached>, files: Snapshot,
      uncertain: set<Path>, prior: Snapshot)
    ensures forall q ::
      q in RenewedBy(renewed, p, s) || q in FilesBy(files, p, s, prior) || q in UncertainBy(uncertain, p, s) ==>
        q == p || q in renewed || q in files || q in uncertain
  {
  }

  lemma {:induction false} PlacedStill(before: map<Path, Cached>, now: int, g: Found, tries: map<Path, seq<Try>>,
      s: Settled, p: Path,
                                       renewed: map<Path, Cached>, files: Snapshot, uncertain: set<Path>,
                                         prior: Snapshot)
    requires Placed(before, now - RACY_MARGIN_NS, g, tries, renewed, files, uncertain, prior) && g.path != p
    ensures Placed(before, now - RACY_MARGIN_NS, g, tries, RenewedBy(renewed, p, s), FilesBy(files, p, s, prior),
      UncertainBy(uncertain, p, s), prior)
  {
    hide SettlesTo, RenewedBy, FilesBy, UncertainBy;
    var t :| SettlesTo(before, now - RACY_MARGIN_NS, g, tries[g.path], t)
      && EndsUp(t, g.path, renewed, files, uncertain, prior);
    ElseWhere(p, g.path, s, renewed, files, uncertain, prior);
    assert EndsUp(t, g.path, RenewedBy(renewed, p, s), FilesBy(files, p, s, prior), UncertainBy(uncertain, p, s),
      prior);
  }

  lemma {:induction false} ScanDone(world: map<Path, Timeline>, before: map<Path, Cached>, now: int,
      found: seq<Found>, tries: map<Path, seq<Try>>,
                                    renewed: map<Path, Cached>, files: Snapshot, uncertain: set<Path>, prior: Snapshot)
    requires ScanInvariant(world, before, now, found, tries, renewed, files, uncertain, prior)
    ensures Scanned(before, now, found, tries, prior, renewed, Scan(files, uncertain))
    ensures CacheSound(world, renewed, now) && Exact(world, found, renewed, Scan(files, uncertain))
    ensures !Fresh(before, found) && !Unfound(before, found) ==> renewed == before
  {
    hide CacheSound, Exact, Placed;
    if !Fresh(before, found) && !Unfound(before, found) {
      forall p ensures p in renewed <==> p in before
        ensures p in before ==> p in renewed && renewed[p] == before[p]
      {
        if p in renewed || p in before {
          var i :| 0 <= i < |found| && found[i].path == p;
          KeptAsWas(before, now, found[i], tries, renewed, files, uncertain, prior);
        }
      }
    }
  }

  lemma {:induction false} KeptAsWas(before: map<Path, Cached>, now: int, f: Found, tries: map<Path, seq<Try>>,
                                     renewed: map<Path, Cached>, files: Snapshot, uncertain: set<Path>, prior: Snapshot)
    requires Placed(before, now - RACY_MARGIN_NS, f, tries, renewed, files, uncertain, prior) && TrustedMatch(before, f)
    ensures f.path in before && f.path in renewed && renewed[f.path] == before[f.path]
  {
  }

  /** A scan trusts only what was trusted already or is old now: no racy entry becomes trusted. */
  lemma {:induction false} NothingRacyTrusted(before: map<Path, Cached>, now: int, found: seq<Found>,
      tries: map<Path, seq<Try>>, prior: Snapshot,
                                              renewed: map<Path, Cached>, scan: Scan, p: Path)
    requires Scanned(before, now, found, tries, prior, renewed, scan) && p in renewed && renewed[p].trusted
    ensures (p in before && before[p] == renewed[p]) || Old(renewed[p].stat, now - RACY_MARGIN_NS)
    ensures p !in scan.uncertain && EntryAt(scan.entries, p) == Some(renewed[p].entry)
  {
    hide Placed;
    var i :| 0 <= i < |found| && found[i].path == p;
    TrustedOld(before, now, found[i], tries, renewed, scan.entries, scan.uncertain, prior);
  }

  lemma {:induction false} TrustedOld(before: map<Path, Cached>, now: int, f: Found, tries: map<Path, seq<Try>>,
                                      renewed: map<Path, Cached>, files: Snapshot, uncertain: set<Path>,
                                        prior: Snapshot)
    requires Placed(before, now - RACY_MARGIN_NS, f, tries, renewed, files, uncertain, prior)
    requires f.path in renewed && renewed[f.path].trusted
    ensures (f.path in before && before[f.path] == renewed[f.path]) || Old(renewed[f.path].stat, now - RACY_MARGIN_NS)
    ensures f.path !in uncertain && EntryAt(files, f.path) == Some(renewed[f.path].entry)
  {
    hide EntryAt, ReadsTo, Old;
  }

  /** Every path a scan leaves out vanished while it was read, and every uncertain one never settled. */
  lemma {:induction false} LeftOutVanished(before: map<Path, Cached>, now: int, found: seq<Found>,
      tries: map<Path, seq<Try>>, prior: Snapshot,
                                           renewed: map<Path, Cached>, scan: Scan, i: nat)
    requires Scanned(before, now, found, tries, prior, renewed, scan) && i < |found|
    ensures var p := found[i].path;
      && p in tries
      && (p in scan.uncertain ==> ReadsTo(tries[p], Unstable) && EntryAt(scan.entries, p) == EntryAt(prior, p))
      && (p !in renewed && p !in scan.uncertain ==> ReadsTo(tries[p], Gone) && EntryAt(scan.entries, p) == None)
      && (TrustedMatch(before, found[i]) ==> p in renewed && renewed[p] == before[p])
  {
    hide ReadsTo, EntryAt, Old;
    assert Placed(before, now - RACY_MARGIN_NS, found[i], tries, renewed, scan.entries, scan.uncertain, prior);
  }

  /** One scan's observations, and the entries of the head it scans for. */
  datatype Session = Session(now: int, found: seq<Found>, tries: map<Path, seq<Try>>, prior: Snapshot)

  function CacheBefore(caches: seq<map<Path, Cached>>, n: nat): map<Path, Cached>
    requires n <= |caches|
  {
    if n == 0 then map[] else caches[n - 1]
  }

  /**
   Over every run of scans, with any edits between and during them, each scan settles every path by
   the trust rule from the cache the last one left, and every trusted entry, reused or read afresh, is
   the file's content at that scan's walk.
   */
  method ScanAll(cache: StatCache, ghost world: map<Path, Timeline>, sessions: seq<Session>)
    returns (scans: seq<Scan>, ghost caches: seq<map<Path, Cached>>)
    requires AllLawful(world) && cache.entries == map[]
    requires forall n :: 0 <= n < |sessions| ==> Observed(world, sessions[n].now, sessions[n].found, sessions[n].tries)
    requires forall m, n :: 0 <= m < n < |sessions| ==> sessions[m].now <= sessions[n].now
    modifies cache
    ensures |scans| == |sessions| && ScannedAll(world, sessions, scans, caches)
    ensures cache.entries == CacheBefore(caches, |sessions|)
  {
    hide Vouched, Observed, AllLawful, CacheSound, Exact, Scanned, ScanLaw, ScannedAll;
    scans, caches := [], [];
    NoneScanned(world, sessions);
    for n := 0 to |sessions|
      invariant |scans| == n == |caches| && cache.entries == CacheBefore(caches, n)
      invariant ScannedAll(world, sessions, scans, caches)
    {
      var session := sessions[n];
      SoundBefore(world, sessions, scans, caches);
      var scan := cache.ScanFound(world, session.now, session.found, session.tries, session.prior);
      ScannedNext(world, sessions, scans, caches, scan, cache.entries);
      scans, caches := scans + [scan], caches + [cache.entries];
    }
  }

  /** Each scan settled its paths from the cache the last one left, soundly, and its trusted results are exact. */
  ghost predicate ScannedAll(world: map<Path, Timeline>, sessions: seq<Session>, scans: seq<Scan>,
      caches: seq<map<Path, Cached>>)
  {
    && |scans| == |caches| <= |sessions|
    && forall m :: 0 <= m < |caches| ==>
         && ScanAt(sessions[m], CacheBefore(caches, m), caches[m], scans[m])
         && Exact(world, sessions[m].found, caches[m], scans[m]) && CacheSound(world, caches[m], sessions[m].now)
  }

  lemma {:induction false} NoneScanned(world: map<Path, Timeline>, sessions: seq<Session>)
    ensures ScannedAll(world, sessions, [], [])
  {
  }

  /** The cache the last scan left is sound at the next scan's start. */
  lemma {:induction false} SoundBefore(world: map<Path, Timeline>, sessions: seq<Session>, scans: seq<Scan>,
      caches: seq<map<Path, Cached>>)
    requires ScannedAll(world, sessions, scans, caches) && |caches| < |sessions|
    requires forall m, n :: 0 <= m < n < |sessions| ==> sessions[m].now <= sessions[n].now
    ensures CacheSound(world, CacheBefore(caches, |caches|), sessions[|caches|].now)
  {
    hide CacheSound, Exact, ScanAt;
    var n := |caches|;
    if n == 0 {
      EmptySound(world);
    } else {
      SoundLater(world, caches[n - 1], sessions[n - 1].now, sessions[n].now);
    }
  }

  lemma {:induction false} ScannedNext(world: map<Path, Timeline>, sessions: seq<Session>, scans: seq<Scan>,
      caches: seq<map<Path, Cached>>, scan: Scan, after: map<Path, Cached>)
    requires ScannedAll(world, sessions, scans, caches) && |caches| < |sessions|
    requires ScanAt(sessions[|caches|], CacheBefore(caches, |caches|), after, scan)
    requires Exact(world, sessions[|caches|].found, after, scan) && CacheSound(world, after, sessions[|caches|].now)
    ensures ScannedAll(world, sessions, scans + [scan], caches + [after])
  {
    hide CacheSound, Exact, ScanAt;
    CachesMore(caches, after);
  }

  ghost predicate ScanAt(session: Session, before: map<Path, Cached>, after: map<Path, Cached>, scan: Scan) {
    && Scanned(before, session.now, session.found, session.tries, session.prior, after, scan)
    && ScanLaw(before, session.now, session.found, session.tries, session.prior, after, scan)
  }

  lemma {:induction false} CachesMore(caches: seq<map<Path, Cached>>, more: map<Path, Cached>)
    ensures forall m :: 0 <= m <= |caches| ==> CacheBefore(caches + [more], m) == CacheBefore(caches, m)
  {
  }

  lemma {:induction false} EmptySound(world: map<Path, Timeline>)
    ensures forall now :: CacheSound(world, map[], now)
  {
  }

  /** A fresh read is the content too when nothing changes during the scan. */
  lemma {:induction false} QuietRead(line: Timeline, now: int, until: int, t: Try)
    requires Lawful(line) && TryTrue(line, now, t) && Settles(t) && t.end <= until && Quiet(line, now, until)
    ensures t.content == ContentAt(line, until)
  {
    hide ChangesBy;
    QuietInside(line, now, t.start, t.end, until);
    QuietInside(line, now, t.end, until, until);
  }
}
