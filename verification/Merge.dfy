/**
 Three-way merge of manifests with owner choices (crates/javelin-merge/src/lib.rs), and the
 changeset a Stack makes of it (crates/javelin-stack/src/lib.rs).
 */
module Merge {
  import opened Names
  import opened Chunks
  import opened Directories
  import opened Apply
  import opened Domain
  import opened Intersecting
  import opened Paths
  import opened Myers
  import D = Diff3

  type Bytes = seq<Byte>
  const NEWLINE: Byte := 10
  const NUL: Byte := 0

  /** A resolved path: an entry that exists, or new bytes still to be stored. */
  datatype Merged = Retained(entry: FileEntry) | Content(bytes: Bytes, executable: bool)

  datatype ConflictKind = Lines | Binary | ModifyDelete | AddAdd | EntryType | PathPrefix | RenameRename | Alias

  datatype Conflict = Conflict(kind: ConflictKind, sides: Sides, partner: Option<Path>)

  /** One path's entries in the base, ours and theirs. */
  datatype Sides = Sides(base: Option<FileEntry>, ours: Option<FileEntry>, theirs: Option<FileEntry>)

  datatype Outcome = Resolved(merged: Merged) | Deleted | Unresolved(kind: ConflictKind)

  datatype Choice = Ours | Theirs | Supplied(bytes: Bytes, executable: Option<bool>)

  // -------------------------------------------------------------------------------- lines

  /** Lines keep their terminator; a last line may have none. */
  function SplitLines(bytes: Bytes): seq<Line> {
    if bytes == [] then []
    else
      var n := LineLength(bytes);
      [bytes[..n]] + SplitLines(bytes[n..])
  }

  function LineLength(bytes: Bytes): (n: nat)
    requires bytes != []
    ensures 0 < n <= |bytes|
  {
    if bytes[0] == NEWLINE || |bytes| == 1 then 1 else 1 + LineLength(bytes[1..])
  }

  function Concat(lines: seq<Line>): Bytes {
    if lines == [] then [] else lines[0] + Concat(lines[1..])
  }

  /** Splitting into lines loses nothing. */
  lemma {:induction false} LinesConcat(bytes: Bytes)
    ensures Concat(SplitLines(bytes)) == bytes
  {
    if bytes != [] {
      hide Concat;
      var n := LineLength(bytes);
      LinesConcat(bytes[n..]);
      ConcatFirst(bytes[..n], SplitLines(bytes[n..]));
      assert bytes == bytes[..n] + bytes[n..];
    }
  }

  lemma {:induction false} ConcatFirst(first: Line, rest: seq<Line>)
    ensures Concat([first] + rest) == first + Concat(rest)
  {
    assert ([first] + rest)[1..] == rest;
  }

  /** A line: its terminator, if it has one, is its last byte. */
  predicate IsLine(line: Line) {
    line != [] && forall i :: 0 <= i < |line| - 1 ==> line[i] != NEWLINE
  }

  /** The lines of a text: they make it up, and each but the last is terminated. */
  ghost predicate AreLines(bytes: Bytes, lines: seq<Line>) {
    && Concat(lines) == bytes
    && (forall k :: 0 <= k < |lines| ==> IsLine(lines[k]))
    && (forall k :: 0 <= k < |lines| - 1 ==> lines[k][|lines[k]| - 1] == NEWLINE)
  }

  lemma {:induction false} LineLengthIs(bytes: Bytes, n: nat)
    requires 0 < n <= |bytes| && IsLine(bytes[..n]) && (n < |bytes| ==> bytes[n - 1] == NEWLINE)
    ensures LineLength(bytes) == n
  {
    assert bytes[..n][0] == bytes[0];
    if n > 1 {
      assert bytes[1..][..n - 1] == bytes[..n][1..];
      LineLengthIs(bytes[1..], n - 1);
    }
  }

  lemma {:induction false} LineLengthEnds(bytes: Bytes)
    requires bytes != []
    ensures var n := LineLength(bytes); IsLine(bytes[..n]) && (n < |bytes| ==> bytes[n - 1] == NEWLINE)
  {
    if bytes[0] != NEWLINE && |bytes| > 1 {
      LineLengthEnds(bytes[1..]);
      var n := LineLength(bytes[1..]);
      assert bytes[..1 + n] == [bytes[0]] + bytes[1..][..n];
    }
  }

  lemma {:induction false} SplitAre(bytes: Bytes)
    ensures AreLines(bytes, SplitLines(bytes))
  {
    LinesConcat(bytes);
    if bytes != [] {
      hide Concat, IsLine;
      var n := LineLength(bytes);
      LineLengthEnds(bytes);
      SplitAre(bytes[n..]);
      assert n == |bytes| ==> SplitLines(bytes[n..]) == [];
    }
  }

  /** Splitting gives the lines of a text, and no other list of lines makes it up. */
  lemma {:induction false} LinesExactly(bytes: Bytes, lines: seq<Line>)
    ensures AreLines(bytes, lines) <==> lines == SplitLines(bytes)
    decreases |lines|
  {
    SplitAre(bytes);
    if AreLines(bytes, lines) && lines != [] {
      hide IsLine, LineLength;
      var first, rest := lines[0], lines[1..];
      var n := |first|;
      assert lines == [first] + rest;
      ConcatFirst(first, rest);
      assert bytes[..n] == first && bytes[n..] == Concat(rest);
      LinesFill(rest);
      assert first != [] by { LineFilled(first); }
      LineLengthIs(bytes, n);
      LinesExactly(bytes[n..], rest);
    }
  }

  lemma {:induction false} LineFilled(line: Line)
    requires IsLine(line)
    ensures line != []
  {
  }

  lemma {:induction false} LinesFill(lines: seq<Line>)
    requires forall k :: 0 <= k < |lines| ==> IsLine(lines[k])
    ensures Concat(lines) != [] <==> lines != []
  {
    if lines != [] {
      LineFilled(lines[0]);
    }
  }

  // ---------------------------------------------------------------------------- one path

  function Take(entry: Option<FileEntry>): Outcome {
    if entry.Some? then Resolved(Retained(entry.value)) else Deleted
  }

  ghost function MergedLines(base: Bytes, ours: Bytes, theirs: Bytes): Option<Bytes> {
    var merged := D.Merge3(SplitLines(base), SplitLines(ours), SplitLines(theirs));
    if merged.Some? then Some(Concat(merged.value)) else None
  }

  /** Regular files that both sides changed: the bit, then the content, then the lines. */
  ghost function RegularMerge(load: nat -> Bytes, base: FileEntry, ours: FileEntry, theirs: FileEntry): Outcome
    requires base.Regular? && ours.Regular? && theirs.Regular?
  {
    var executable := if ours.executable == base.executable then theirs.executable else ours.executable;
    if ours.content == theirs.content
      || theirs.content == base.content then Resolved(Retained(Regular(ours.content, executable)))
    else if ours.content == base.content then Resolved(Retained(Regular(theirs.content, executable)))
    else
      var (b, o, t) := (load(base.content), load(ours.content), load(theirs.content));
      if NUL in b || NUL in o || NUL in t then Unresolved(Binary)
      else
        var bytes := MergedLines(b, o, t);
        if bytes.Some? then Resolved(Content(bytes.value, executable)) else Unresolved(Lines)
  }

  /** How one path resolves from its three sides alone. */
  ghost function PathMerge(load: nat -> Bytes, sides: Sides): Outcome {
    var Sides(base, ours, theirs) := sides;
    if ours == theirs || theirs == base then Take(ours)
    else if ours == base then Take(theirs)
    else if base.None? then Unresolved(AddAdd)
    else if ours.None? || theirs.None? then Unresolved(ModifyDelete)
    else if base.value.Regular? && ours.value.Regular?
      && theirs.value.Regular? then RegularMerge(load, base.value, ours.value, theirs.value)
    else Unresolved(EntryType)
  }

  /** Swapping the sides resolves a path the same way. */
  lemma {:induction false} PathMergeSymmetric(load: nat -> Bytes, base: Option<FileEntry>, ours: Option<FileEntry>,
      theirs: Option<FileEntry>)
    ensures PathMerge(load, Sides(base, ours, theirs)) == PathMerge(load, Sides(base, theirs, ours))
  {
    hide D.Merge3, Concat, SplitLines;
    if base.Some? && ours.Some? && theirs.Some? && base.value.Regular? && ours.value.Regular? && theirs.value.Regular? {
      D.MergeSymmetric(SplitLines(load(base.value.content)), SplitLines(load(ours.value.content)),
        SplitLines(load(theirs.value.content)));
    }
  }

  /** A line merge with one side unchanged gives the other side's bytes. */
  lemma {:induction false} MergedLinesOneSided(base: Bytes, other: Bytes)
    ensures MergedLines(base, base, other) == Some(other) && MergedLines(base, other, base) == Some(other)
  {
    hide D.Merge3, Concat, SplitLines;
    D.MergeOneSided(SplitLines(base), SplitLines(other));
    LinesConcat(other);
  }

  method MergeLines(base: Bytes, ours: Bytes, theirs: Bytes) returns (merged: Option<Bytes>)
    ensures merged == MergedLines(base, ours, theirs)
  {
    var lines := D.MergeTexts(SplitLines(base), SplitLines(ours), SplitLines(theirs));
    return if lines.Some? then Some(Concat(lines.value)) else None;
  }

  method MergePath(load: nat -> Bytes, sides: Sides) returns (outcome: Outcome)
    ensures outcome == PathMerge(load, sides)
    ensures SidesLaw(load, sides.base, sides.ours, sides.theirs, outcome)
  {
    hide MergedLines, SidesLaw;
    var Sides(base, ours, theirs) := sides;
    PathMergeLaw(load, base, ours, theirs);
    if ours == theirs || theirs == base {
      return Take(ours);
    }
    if ours == base {
      return Take(theirs);
    }
    if base.None? || ours.None? || theirs.None? {
      return Unresolved(if base.None? then AddAdd else ModifyDelete);
    }
    if !(base.value.Regular? && ours.value.Regular? && theirs.value.Regular?) {
      return Unresolved(EntryType);
    }
    var Regular(b, bx) := base.value;
    var Regular(o, ox) := ours.value;
    var Regular(t, tx) := theirs.value;
    var executable := if ox == bx then tx else ox;
    var content := o;
    if o == t || t == b {
      content := o;
    } else if o == b {
      content := t;
    } else {
      var bs, os, ts := load(b), load(o), load(t);
      if NUL in bs || NUL in os || NUL in ts {
        return Unresolved(Binary);
      }
      var bytes := MergeLines(bs, os, ts);
      return if bytes.Some? then Resolved(Content(bytes.value, executable)) else Unresolved(Lines);
    }
    return Resolved(Retained(Regular(content, executable)));
  }

  /** Applies an owner's choice to one path's sides. */
  function Choose(choice: Choice, sides: Sides): Outcome {
    match choice
    case Ours => Take(sides.ours)
    case Theirs => Take(sides.theirs)
    case Supplied(bytes, executable) =>
      Resolved(Content(bytes,
        if executable.Some? then executable.value
        else if sides.ours.Some? && sides.ours.value.Regular? then sides.ours.value.executable
        else if sides.theirs.Some? && sides.theirs.value.Regular? then sides.theirs.value.executable
        else false))
  }

  // ------------------------------------------------------------------------- whole manifests

  /** The three manifests and what the merge may ask of its caller. */
  datatype Inputs = Inputs(base: Snapshot, ours: Snapshot, theirs: Snapshot)

  type Results = map<Path, Outcome>

  function SidesOf(m: Inputs, p: Path): Sides {
    Sides(EntryAt(m.base, p), EntryAt(m.ours, p), EntryAt(m.theirs, p))
  }

  function AllPaths(m: Inputs): set<Path> {
    m.base.Keys + m.ours.Keys + m.theirs.Keys
  }

  /** Both sides renamed one base path, to different destinations, and these are they. */
  ghost predicate RenameSplit(m: Inputs, p: Path, q: Path) {
    p != q && exists from ::
      || (Renamed(m.base, m.ours, from, p) && Renamed(m.base, m.theirs, from, q))
      || (Renamed(m.base, m.theirs, from, p) && Renamed(m.base, m.ours, from, q))
  }

  /** What a path resolves to before any choice. */
  ghost function Initial(load: nat -> Bytes, m: Inputs, p: Path): Outcome {
    if exists q :: RenameSplit(m, p, q) then Unresolved(RenameRename) else PathMerge(load, SidesOf(m, p))
  }

  /** What a path resolves to once some choices have been applied. */
  ghost function Decided(load: nat -> Bytes, m: Inputs, choices: map<Path, Choice>, applied: set<Path>,
      p: Path): Outcome
  {
    if p in applied && p in choices then Choose(choices[p], SidesOf(m, p)) else Initial(load, m, p)
  }

  ghost predicate Decides(load: nat -> Bytes, m: Inputs, choices: map<Path, Choice>, applied: set<Path>,
      results: Results)
  {
    && results.Keys == AllPaths(m) && applied <= choices.Keys
    && forall p :: p in results ==> results[p] == Decided(load, m, choices, applied, p)
  }

  /** Paths that could end up in the owner's result. */
  function Present(m: Inputs, results: Results): set<Path> {
    set p | p in results && (results[p].Resolved? || (results[p].Unresolved? && (p in m.ours || p in m.theirs)))
  }

  /** Two different paths of which one is above the other. */
  predicate Nested(p: Path, q: Path) {
    (p != [] && p < q) || (q != [] && q < p)
  }

  ghost predicate Colliding(present: set<Path>, p: Path) {
    p in present && exists q :: q in present && Nested(p, q)
  }

  ghost predicate Above(present: set<Path>, p: Path) {
    exists a :: a in present && a != [] && a < p
  }

  /** The path's shortest ancestor in a set. */
  ghost predicate IsTop(present: set<Path>, p: Path, c: Path) {
    c in present && c != [] && c < p && forall a :: a in present && a != [] && a < p ==> |c| <= |a|
  }

  /** No later in the byte order of path strings. */
  predicate NotAfter(p: Path, q: Path) {
    p != [] && q != [] ==> AtMost(Join(p), Join(q))
  }

  /** The path's first descendant in a set, in the byte order of path strings. */
  ghost predicate IsFirstBelow(present: set<Path>, p: Path, c: Path) {
    c in present && p < c && forall q :: q in present && p < q ==> NotAfter(c, q)
  }

  /** A colliding path is reported with its shortest ancestor, or else with its first descendant. */
  ghost predicate Collisions(present: set<Path>, collisions: map<Path, Path>) {
    && (forall p :: p in collisions <==> Colliding(present, p))
    && (forall p :: p in collisions ==> collisions[p] in present && Nested(p, collisions[p]))
    && (forall p :: p in collisions ==>
          if Above(present, p) then IsTop(present, p, collisions[p]) else IsFirstBelow(present, p, collisions[p]))
  }

  /** The collisions found once these paths, the first ones in order, are visited. */
  ghost predicate CollisionsBelow(present: set<Path>, seen: set<Path>, collisions: map<Path, Path>) {
    && (forall q :: q in collisions <==>
          q in present && q != [] && ((q in seen && Above(present, q)) || exists d :: d in seen && q < d))
    && (forall q :: q in collisions ==>
          if q in seen && Above(present, q) then IsTop(present, q, collisions[q])
            else IsFirstBelow(seen, q, collisions[q]))
  }

  /** Records a path and each of its ancestors as colliding, the shortest first; the first partner found stays. */
  method CollideWith(present: set<Path>, p: Path, before: map<Path, Path>) returns (after: map<Path, Path>)
    requires p !in before && p != []
    ensures forall q :: q in before ==> q in after && after[q] == before[q]
    ensures forall q :: q in after && q !in before ==>
      (q == p && IsTop(present, p, after[p])) || (q in present && q != [] && q < p && after[q] == p)
    ensures forall a :: a in present && a != [] && a < p ==> a in after && p in after
  {
    after := before;
    for i := 1 to |p|
      invariant forall q :: q in before ==> q in after && after[q] == before[q]
      invariant forall q :: q in after && q !in before ==>
        (q == p && IsTop(present, p, after[p])) || (q in present && q != [] && q < p && |q| < i && after[q] == p)
      invariant p in after <==> exists a :: a in present && a != [] && a < p && |a| < i
      invariant forall a :: a in present && a != [] && a < p && |a| < i ==> a in after
    {
      var a := p[..i];
      Prefixes(p, i);
      if a in present {
        if p !in after {
          after := after[p := a];
        }
        if a !in after {
          after := after[a := p];
        }
      }
    }
  }

  lemma {:induction false} Prefixes(p: Path, i: nat)
    requires 0 < i < |p|
    ensures p[..i] != [] && p[..i] < p && forall a :: a < p && |a| < i + 1 ==> |a| < i || a == p[..i]
  {
    forall a | a < p && |a| == i ensures a == p[..i]
    {
      assert a == p[..|a|];
    }
  }

  /** Structural collisions among the paths that would remain. */
  method FindCollisions(present: set<Path>) returns (collisions: map<Path, Path>)
    requires [] !in present
    ensures Collisions(present, collisions)
  {
    hide NotAfter, CollisionsBelow, Collisions, IsTop, IsFirstBelow;
    collisions := map[];
    var rest := present;
    NothingCollides(present);
    while rest != {}
      invariant rest <= present && CollisionsBelow(present, present - rest, collisions)
      invariant forall d, r :: d in present - rest && r in rest ==> NotAfter(d, r)
      decreases |rest|
    {
      ghost var _ := FirstPath(rest);
      var p :| p in rest && forall q :: q in rest ==> NotAfter(p, q);
      ghost var seen, before := present - rest, collisions;
      NotYetColliding(present, seen, p, before);
      collisions := CollideWith(present, p, collisions);
      CollideMore(present, seen, p, before, collisions);
      rest := rest - {p};
      assert present - rest == seen + {p};
    }
    assert present - rest == present;
    CollisionsDone(present, collisions);
  }

  lemma {:induction false} NothingCollides(present: set<Path>)
    ensures CollisionsBelow(present, present - present, map[])
  {
  }

  /** Every nonempty set of paths has a first one. */
  lemma {:induction false} FirstPath(paths: set<Path>) returns (first: Path)
    requires paths != {} && [] !in paths
    ensures first in paths && forall q :: q in paths ==> NotAfter(first, q)
  {
    var names := set p | p in paths && p != [] :: Join(p);
    var any :| any in paths;
    assert Join(any) in names;
    var least := FirstExists(names);
    first :| first in paths && first != [] && Join(first) == least;
  }

  /** A path's string comes before those of its descendants. */
  lemma {:induction false} AncestorFirst(a: Path, p: Path)
    requires a != [] && a < p
    ensures !NotAfter(p, a)
  {
    JoinedOn(a, p);
    PrefixBefore(Join(a), Join(p));
    LessIsByteOrder(Join(a), Join(p));
  }

  lemma {:induction false} JoinedOn(a: Path, p: Path)
    requires a != [] && a < p
    ensures Join(a) < Join(p)
  {
    if |a| > 1 {
      assert a[1..] < p[1..] && a[0] == p[0];
      JoinedOn(a[1..], p[1..]);
      var x, y := Join(a[1..]), Join(p[1..]);
      assert y == x + y[|x|..];
      assert Join(p) == Join(a) + y[|x|..];
    } else {
      assert Join(p) == Join(a) + ([SLASH] + Join(p[1..]));
    }
  }

  lemma {:induction false} PrefixBefore(a: Name, c: Name)
    requires a < c
    ensures Precedes(a, c)
  {
    if a != [] {
      assert a[0] == c[0] && a[1..] < c[1..];
      PrefixBefore(a[1..], c[1..]);
    }
  }

  lemma {:induction false} NotYetColliding(present: set<Path>, seen: set<Path>, p: Path, collisions: map<Path, Path>)
    requires CollisionsBelow(present, seen, collisions) && p !in seen && p != []
    requires forall d :: d in seen ==> NotAfter(d, p)
    ensures p !in collisions
  {
    hide NotAfter;
    forall d | d in seen ensures !(p < d)
    {
      if p < d {
        AncestorFirst(p, d);
      }
    }
  }

  /** Visiting one more path in order. */
  lemma {:induction false} CollideMore(present: set<Path>, seen: set<Path>, p: Path, before: map<Path, Path>,
      after: map<Path, Path>)
    requires CollisionsBelow(present, seen, before) && p in present && p !in seen && [] !in present && p !in before
    requires forall d :: d in seen ==> d in present && NotAfter(d, p)
    requires forall r :: r in present && r !in seen ==> NotAfter(p, r)
    requires forall q :: q in before ==> q in after && after[q] == before[q]
    requires forall q :: q in after && q !in before ==>
      (q == p && IsTop(present, p, after[p])) || (q in present && q != [] && q < p && after[q] == p)
    requires forall a :: a in present && a != [] && a < p ==> a in after && p in after
    ensures CollisionsBelow(present, seen + {p}, after)
  {
    hide NotAfter;
    forall a | a in present && a != [] && a < p ensures a in seen
    {
      AncestorFirst(a, p);
    }
    forall q
      ensures q in after <==>
        q in present && q != [] && ((q in seen + {p} && Above(present, q)) || exists d :: d in seen + {p} && q < d)
    {
      if q in present && q != [] && q < p {
        assert p in seen + {p};
      }
      TopAbove(present, p, after);
    }
    forall q | q in after
      ensures if q in seen + {p} && Above(present, q) then IsTop(present, q, after[q])
        else IsFirstBelow(seen + {p}, q, after[q])
    {
      if q in before {
        assert q != p;
      } else if q != p {
        assert after[q] == p && q in seen && !Above(present, q);
      }
      PartnerStays(present, seen, p, before, q);
      NotAfterSelf(p);
    }
  }

  lemma {:induction false} NotAfterSelf(p: Path)
    ensures NotAfter(p, p)
  {
  }

  lemma {:induction false} TopAbove(present: set<Path>, p: Path, after: map<Path, Path>)
    ensures p in after && IsTop(present, p, after[p]) ==> Above(present, p)
  {
  }

  lemma {:induction false} PartnerStays(present: set<Path>, seen: set<Path>, p: Path, before: map<Path, Path>, q: Path)
    requires CollisionsBelow(present, seen, before) && forall d :: d in seen ==> NotAfter(d, p)
    ensures q in before && q != p && !(q in seen && Above(present, q)) ==> IsFirstBelow(seen + {p}, q, before[q])
  {
    hide NotAfter;
  }

  lemma {:induction false} CollisionsDone(present: set<Path>, collisions: map<Path, Path>)
    requires CollisionsBelow(present, present, collisions) && [] !in present
    ensures Collisions(present, collisions)
  {
    hide NotAfter, IsTop, IsFirstBelow, Nested, Colliding, Above;
    forall p
      ensures p in collisions <==> Colliding(present, p)
      ensures p in collisions ==> collisions[p] in present && Nested(p, collisions[p])
    {
      assert p in collisions <==> p in present && (Above(present, p) || exists d :: d in present && p < d);
      CollidingIs(present, p);
      if p in collisions {
        PartnerNested(present, p, collisions[p]);
      }
    }
  }

  lemma {:induction false} CollidingIs(present: set<Path>, p: Path)
    requires [] !in present
    ensures Colliding(present, p) <==> p in present && (Above(present, p) || exists d :: d in present && p < d)
  {
    if d :| d in present && p < d && p in present {
      assert Nested(p, d);
    }
    if a :| a in present && a != [] && a < p && p in present {
      assert Nested(p, a);
    }
  }

  lemma {:induction false} PartnerNested(present: set<Path>, p: Path, c: Path)
    requires IsTop(present, p, c) || (IsFirstBelow(present, p, c) && p != [])
    ensures c in present && Nested(p, c)
  {
    hide NotAfter;
  }

  lemma {:induction false} PresentNamed(load: nat -> Bytes, m: Inputs, choices: map<Path, Choice>, applied: set<Path>,
      results: Results)
    requires [] !in AllPaths(m) && Decides(load, m, choices, applied, results)
    ensures [] !in Present(m, results)
  {
    hide Decided;
  }

  /** The aliases that a volume reports among the paths that do not collide already. */
  function AliasHits(aliases: set<Path> -> set<Path>, present: set<Path>, collisions: map<Path, Path>): set<Path> {
    var candidates := present - collisions.Keys;
    if |candidates| > 1 then aliases(candidates) else {}
  }

  /** A path that still needs its owner. */
  predicate Conflicting(outcome: Outcome, collisions: map<Path, Path>, hits: set<Path>, p: Path) {
    outcome.Unresolved? || p in collisions || p in hits
  }

  /** No path that conflicts has a choice left to apply. */
  ghost predicate AllChosen(choices: map<Path, Choice>, collisions: map<Path, Path>, hits: set<Path>,
      results: Results, applied: set<Path>)
  {
    forall p :: p in choices && p in results && Conflicting(results[p], collisions, hits, p) ==> p in applied
  }

  /** The choices applied next are those of every path that conflicts. */
  ghost predicate Applies(choices: map<Path, Choice>, collisions: map<Path, Path>, hits: set<Path>,
      results: Results, applied: set<Path>, more: set<Path>)
  {
    forall p :: p in more <==>
      p in applied || (p in results && p in choices && Conflicting(results[p], collisions, hits, p))
  }

  /** Applies the choices of every path that conflicts and has not been chosen. */
  method ApplyChoices(load: nat -> Bytes, m: Inputs, choices: map<Path, Choice>, collisions: map<Path, Path>,
      hits: set<Path>, results: Results, applied: set<Path>)
    returns (next: Results, more: set<Path>)
    requires Decides(load, m, choices, applied, results)
    ensures Decides(load, m, choices, more, next) && RoundLaw(load, m, choices, Round(more, next))
    ensures applied <= more && (more == applied ==> next == results)
    ensures more == applied <==> AllChosen(choices, collisions, hits, results, applied)
    ensures Applies(choices, collisions, hits, results, applied, more)
  {
    hide RoundLaw, Decides, AllPaths, Conflicting, Choose, SidesOf, ChosenBut, AllChosen, Applies;
    next, more := results, applied;
    var rest := results.Keys;
    NoneChosen(m, choices, collisions, hits, results, applied);
    while rest != {}
      invariant ChosenBut(m, choices, collisions, hits, results, applied, rest, next, more)
      decreases |rest|
    {
      ghost var before, chosen := next, more;
      var p :| p in rest;
      OneLeft(m, choices, collisions, hits, results, applied, rest, next, more, p);
      if Conflicting(next[p], collisions, hits, p) && p !in more && p in choices {
        next := next[p := Choose(choices[p], SidesOf(m, p))];
        more := more + {p};
      }
      OneChosen(m, choices, collisions, hits, results, applied, rest, before, chosen, p, next, more);
      rest := rest - {p};
    }
    AllAreChosen(load, m, choices, collisions, hits, results, applied, next, more);
    DecidesLaw(load, m, choices, more, next);
  }

  /** Every choice is applied that should be, except at the paths still to visit. */
  ghost predicate ChosenBut(m: Inputs, choices: map<Path, Choice>, collisions: map<Path, Path>, hits: set<Path>,
      results: Results, applied: set<Path>, rest: set<Path>, next: Results, more: set<Path>)
  {
    && rest <= results.Keys && next.Keys == results.Keys
    && (forall p :: p in more <==>
          p in applied || (p in results && p !in rest && p in choices && Conflicting(results[p], collisions, hits, p)))
    && (forall p :: p in next ==>
          next[p] == if p in more && p !in applied then Choose(choices[p], SidesOf(m, p)) else results[p])
  }

  lemma {:induction false} NoneChosen(m: Inputs, choices: map<Path, Choice>, collisions: map<Path, Path>,
      hits: set<Path>, results: Results, applied: set<Path>)
    ensures ChosenBut(m, choices, collisions, hits, results, applied, results.Keys, results, applied)
  {
    hide Conflicting, Choose, SidesOf;
  }

  lemma {:induction false} OneLeft(m: Inputs, choices: map<Path, Choice>, collisions: map<Path, Path>,
      hits: set<Path>, results: Results, applied: set<Path>, rest: set<Path>, next: Results, more: set<Path>, p: Path)
    requires ChosenBut(m, choices, collisions, hits, results, applied, rest, next, more) && p in rest
    ensures p in next && next[p] == results[p]
    ensures p in more ==> p in applied
  {
    hide Conflicting, Choose, SidesOf;
  }

  lemma {:induction false} OneChosen(m: Inputs, choices: map<Path, Choice>, collisions: map<Path, Path>,
      hits: set<Path>, results: Results, applied: set<Path>, rest: set<Path>, before: Results, chosen: set<Path>,
      p: Path, next: Results, more: set<Path>)
    requires ChosenBut(m, choices, collisions, hits, results, applied, rest, before, chosen) && p in rest
    requires p in before && before[p] == results[p]
    requires if Conflicting(before[p], collisions, hits, p) && p !in chosen && p in choices
      then next == before[p := Choose(choices[p], SidesOf(m, p))] && more == chosen + {p}
      else next == before && more == chosen
    ensures ChosenBut(m, choices, collisions, hits, results, applied, rest - {p}, next, more)
  {
    hide Conflicting, Choose, SidesOf;
  }

  lemma {:induction false} AllAreChosen(load: nat -> Bytes, m: Inputs, choices: map<Path, Choice>,
      collisions: map<Path, Path>, hits: set<Path>, results: Results, applied: set<Path>, next: Results,
      more: set<Path>)
    requires Decides(load, m, choices, applied, results)
    requires ChosenBut(m, choices, collisions, hits, results, applied, {}, next, more)
    ensures Decides(load, m, choices, more, next)
    ensures applied <= more && (more == applied ==> next == results)
    ensures more == applied <==> AllChosen(choices, collisions, hits, results, applied)
    ensures Applies(choices, collisions, hits, results, applied, more)
  {
    hide Decided, AllPaths, Conflicting, Choose, SidesOf;
    forall p | p in next ensures next[p] == Decided(load, m, choices, more, p)
    {
      DecidedMore(load, m, choices, applied, more, p);
    }
    if more == applied {
      assert forall p :: p in next ==> next[p] == results[p];
    }
  }

  lemma {:induction false} DecidedMore(load: nat -> Bytes, m: Inputs, choices: map<Path, Choice>, applied: set<Path>,
      more: set<Path>, p: Path)
    requires applied <= more && more <= choices.Keys
    ensures Decided(load, m, choices, more, p) == if p in more && p !in applied then Choose(choices[p], SidesOf(m, p))
      else Decided(load, m, choices, applied, p)
  {
    hide Initial;
  }

  /** Every path resolved from its sides, except the split renames. */
  method ResolveAll(load: nat -> Bytes, m: Inputs) returns (results: Results, partner: map<Path, Path>)
    ensures results.Keys == AllPaths(m) && forall p :: p in results ==> results[p] == Initial(load, m, p)
    ensures IsPartners(m, partner)
  {
    hide PathMerge, IsPartners, SidesOf, Initial, AllPaths;
    partner := Partners(m);
    results := map[];
    var rest := AllPaths(m);
    while rest != {}
      invariant rest <= AllPaths(m) && results.Keys == AllPaths(m) - rest
      invariant forall p :: p in results ==> results[p] == Initial(load, m, p)
      decreases |rest|
    {
      var p :| p in rest;
      var outcome := MergePath(load, SidesOf(m, p));
      InitialIs(load, m, partner, p);
      results := results[p := if p in partner then Unresolved(RenameRename) else outcome];
      rest := rest - {p};
    }
  }

  /** Exactly the split destinations have a partner, and it is the other destination. */
  ghost predicate IsPartners(m: Inputs, partner: map<Path, Path>) {
    && (forall p :: p in partner <==> exists q :: RenameSplit(m, p, q))
    && (forall p :: p in partner ==> RenameSplit(m, p, partner[p]))
  }

  lemma {:induction false} InitialIs(load: nat -> Bytes, m: Inputs, partner: map<Path, Path>, p: Path)
    requires IsPartners(m, partner)
    ensures Initial(load, m, p) == if p in partner then Unresolved(RenameRename) else PathMerge(load, SidesOf(m, p))
  {
    hide RenameSplit, PathMerge;
  }

  /** The destinations both sides renamed one base path to, differently, each with the other. */
  method Partners(m: Inputs) returns (partner: map<Path, Path>)
    ensures IsPartners(m, partner)
  {
    hide Renamed;
    var ours := RenamesTo(m.base, m.ours);
    var theirs := RenamesTo(m.base, m.theirs);
    partner := map[];
    var rest := ours.Keys;
    while rest != {}
      invariant rest <= ours.Keys
      invariant forall p :: p in partner ==> RenameSplit(m, p, partner[p])
      invariant forall from :: from in ours && from !in rest && from in theirs && theirs[from] != ours[from] ==>
        ours[from] in partner && theirs[from] in partner
      decreases |rest|
    {
      var from :| from in rest;
      if from in theirs && theirs[from] != ours[from] {
        var to, other := ours[from], theirs[from];
        assert Renamed(m.base, m.ours, from, to) && Renamed(m.base, m.theirs, from, other);
        assert RenameSplit(m, to, other) && RenameSplit(m, other, to);
        partner := partner[to := other][other := to];
      }
      rest := rest - {from};
    }
    forall p | exists q :: RenameSplit(m, p, q) ensures p in partner
    {
      var q :| RenameSplit(m, p, q);
      var from :|
        || (Renamed(m.base, m.ours, from, p) && Renamed(m.base, m.theirs, from, q))
        || (Renamed(m.base, m.theirs, from, p) && Renamed(m.base, m.ours, from, q));
      assert from in ours && from in theirs;
    }
  }

  /** What a conflict is reported as: a path's own reason first, then a collision, then an alias. */
  function KindOf(outcome: Outcome, collides: bool): ConflictKind {
    if outcome.Unresolved? then outcome.kind else if collides then PathPrefix else Alias
  }

  datatype MergeOutcome = MergeOutcome(merged: map<Path, Merged>, conflicts: map<Path, Conflict>, unused: set<Path>)

  /** Every resolved path is merged or in conflict, every unresolved one in conflict, with its sides and reason. */
  ghost predicate Reported(m: Inputs, results: Results, collisions: map<Path, Path>, hits: set<Path>, out: MergeOutcome)
  {
    && (forall p :: p in out.merged <==> p in results && results[p].Resolved? && p !in collisions && p !in hits)
    && (forall p :: p in out.merged ==> out.merged[p] == results[p].merged)
    && (forall p :: p in out.conflicts <==>
      p in results && (results[p].Unresolved? || (results[p].Resolved? && (p in collisions || p in hits))))
    && (forall p :: p in out.conflicts ==>
      out.conflicts[p].sides == SidesOf(m, p) && out.conflicts[p].kind == KindOf(results[p], p in collisions))
  }

  /** The second path a conflict names: a split rename's other destination, or what the path collides with. */
  function PartnerOf(outcome: Outcome, partner: map<Path, Path>, collisions: map<Path, Path>, p: Path): Option<Path> {
    if outcome.Unresolved? && outcome.kind == RenameRename then (if p in partner then Some(partner[p]) else None)
    else if p in collisions then Some(collisions[p])
    else None
  }

  ghost predicate PartnersKnown(results: Results, partner: map<Path, Path>, collisions: map<Path, Path>,
      out: MergeOutcome)
  {
    forall p :: p in out.conflicts ==>
      p in results && out.conflicts[p].partner == PartnerOf(results[p], partner, collisions, p)
  }

  /** The result of a merge, given which choices were applied and what then collides. */
  ghost predicate Reports(load: nat -> Bytes, m: Inputs, choices: map<Path, Choice>, aliases: set<Path> -> set<Path>,
      applied: set<Path>, results: Results, collisions: map<Path, Path>, out: MergeOutcome)
  {
    && Decides(load, m, choices, applied, results) && Collisions(Present(m, results), collisions)
    && out.unused == choices.Keys - applied
    && var hits := AliasHits(aliases, Present(m, results), collisions);
       && Reported(m, results, collisions, hits, out)
       && AllChosen(choices, collisions, hits, results, applied)
  }

  /** Sorts the final results into merged paths and conflicts. */
  method Report(m: Inputs, results: Results, collisions: map<Path, Path>, hits: set<Path>, partner: map<Path, Path>,
      unused: set<Path>)
    returns (out: MergeOutcome)
    ensures out.unused == unused
    ensures Reported(m, results, collisions, hits, out) && PartnersKnown(results, partner, collisions, out)
  {
    hide SidesOf, Reported, PartnersKnown, KindOf, PartnerOf, ReportedBut, WithReport;
    var merged: map<Path, Merged>, conflicts: map<Path, Conflict> := map[], map[];
    var rest := results.Keys;
    NothingReported(m, results, collisions, hits, partner, unused);
    while rest != {}
      invariant rest <= results.Keys
      invariant ReportedBut(m, results, rest, collisions, hits, partner, MergeOutcome(merged, conflicts, unused))
      decreases |rest|
    {
      var p :| p in rest;
      ghost var before := MergeOutcome(merged, conflicts, unused);
      var other := if p in collisions then Some(collisions[p]) else None;
      match results[p] {
        case Deleted =>
        case Unresolved(kind) =>
          var named := if kind == RenameRename then (if p in partner then Some(partner[p]) else None) else other;
          conflicts := conflicts[p := Conflict(kind, SidesOf(m, p), named)];
        case Resolved(result) =>
          if p in collisions || p in hits {
            conflicts := conflicts[p := Conflict(if p in collisions then PathPrefix else Alias, SidesOf(m, p), other)];
          } else {
            merged := merged[p := result];
          }
      }
      ReportAdds(m, results[p], collisions, hits, partner, before, p);
      ReportMore(m, results, rest, collisions, hits, partner, before, p);
      rest := rest - {p};
    }
    out := MergeOutcome(merged, conflicts, unused);
    ReportDone(m, results, collisions, hits, partner, out);
  }

  /** How one path is reported. */
  ghost predicate ReportedAt(m: Inputs, results: Results, collisions: map<Path, Path>, hits: set<Path>,
      partner: map<Path, Path>, out: MergeOutcome, p: Path)
    requires p in results
  {
    match results[p]
    case Deleted => p !in out.merged && p !in out.conflicts
    case Unresolved(kind) => p !in out.merged && p in out.conflicts && Known(m, results[p], collisions, partner, out, p)
    case Resolved(result) =>
      if p in collisions || p in hits
      then p !in out.merged && p in out.conflicts && Known(m, results[p], collisions, partner, out, p)
      else p in out.merged && out.merged[p] == result && p !in out.conflicts
  }

  ghost predicate Known(m: Inputs, outcome: Outcome, collisions: map<Path, Path>, partner: map<Path, Path>,
      out: MergeOutcome, p: Path)
    requires p in out.conflicts
  {
    out.conflicts[p] ==
      Conflict(KindOf(outcome, p in collisions), SidesOf(m, p), PartnerOf(outcome, partner, collisions, p))
  }

  /** Every path but the ones still to visit is reported, and no other path is. */
  ghost predicate ReportedBut(m: Inputs, results: Results, rest: set<Path>, collisions: map<Path, Path>,
      hits: set<Path>, partner: map<Path, Path>, out: MergeOutcome)
  {
    && (forall p :: p in results && p !in rest ==> ReportedAt(m, results, collisions, hits, partner, out, p))
    && (forall p :: p in out.merged || p in out.conflicts ==> p in results && p !in rest)
  }

  lemma {:induction false} NothingReported(m: Inputs, results: Results, collisions: map<Path, Path>, hits: set<Path>,
      partner: map<Path, Path>, unused: set<Path>)
    ensures ReportedBut(m, results, results.Keys, collisions, hits, partner, MergeOutcome(map[], map[], unused))
  {
  }

  /** The outcome once a path is reported too. */
  ghost function WithReport(m: Inputs, outcome: Outcome, collisions: map<Path, Path>, hits: set<Path>,
      partner: map<Path, Path>, out: MergeOutcome, p: Path): MergeOutcome
  {
    var named := PartnerOf(outcome, partner, collisions, p);
    var conflict := Conflict(KindOf(outcome, p in collisions), SidesOf(m, p), named);
    match outcome
    case Deleted => out
    case Unresolved(_) => out.(conflicts := out.conflicts[p := conflict])
    case Resolved(result) =>
      if p in collisions || p in hits then out.(conflicts := out.conflicts[p := conflict])
      else out.(merged := out.merged[p := result])
  }

  lemma {:induction false} ReportAdds(m: Inputs, outcome: Outcome, collisions: map<Path, Path>, hits: set<Path>,
      partner: map<Path, Path>, out: MergeOutcome, p: Path)
    ensures
      var other := if p in collisions then Some(collisions[p]) else None;
      WithReport(m, outcome, collisions, hits, partner, out, p) ==
        match outcome
        case Deleted => out
        case Unresolved(kind) =>
          var named := if kind == RenameRename then (if p in partner then Some(partner[p]) else None) else other;
          out.(conflicts := out.conflicts[p := Conflict(kind, SidesOf(m, p), named)])
        case Resolved(result) =>
          if p in collisions || p in hits then
            var kind := if p in collisions then PathPrefix else Alias;
            out.(conflicts := out.conflicts[p := Conflict(kind, SidesOf(m, p), other)])
          else out.(merged := out.merged[p := result])
  {
    hide SidesOf;
  }

  lemma {:induction false} ReportMore(m: Inputs, results: Results, rest: set<Path>, collisions: map<Path, Path>,
      hits: set<Path>, partner: map<Path, Path>, before: MergeOutcome, p: Path)
    requires ReportedBut(m, results, rest, collisions, hits, partner, before) && p in rest && p in results
    ensures ReportedBut(m, results, rest - {p}, collisions, hits, partner,
      WithReport(m, results[p], collisions, hits, partner, before, p))
  {
    hide SidesOf, KindOf, PartnerOf, ReportedAt;
    var after := WithReport(m, results[p], collisions, hits, partner, before, p);
    ReportNow(m, results, collisions, hits, partner, before, p);
    forall q | q in results && q !in rest ensures ReportedAt(m, results, collisions, hits, partner, after, q)
    {
      ReportStays(m, results, collisions, hits, partner, before, p, q);
    }
  }

  lemma {:induction false} ReportNow(m: Inputs, results: Results, collisions: map<Path, Path>, hits: set<Path>,
      partner: map<Path, Path>, before: MergeOutcome, p: Path)
    requires p in results && p !in before.merged && p !in before.conflicts
    ensures ReportedAt(m, results, collisions, hits, partner,
      WithReport(m, results[p], collisions, hits, partner, before, p), p)
  {
    hide SidesOf, KindOf, PartnerOf;
  }

  lemma {:induction false} ReportStays(m: Inputs, results: Results, collisions: map<Path, Path>, hits: set<Path>,
      partner: map<Path, Path>, before: MergeOutcome, p: Path, q: Path)
    requires p in results && q in results && q != p && ReportedAt(m, results, collisions, hits, partner, before, q)
    ensures ReportedAt(m, results, collisions, hits, partner,
      WithReport(m, results[p], collisions, hits, partner, before, p), q)
  {
    hide SidesOf, KindOf, PartnerOf;
  }

  lemma {:induction false} ReportDone(m: Inputs, results: Results, collisions: map<Path, Path>, hits: set<Path>,
      partner: map<Path, Path>, out: MergeOutcome)
    requires ReportedBut(m, results, {}, collisions, hits, partner, out)
    ensures Reported(m, results, collisions, hits, out) && PartnersKnown(results, partner, collisions, out)
  {
    hide SidesOf, KindOf, PartnerOf;
    forall p | p in results ensures ReportedAt(m, results, collisions, hits, partner, out, p)
    {
    }
  }

  // ------------------------------------------------------------------------ what a merge promises

  /** A side that changed a value has its way; both may have changed it alike. */
  predicate Keeps<T(==)>(base: T, ours: T, theirs: T, kept: T) {
    && (ours != base ==> kept == ours) && (theirs != base ==> kept == theirs)
    && (ours == base && theirs == base ==> kept == base)
  }

  /** A path ends as an entry, or deleted where there is none. */
  predicate EndsAs(entry: Option<FileEntry>, outcome: Outcome) {
    outcome == if entry.Some? then Resolved(Retained(entry.value)) else Deleted
  }

  /**
   What becomes of a regular file that both sides changed. The executable bit is the one a side
   changed it to. So is the content, if at most one version of it is new; otherwise the texts are
   merged line by line, unless one of them is binary.
   */
  ghost predicate RegularLaw(load: nat -> Bytes, base: FileEntry, ours: FileEntry, theirs: FileEntry, outcome: Outcome)
    requires base.Regular? && ours.Regular? && theirs.Regular?
  {
    var Regular(b, bx) := base;
    var Regular(o, ox) := ours;
    var Regular(t, tx) := theirs;
    if b == o || o == t || t == b then
      && outcome.Resolved? && outcome.merged.Retained? && outcome.merged.entry.Regular?
      && Keeps(b, o, t, outcome.merged.entry.content) && Keeps(bx, ox, tx, outcome.merged.entry.executable)
    else if NUL in load(b) || NUL in load(o) || NUL in load(t) then outcome == Unresolved(Binary)
    else
      match D.Merge3(SplitLines(load(b)), SplitLines(load(o)), SplitLines(load(t)))
      case None => outcome == Unresolved(Lines)
      case Some(lines) =>
        && outcome.Resolved? && outcome.merged.Content?
        && outcome.merged.bytes == Concat(lines) && Keeps(bx, ox, tx, outcome.merged.executable)
  }

  /** What becomes of a path by its three sides alone. */
  ghost predicate SidesLaw(load: nat -> Bytes, base: Option<FileEntry>, ours: Option<FileEntry>,
      theirs: Option<FileEntry>, outcome: Outcome)
  {
    if base == ours || ours == theirs || theirs == base then
      exists kept :: Keeps(base, ours, theirs, kept) && EndsAs(kept, outcome)
    else if base == None then outcome == Unresolved(AddAdd)
    else if ours == None || theirs == None then outcome == Unresolved(ModifyDelete)
    else if base.value.Regular? && ours.value.Regular? && theirs.value.Regular? then
      RegularLaw(load, base.value, ours.value, theirs.value, outcome)
    else outcome == Unresolved(EntryType)
  }

  /** What becomes of a path by its owner's choice. */
  predicate ChoiceLaw(ours: Option<FileEntry>, theirs: Option<FileEntry>, choice: Choice, outcome: Outcome) {
    match choice
    case Ours => EndsAs(ours, outcome)
    case Theirs => EndsAs(theirs, outcome)
    case Supplied(bytes, executable) =>
      && outcome.Resolved? && outcome.merged.Content? && outcome.merged.bytes == bytes
      && var bit := outcome.merged.executable;
         var (here, there) := (ours.Some? && ours.value.Regular?, theirs.Some? && theirs.value.Regular?);
         && (executable.Some? ==> bit == executable.value)
         && (executable == None && here ==> bit == ours.value.executable)
         && (executable == None && !here && there ==> bit == theirs.value.executable)
         && (executable == None && !here && !there ==> !bit)
  }

  /** What becomes of a path once some choices are applied. */
  ghost predicate PathLaw(load: nat -> Bytes, m: Inputs, choices: map<Path, Choice>, applied: set<Path>, p: Path,
      outcome: Outcome)
  {
    if p in applied then
      p in choices && ChoiceLaw(EntryAt(m.ours, p), EntryAt(m.theirs, p), choices[p], outcome)
    else if exists q :: RenameSplit(m, p, q) then outcome == Unresolved(RenameRename)
    else SidesLaw(load, EntryAt(m.base, p), EntryAt(m.ours, p), EntryAt(m.theirs, p), outcome)
  }

  /** A path that the owner's result may hold. */
  predicate Remains(m: Inputs, results: Results, p: Path) {
    p in results && match results[p]
      case Deleted => false
      case Resolved(_) => true
      case Unresolved(_) => p in m.ours || p in m.theirs
  }

  /** A path that remains above or below another one. */
  predicate Clashes(m: Inputs, results: Results, p: Path) {
    Remains(m, results, p) && exists q :: q in results && Remains(m, results, q) && (p < q || q < p)
  }

  /** A path that the volume confuses with another of those that remain and do not clash. */
  predicate Aliased(m: Inputs, aliases: set<Path> -> set<Path>, results: Results, p: Path) {
    var free := set q | q in results && Remains(m, results, q) && !Clashes(m, results, q);
    |free| > 1 && p in aliases(free)
  }

  /** The other path a conflict names: a split rename's other destination, or the one a path clashes with. */
  ghost predicate NamesOther(m: Inputs, results: Results, p: Path, other: Option<Path>)
    requires p in results
  {
    if results[p] == Unresolved(RenameRename) then other.Some? && RenameSplit(m, p, other.value)
    else if !Clashes(m, results, p) then other == None
    else
      && other.Some? && Remains(m, results, other.value)
      && if exists a :: Remains(m, results, a) && a < p then
           other.value < p && forall a :: Remains(m, results, a) && a < p ==> |other.value| <= |a|
         else p < other.value && forall d :: Remains(m, results, d) && p < d ==> NotAfter(other.value, d)
  }

  /** A merge shows each path as it ended: merged, in conflict with its sides and reason, or not at all. */
  ghost predicate Shows(m: Inputs, aliases: set<Path> -> set<Path>, results: Results, out: MergeOutcome) {
    && out.merged.Keys <= results.Keys && out.conflicts.Keys <= results.Keys
    && forall p :: p in results ==>
         var barred := Clashes(m, results, p) || Aliased(m, aliases, results, p);
         && (p in out.merged <==> results[p].Resolved? && !barred)
         && (p in out.merged ==> out.merged[p] == results[p].merged)
         && (p in out.conflicts <==> results[p].Unresolved? || (results[p].Resolved? && barred))
         && (p in out.conflicts ==>
               && out.conflicts[p].sides == Sides(EntryAt(m.base, p), EntryAt(m.ours, p), EntryAt(m.theirs, p))
               && out.conflicts[p].kind == (if results[p].Unresolved? then results[p].kind
                 else if Clashes(m, results, p) then PathPrefix else Alias)
               && NamesOther(m, results, p, out.conflicts[p].partner))
  }

  /** One round of choices: those applied so far, and what each path has come to. */
  datatype Round = Round(applied: set<Path>, results: Results)

  ghost predicate RoundLaw(load: nat -> Bytes, m: Inputs, choices: map<Path, Choice>, round: Round) {
    && round.results.Keys == m.base.Keys + m.ours.Keys + m.theirs.Keys
    && forall p :: p in round.results ==> PathLaw(load, m, choices, round.applied, p, round.results[p])
  }

  /** The next round applies the choices of every path that needs its owner. */
  ghost predicate RoundLeads(m: Inputs, choices: map<Path, Choice>, aliases: set<Path> -> set<Path>, round: Round,
      more: set<Path>)
  {
    forall p :: p in more <==>
      || p in round.applied
      || (p in choices && p in round.results
          && (round.results[p].Unresolved? || Clashes(m, round.results, p) || Aliased(m, aliases, round.results, p)))
  }

  ghost predicate IsRounds(load: nat -> Bytes, m: Inputs, choices: map<Path, Choice>,
      aliases: set<Path> -> set<Path>, rounds: seq<Round>)
  {
    && rounds != [] && rounds[0].applied == {}
    && (forall i :: 0 <= i < |rounds| ==> RoundLaw(load, m, choices, rounds[i]))
    && (forall i, j :: 0 <= i < j < |rounds| && j == i + 1 ==>
          RoundLeads(m, choices, aliases, rounds[i], rounds[j].applied))
  }

  /**
   What a merge promises: rounds of choices, each applying those of the paths that need their owner,
   up to one in which no more apply; that round's paths as the rules say; and the result showing them.
   */
  ghost predicate MergeLaw(load: nat -> Bytes, m: Inputs, choices: map<Path, Choice>,
      aliases: set<Path> -> set<Path>, rounds: seq<Round>, out: MergeOutcome)
  {
    && IsRounds(load, m, choices, aliases, rounds)
    && var last := rounds[|rounds| - 1];
       && RoundLeads(m, choices, aliases, last, last.applied)
       && Shows(m, aliases, last.results, out)
       && out.unused == choices.Keys - last.applied
  }

  lemma {:induction false} PathMergeLaw(load: nat -> Bytes, base: Option<FileEntry>, ours: Option<FileEntry>,
      theirs: Option<FileEntry>)
    ensures SidesLaw(load, base, ours, theirs, PathMerge(load, Sides(base, ours, theirs)))
  {
    hide D.Merge3, Concat, SplitLines;
    if base == ours || ours == theirs || theirs == base {
      assert Keeps(base, ours, theirs, if ours == base then theirs else ours);
    }
  }

  lemma {:induction false} ChooseLaw(choice: Choice, sides: Sides)
    ensures ChoiceLaw(sides.ours, sides.theirs, choice, Choose(choice, sides))
  {
  }

  /** Each path comes to what the rules say. */
  lemma {:induction false} DecidedLaw(load: nat -> Bytes, m: Inputs, choices: map<Path, Choice>, applied: set<Path>,
      p: Path)
    requires applied <= choices.Keys
    ensures PathLaw(load, m, choices, applied, p, Decided(load, m, choices, applied, p))
  {
    hide PathMerge, SidesLaw, ChoiceLaw, Choose, RenameSplit;
    PathMergeLaw(load, EntryAt(m.base, p), EntryAt(m.ours, p), EntryAt(m.theirs, p));
    if p in applied {
      ChooseLaw(choices[p], SidesOf(m, p));
    }
  }

  lemma {:induction false} DecidesLaw(load: nat -> Bytes, m: Inputs, choices: map<Path, Choice>, applied: set<Path>,
      results: Results)
    requires Decides(load, m, choices, applied, results)
    ensures RoundLaw(load, m, choices, Round(applied, results))
  {
    hide Decided, PathLaw;
    forall p | p in results ensures PathLaw(load, m, choices, applied, p, results[p])
    {
      DecidedLaw(load, m, choices, applied, p);
    }
  }

  lemma {:induction false} RemainsPresent(m: Inputs, results: Results, p: Path)
    ensures Remains(m, results, p) <==> p in Present(m, results)
  {
  }

  lemma {:induction false} ClashesCollides(m: Inputs, results: Results, p: Path)
    requires [] !in results
    ensures Clashes(m, results, p) <==> Colliding(Present(m, results), p)
  {
    hide Present, Remains;
    forall q ensures Remains(m, results, q) <==> q in Present(m, results)
      ensures Remains(m, results, q) ==> q in results
    {
      RemainsPresent(m, results, q);
      RemainsKnown(m, results, q);
    }
    if Colliding(Present(m, results), p) {
      var q :| q in Present(m, results) && Nested(p, q);
      assert q in results && Remains(m, results, q);
    }
    if Clashes(m, results, p) {
      var q :| q in results && Remains(m, results, q) && (p < q || q < p);
      assert Nested(p, q);
    }
  }

  lemma {:induction false} RemainsKnown(m: Inputs, results: Results, p: Path)
    ensures Remains(m, results, p) ==> p in results
  {
  }

  lemma {:induction false} AliasedHits(m: Inputs, aliases: set<Path> -> set<Path>, results: Results,
      collisions: map<Path, Path>, p: Path)
    requires [] !in results && Collisions(Present(m, results), collisions)
    ensures Aliased(m, aliases, results, p) <==> p in AliasHits(aliases, Present(m, results), collisions)
  {
    hide Present, Remains, Clashes, Colliding, Nested, IsTop, IsFirstBelow, Above;
    var free := set q | q in results && Remains(m, results, q) && !Clashes(m, results, q);
    forall q ensures q in free <==> q in Present(m, results) - collisions.Keys
    {
      RemainsPresent(m, results, q);
      RemainsKnown(m, results, q);
      ClashesCollides(m, results, q);
    }
    assert free == Present(m, results) - collisions.Keys;
  }

  /** What the checks find of every path. */
  ghost predicate Found(m: Inputs, aliases: set<Path> -> set<Path>, results: Results, collisions: map<Path, Path>,
      hits: set<Path>)
  {
    forall p :: (Clashes(m, results, p) <==> p in collisions) && (Aliased(m, aliases, results, p) <==> p in hits)
  }

  lemma {:induction false} ChecksFind(m: Inputs, aliases: set<Path> -> set<Path>, results: Results,
      collisions: map<Path, Path>, hits: set<Path>)
    requires [] !in results && Collisions(Present(m, results), collisions)
    requires hits == AliasHits(aliases, Present(m, results), collisions)
    ensures Found(m, aliases, results, collisions, hits)
  {
    hide Present, Clashes, Aliased, Colliding, AliasHits, IsTop, IsFirstBelow, Above, Nested;
    forall p
      ensures Clashes(m, results, p) <==> p in collisions
      ensures Aliased(m, aliases, results, p) <==> p in hits
    {
      ClashesCollides(m, results, p);
      AliasedHits(m, aliases, results, collisions, p);
    }
  }

  lemma {:induction false} OtherNamed(m: Inputs, results: Results, collisions: map<Path, Path>,
      partner: map<Path, Path>, p: Path)
    requires [] !in results && Collisions(Present(m, results), collisions) && IsPartners(m, partner)
    requires p in results && (Clashes(m, results, p) <==> p in collisions)
    requires results[p] == Unresolved(RenameRename) ==> p in partner
    ensures NamesOther(m, results, p, PartnerOf(results[p], partner, collisions, p))
  {
    hide Present, Clashes, Colliding, NotAfter, Nested, RenameSplit, Remains;
    forall q ensures Remains(m, results, q) <==> q in Present(m, results)
      ensures Remains(m, results, q) ==> q in results
    {
      RemainsPresent(m, results, q);
      RemainsKnown(m, results, q);
    }
  }

  /** A path is unresolved for a split rename only if it is a destination of one. */
  lemma {:induction false} SplitHasPartner(load: nat -> Bytes, m: Inputs, choices: map<Path, Choice>, round: Round,
      partner: map<Path, Path>, p: Path)
    requires RoundLaw(load, m, choices, round) && IsPartners(m, partner)
    requires p in round.results && round.results[p] == Unresolved(RenameRename)
    ensures p in partner
  {
    hide RenameSplit, D.Merge3, SplitLines, Concat;
  }

  lemma {:induction false} ReportShows(load: nat -> Bytes, m: Inputs, choices: map<Path, Choice>,
      aliases: set<Path> -> set<Path>, round: Round, collisions: map<Path, Path>, hits: set<Path>,
      partner: map<Path, Path>, out: MergeOutcome)
    requires RoundLaw(load, m, choices, round) && [] !in round.results && IsPartners(m, partner)
    requires Collisions(Present(m, round.results), collisions) && Found(m, aliases, round.results, collisions, hits)
    requires Reported(m, round.results, collisions, hits, out)
    requires PartnersKnown(round.results, partner, collisions, out)
    ensures Shows(m, aliases, round.results, out)
  {
    hide RoundLaw, IsPartners, Collisions, Present, Clashes, Aliased, NamesOther, PartnerOf;
    var results := round.results;
    forall p | p in out.conflicts ensures p in results && NamesOther(m, results, p, out.conflicts[p].partner)
    {
      if results[p] == Unresolved(RenameRename) {
        SplitHasPartner(load, m, choices, round, partner, p);
      }
      OtherNamed(m, results, collisions, partner, p);
    }
  }

  lemma {:induction false} ChoicesLead(m: Inputs, choices: map<Path, Choice>, aliases: set<Path> -> set<Path>,
      round: Round, collisions: map<Path, Path>, hits: set<Path>, more: set<Path>)
    requires Found(m, aliases, round.results, collisions, hits)
    requires Applies(choices, collisions, hits, round.results, round.applied, more)
    ensures RoundLeads(m, choices, aliases, round, more)
  {
    hide Clashes, Aliased;
  }

  lemma {:induction false} RoundsGrow(load: nat -> Bytes, m: Inputs, choices: map<Path, Choice>,
      aliases: set<Path> -> set<Path>, rounds: seq<Round>, round: Round)
    requires IsRounds(load, m, choices, aliases, rounds) && RoundLaw(load, m, choices, round)
    requires RoundLeads(m, choices, aliases, rounds[|rounds| - 1], round.applied)
    ensures IsRounds(load, m, choices, aliases, rounds + [round])
  {
    hide RoundLaw, RoundLeads;
  }

  /** A path in conflict only because another path is in its way. */
  predicate Barred(out: MergeOutcome, p: Path) {
    p !in out.merged && p in out.conflicts && (out.conflicts[p].kind == PathPrefix || out.conflicts[p].kind == Alias)
  }

  /** An owner's choice is what the merge holds at its path, unless another path is in the way. */
  predicate HoldsChoice(m: Inputs, choice: Choice, out: MergeOutcome, p: Path) {
    match choice
    case Ours =>
      if p in m.ours then Barred(out, p) || (p in out.merged && out.merged[p] == Retained(m.ours[p]))
      else p !in out.merged && p !in out.conflicts
    case Theirs =>
      if p in m.theirs then Barred(out, p) || (p in out.merged && out.merged[p] == Retained(m.theirs[p]))
      else p !in out.merged && p !in out.conflicts
    case Supplied(bytes, executable) =>
      || Barred(out, p)
      || (p in out.merged && out.merged[p].Content? && out.merged[p].bytes == bytes
          && var (bit, here, there) := (out.merged[p].executable, EntryAt(m.ours, p), EntryAt(m.theirs, p));
             if executable.Some? then bit == executable.value
             else if here.Some? && here.value.Regular? then bit == here.value.executable
             else if there.Some? && there.value.Regular? then bit == there.value.executable
             else !bit)
  }

  /** Every choice that is not reported as unused is held. */
  ghost predicate HoldsChoices(m: Inputs, choices: map<Path, Choice>, out: MergeOutcome) {
    && out.unused <= choices.Keys
    && forall p :: p in choices && p !in out.unused ==> HoldsChoice(m, choices[p], out, p)
  }

  lemma {:induction false} ChoiceHeld(load: nat -> Bytes, m: Inputs, choices: map<Path, Choice>,
      aliases: set<Path> -> set<Path>, rounds: seq<Round>, out: MergeOutcome, p: Path)
    requires MergeLaw(load, m, choices, aliases, rounds, out)
    requires p in choices && p !in out.unused && p in m.base.Keys + m.ours.Keys + m.theirs.Keys
    ensures HoldsChoice(m, choices[p], out, p)
  {
    hide IsRounds, RoundLaw, RoundLeads, PathLaw, ChoiceLaw, Shows, HoldsChoice;
    assert rounds != [] && RoundLaw(load, m, choices, rounds[|rounds| - 1]) by {
      LastRuled(load, m, choices, aliases, rounds);
    }
    var last := rounds[|rounds| - 1];
    assert p in last.results && ChoiceLaw(EntryAt(m.ours, p), EntryAt(m.theirs, p), choices[p], last.results[p]) by {
      AppliedRuled(load, m, choices, last, p);
    }
    ShownOrBarred(m, aliases, last.results, out, p);
    ChoiceShown(m, choices[p], last.results[p], out, p);
  }

  lemma {:induction false} LastRuled(load: nat -> Bytes, m: Inputs, choices: map<Path, Choice>,
      aliases: set<Path> -> set<Path>, rounds: seq<Round>)
    requires IsRounds(load, m, choices, aliases, rounds)
    ensures rounds != [] && RoundLaw(load, m, choices, rounds[|rounds| - 1])
  {
    hide RoundLaw, RoundLeads;
  }

  lemma {:induction false} AppliedRuled(load: nat -> Bytes, m: Inputs, choices: map<Path, Choice>, round: Round,
      p: Path)
    requires RoundLaw(load, m, choices, round) && p in choices && p in round.applied
    requires p in m.base.Keys + m.ours.Keys + m.theirs.Keys
    ensures p in round.results
      && ChoiceLaw(EntryAt(m.ours, p), EntryAt(m.theirs, p), choices[p], round.results[p])
  {
    hide ChoiceLaw, SidesLaw, RenameSplit;
    assert PathLaw(load, m, choices, round.applied, p, round.results[p]);
  }

  /** A resolved path is merged as it came out, or barred; a deleted one is not shown. */
  lemma {:induction false} ShownOrBarred(m: Inputs, aliases: set<Path> -> set<Path>, results: Results,
      out: MergeOutcome, p: Path)
    requires Shows(m, aliases, results, out) && p in results
    ensures results[p] == Deleted ==> p !in out.merged && p !in out.conflicts
    ensures results[p].Resolved? ==> Barred(out, p) || (p in out.merged && out.merged[p] == results[p].merged)
  {
    hide Clashes, Aliased, NamesOther;
  }

  lemma {:induction false} ChoiceShown(m: Inputs, choice: Choice, outcome: Outcome, out: MergeOutcome, p: Path)
    requires ChoiceLaw(EntryAt(m.ours, p), EntryAt(m.theirs, p), choice, outcome)
    requires outcome == Deleted ==> p !in out.merged && p !in out.conflicts
    requires outcome.Resolved? ==> Barred(out, p) || (p in out.merged && out.merged[p] == outcome.merged)
    ensures HoldsChoice(m, choice, out, p)
  {
    hide Barred;
  }

  /** A choice is applied only to a path of one of the three manifests. */
  lemma {:induction false} AppliedKnown(load: nat -> Bytes, m: Inputs, choices: map<Path, Choice>,
      aliases: set<Path> -> set<Path>, rounds: seq<Round>, n: nat)
    requires IsRounds(load, m, choices, aliases, rounds) && n < |rounds|
    ensures rounds[n].applied <= m.base.Keys + m.ours.Keys + m.theirs.Keys
  {
    if n > 0 {
      hide Clashes, Aliased, PathLaw;
      AppliedKnown(load, m, choices, aliases, rounds, n - 1);
      assert RoundLaw(load, m, choices, rounds[n - 1]);
      assert RoundLeads(m, choices, aliases, rounds[n - 1], rounds[n].applied);
    }
  }

  lemma {:induction false} ChoicesHeld(load: nat -> Bytes, m: Inputs, choices: map<Path, Choice>,
      aliases: set<Path> -> set<Path>, rounds: seq<Round>, out: MergeOutcome)
    requires MergeLaw(load, m, choices, aliases, rounds, out)
    ensures HoldsChoices(m, choices, out)
  {
    hide IsRounds, RoundLeads, Shows, HoldsChoice;
    assert rounds != [] by { LastRuled(load, m, choices, aliases, rounds); }
    var last := |rounds| - 1;
    AppliedKnown(load, m, choices, aliases, rounds, last);
    forall p | p in choices && p !in out.unused ensures HoldsChoice(m, choices[p], out, p)
    {
      ChoiceHeld(load, m, choices, aliases, rounds, out, p);
    }
  }

  /**
   Merges ours and theirs relative to the base, applying choices to conflicting paths until none
   applies. Each path ends merged, in conflict or deleted; no merged path is above another; a choice
   is applied exactly when its path conflicts at some point, so no remaining conflict has an
   unapplied choice.
   */
  method MergeResolved(load: nat -> Bytes, m: Inputs, choices: map<Path, Choice>, aliases: set<Path> -> set<Path>)
    returns (out: MergeOutcome, ghost applied: set<Path>, ghost results: Results, ghost collisions: map<Path, Path>,
      ghost rounds: seq<Round>)
    requires [] !in AllPaths(m)
    ensures rounds != [] && rounds[|rounds| - 1] == Round(applied, results)
    ensures Reports(load, m, choices, aliases, applied, results, collisions, out)
    ensures MergeLaw(load, m, choices, aliases, rounds, out) && HoldsChoices(m, choices, out)
    ensures forall p, q :: p in out.merged && q in out.merged ==> !(p < q)
    ensures forall p :: p in out.merged ==> p !in out.conflicts
  {
    hide HoldsChoices, Decides, Initial, AllPaths, RenameSplit, SidesOf, Present, Collisions, AliasHits, Conflicting,
      AllChosen, Reports, Reported, PartnersKnown, IsPartners, RoundLaw, RoundLeads, Found, MergeLaw, Applies, Analysed;
    var state, partner := ResolveAll(load, m);
    var chosen: set<Path> := {};
    rounds := [Round(chosen, state)];
    RoundsStart(load, m, choices, aliases, state);
    while true
      invariant InRounds(load, m, choices, aliases, rounds, chosen, state)
      decreases |choices.Keys - chosen|
    {
      RoundKnown(load, m, choices, aliases, rounds, chosen, state);
      var found, hits := Analyse(m, aliases, state);
      var next, more := ApplyChoices(load, m, choices, found, hits, state, chosen);
      if more == chosen {
        out := Report(m, state, found, hits, partner, choices.Keys - chosen);
        applied, results, collisions := chosen, state, found;
        RoundsDone(load, m, choices, aliases, rounds, chosen, state, found, hits, partner, out);
        return;
      }
      RoundsMore(load, m, choices, aliases, rounds, chosen, state, found, hits, more, next);
      state, chosen, rounds := next, more, rounds + [Round(more, next)];
    }
  }

  /** Structural collisions among the paths that remain, and the aliases among those that do not collide. */
  method Analyse(m: Inputs, aliases: set<Path> -> set<Path>, results: Results)
    returns (collisions: map<Path, Path>, hits: set<Path>)
    requires [] !in Present(m, results)
    ensures Analysed(m, aliases, results, collisions, hits)
  {
    hide Present, Collisions, AliasHits;
    var present := Present(m, results);
    collisions := FindCollisions(present);
    hits := AliasHits(aliases, present, collisions);
  }

  ghost predicate Analysed(m: Inputs, aliases: set<Path> -> set<Path>, results: Results, collisions: map<Path, Path>,
      hits: set<Path>)
  {
    Collisions(Present(m, results), collisions) && hits == AliasHits(aliases, Present(m, results), collisions)
  }

  /** The rounds so far, up to the choices applied and the results they lead to. */
  ghost predicate InRounds(load: nat -> Bytes, m: Inputs, choices: map<Path, Choice>,
      aliases: set<Path> -> set<Path>, rounds: seq<Round>, chosen: set<Path>, state: Results)
  {
    && Decides(load, m, choices, chosen, state)
    && IsRounds(load, m, choices, aliases, rounds) && rounds[|rounds| - 1] == Round(chosen, state)
  }

  lemma {:induction false} RoundsStart(load: nat -> Bytes, m: Inputs, choices: map<Path, Choice>,
      aliases: set<Path> -> set<Path>, state: Results)
    requires state.Keys == AllPaths(m) && forall p :: p in state ==> state[p] == Initial(load, m, p)
    ensures InRounds(load, m, choices, aliases, [Round({}, state)], {}, state)
  {
    hide Decides, AllPaths, Initial, RoundLaw, RoundLeads;
    NothingDecided(load, m, choices, state);
    DecidesLaw(load, m, choices, {}, state);
  }

  lemma {:induction false} RoundKnown(load: nat -> Bytes, m: Inputs, choices: map<Path, Choice>,
      aliases: set<Path> -> set<Path>, rounds: seq<Round>, chosen: set<Path>, state: Results)
    requires [] !in AllPaths(m) && InRounds(load, m, choices, aliases, rounds, chosen, state)
    ensures [] !in Present(m, state) && Decides(load, m, choices, chosen, state)
    ensures rounds != [] && rounds[|rounds| - 1] == Round(chosen, state)
  {
    hide Decides, AllPaths, Present, RoundLaw, RoundLeads;
    PresentNamed(load, m, choices, chosen, state);
  }

  lemma {:induction false} RoundsMore(load: nat -> Bytes, m: Inputs, choices: map<Path, Choice>,
      aliases: set<Path> -> set<Path>, rounds: seq<Round>, chosen: set<Path>, state: Results,
      found: map<Path, Path>, hits: set<Path>, more: set<Path>, next: Results)
    requires [] !in AllPaths(m) && InRounds(load, m, choices, aliases, rounds, chosen, state)
    requires Analysed(m, aliases, state, found, hits)
    requires Decides(load, m, choices, more, next) && chosen <= more && more != chosen
    requires Applies(choices, found, hits, state, chosen, more)
    ensures InRounds(load, m, choices, aliases, rounds + [Round(more, next)], more, next)
    ensures |choices.Keys - more| < |choices.Keys - chosen|
  {
    hide Decides, AllPaths, Present, Collisions, AliasHits, Applies, Found, RoundLaw, RoundLeads, IsRounds;
    DecidedPaths(load, m, choices, chosen, state);
    ChecksFind(m, aliases, state, found, hits);
    ChoicesLead(m, choices, aliases, Round(chosen, state), found, hits, more);
    NextRound(load, m, choices, chosen, more, next);
    DecidesLaw(load, m, choices, more, next);
    RoundsGrow(load, m, choices, aliases, rounds, Round(more, next));
  }

  lemma {:induction false} RoundsDone(load: nat -> Bytes, m: Inputs, choices: map<Path, Choice>,
      aliases: set<Path> -> set<Path>, rounds: seq<Round>, chosen: set<Path>, state: Results,
      found: map<Path, Path>, hits: set<Path>, partner: map<Path, Path>, out: MergeOutcome)
    requires [] !in AllPaths(m) && InRounds(load, m, choices, aliases, rounds, chosen, state)
    requires Analysed(m, aliases, state, found, hits)
    requires AllChosen(choices, found, hits, state, chosen) && IsPartners(m, partner)
    requires out.unused == choices.Keys - chosen
    requires Reported(m, state, found, hits, out) && PartnersKnown(state, partner, found, out)
    ensures Reports(load, m, choices, aliases, chosen, state, found, out)
    ensures MergeLaw(load, m, choices, aliases, rounds, out) && HoldsChoices(m, choices, out)
    ensures forall p, q :: p in out.merged && q in out.merged ==> !(p < q)
    ensures forall p :: p in out.merged ==> p !in out.conflicts
  {
    hide HoldsChoices, Decides, AllPaths, Present, Collisions, AliasHits, Conflicting, Found, RoundLaw, RoundLeads,
      IsRounds, Reports, Reported, PartnersKnown, IsPartners, AllChosen, MergeLaw;
    DecidedPaths(load, m, choices, chosen, state);
    ChecksFind(m, aliases, state, found, hits);
    LastLeads(m, choices, aliases, Round(chosen, state), found, hits);
    LastRound(load, m, choices, aliases, chosen, state, found, hits, out);
    LastShows(load, m, choices, aliases, rounds, found, hits, partner, out);
    ChoicesHeld(load, m, choices, aliases, rounds, out);
  }

  lemma {:induction false} LastLeads(m: Inputs, choices: map<Path, Choice>, aliases: set<Path> -> set<Path>,
      round: Round, collisions: map<Path, Path>, hits: set<Path>)
    requires Found(m, aliases, round.results, collisions, hits)
    requires AllChosen(choices, collisions, hits, round.results, round.applied)
    ensures RoundLeads(m, choices, aliases, round, round.applied)
  {
    hide Clashes, Aliased;
  }

  lemma {:induction false} LastShows(load: nat -> Bytes, m: Inputs, choices: map<Path, Choice>,
      aliases: set<Path> -> set<Path>, rounds: seq<Round>, collisions: map<Path, Path>, hits: set<Path>,
      partner: map<Path, Path>, out: MergeOutcome)
    requires IsRounds(load, m, choices, aliases, rounds) && IsPartners(m, partner)
    requires var last := rounds[|rounds| - 1];
      && RoundLeads(m, choices, aliases, last, last.applied) && out.unused == choices.Keys - last.applied
      && [] !in last.results
      && Collisions(Present(m, last.results), collisions) && Found(m, aliases, last.results, collisions, hits)
      && Reported(m, last.results, collisions, hits, out) && PartnersKnown(last.results, partner, collisions, out)
    ensures MergeLaw(load, m, choices, aliases, rounds, out)
  {
    hide RoundLaw, RoundLeads, IsPartners, Collisions, Present, Found, Reported, PartnersKnown, Shows;
    ReportShows(load, m, choices, aliases, rounds[|rounds| - 1], collisions, hits, partner, out);
  }

  lemma {:induction false} LastRound(load: nat -> Bytes, m: Inputs, choices: map<Path, Choice>,
      aliases: set<Path> -> set<Path>, applied: set<Path>, results: Results, collisions: map<Path, Path>,
      hits: set<Path>, out: MergeOutcome)
    requires [] !in AllPaths(m) && AllChosen(choices, collisions, hits, results, applied)
    requires Decides(load, m, choices, applied, results) && Collisions(Present(m, results), collisions)
    requires hits == AliasHits(aliases, Present(m, results), collisions) && out.unused == choices.Keys - applied
    requires Reported(m, results, collisions, hits, out)
    ensures Reports(load, m, choices, aliases, applied, results, collisions, out)
    ensures forall p, q :: p in out.merged && q in out.merged ==> !(p < q)
    ensures forall p :: p in out.merged ==> p !in out.conflicts
  {
    hide Decides, Collisions, Present, AliasHits, Reported, AllPaths, Reports;
    DecidedPaths(load, m, choices, applied, results);
    ReportsFinal(load, m, choices, aliases, applied, results, collisions, hits, out);
    MergedPrefixFree(m, results, collisions, hits, out);
  }

  lemma {:induction false} NextRound(load: nat -> Bytes, m: Inputs, choices: map<Path, Choice>, applied: set<Path>,
      more: set<Path>, next: Results)
    requires Decides(load, m, choices, more, next) && applied < more
    ensures |choices.Keys - more| < |choices.Keys - applied|
  {
    hide Decides, AllPaths;
    DecidedPaths(load, m, choices, more, next);
    Fewer(choices.Keys, applied, more);
  }

  lemma {:induction false} ReportsFinal(load: nat -> Bytes, m: Inputs, choices: map<Path, Choice>,
      aliases: set<Path> -> set<Path>, applied: set<Path>, results: Results, collisions: map<Path, Path>,
      hits: set<Path>, out: MergeOutcome)
    requires Decides(load, m, choices, applied, results) && Collisions(Present(m, results), collisions)
    requires hits == AliasHits(aliases, Present(m, results), collisions) && out.unused == choices.Keys - applied
    requires Reported(m, results, collisions, hits, out)
    requires AllChosen(choices, collisions, hits, results, applied)
    ensures Reports(load, m, choices, aliases, applied, results, collisions, out)
  {
    hide Decides, Collisions, Present, AliasHits, Reported, AllChosen;
  }

  lemma {:induction false} NothingDecided(load: nat -> Bytes, m: Inputs, choices: map<Path, Choice>, results: Results)
    requires results.Keys == AllPaths(m) && forall p :: p in results ==> results[p] == Initial(load, m, p)
    ensures Decides(load, m, choices, {}, results)
  {
    hide Initial;
  }

  lemma {:induction false} DecidedPaths(load: nat -> Bytes, m: Inputs, choices: map<Path, Choice>, applied: set<Path>,
      results: Results)
    requires Decides(load, m, choices, applied, results)
    ensures results.Keys == AllPaths(m) && applied <= choices.Keys
  {
    hide Decided;
  }

  lemma {:induction false} Fewer(all: set<Path>, less: set<Path>, more: set<Path>)
    requires less < more <= all
    ensures |all - more| < |all - less|
  {
    var p :| p in more && p !in less;
    SmallerSet(all - more, (all - less) - {p});
  }

  lemma {:induction false} MergedPrefixFree(m: Inputs, results: Results, collisions: map<Path, Path>, hits: set<Path>,
      out: MergeOutcome)
    requires Collisions(Present(m, results), collisions) && [] !in results
      && Reported(m, results, collisions, hits, out)
    ensures forall p, q :: p in out.merged && q in out.merged ==> !(p < q)
    ensures forall p :: p in out.merged ==> p !in out.conflicts
  {
    hide SidesOf, KindOf;
    forall p, q | p in out.merged && q in out.merged ensures !(p < q)
    {
      assert p in Present(m, results) && q in Present(m, results);
      assert !Colliding(Present(m, results), p);
      assert !Nested(p, q);
    }
  }

  // ------------------------------------------------------------------------- one-sided merges

  ghost predicate RetainsAll(out: MergeOutcome, files: Snapshot) {
    out.conflicts == map[] && out.merged.Keys == files.Keys && forall p :: p in files ==>
      out.merged[p] == Retained(files[p])
  }

  /** When every path simply takes its entry in one manifest, the merge is that manifest, cleanly. */
  lemma {:induction false} TakesAll(load: nat -> Bytes, m: Inputs, results: Results, collisions: map<Path, Path>,
      applied: set<Path>, out: MergeOutcome, files: Snapshot)
    requires PrefixFree(files) && Reports(load, m, map[], _ => {}, applied, results, collisions, out)
    requires files.Keys <= AllPaths(m) && forall p :: p in AllPaths(m) ==>
      Initial(load, m, p) == Take(EntryAt(files, p))
    ensures RetainsAll(out, files)
  {
    hide Initial, AllPaths, AllChosen, Reported, RetainsAll, Decides, Collisions, Present;
    ResultsTaken(load, m, results, applied, files);
    PresentTaken(m, results, files);
    assert collisions == map[] && AliasHits(_ => {}, Present(m, results), collisions) == {}
      by { NoCollisions(m, results, collisions, files); }
    TakenRetained(m, results, files, out);
  }

  lemma {:induction false} ResultsTaken(load: nat -> Bytes, m: Inputs, results: Results, applied: set<Path>,
      files: Snapshot)
    requires Decides(load, m, map[], applied, results) && files.Keys <= AllPaths(m)
    requires forall p :: p in AllPaths(m) ==> Initial(load, m, p) == Take(EntryAt(files, p))
    ensures files.Keys <= results.Keys && forall p :: p in results ==> results[p] == Take(EntryAt(files, p))
  {
    hide Initial, AllPaths;
  }

  lemma {:induction false} NoCollisions(m: Inputs, results: Results, collisions: map<Path, Path>, files: Snapshot)
    requires PrefixFree(files) && Present(m, results) == files.Keys && Collisions(Present(m, results), collisions)
    ensures collisions == map[] && AliasHits(_ => {}, Present(m, results), collisions) == {}
  {
    forall p ensures p !in collisions
    {
      NothingNested(files, p);
    }
  }

  lemma {:induction false} TakenRetained(m: Inputs, results: Results, files: Snapshot, out: MergeOutcome)
    requires files.Keys <= results.Keys && forall p :: p in results ==> results[p] == Take(EntryAt(files, p))
    requires Reported(m, results, map[], {}, out)
    ensures RetainsAll(out, files)
  {
    hide SidesOf, KindOf;
    assert forall p :: p in out.merged <==> p in files;
  }

  lemma {:induction false} PresentTaken(m: Inputs, results: Results, files: Snapshot)
    requires files.Keys <= results.Keys && forall p :: p in results ==> results[p] == Take(EntryAt(files, p))
    ensures Present(m, results) == files.Keys
  {
  }

  lemma {:induction false} NothingNested(files: Snapshot, p: Path)
    requires PrefixFree(files)
    ensures !Colliding(files.Keys, p)
  {
  }

  lemma {:induction false} SameSidesTake(load: nat -> Bytes, m: Inputs, p: Path)
    ensures m.ours == m.base ==> Initial(load, m, p) == Take(EntryAt(m.theirs, p))
    ensures m.theirs == m.base || m.theirs == m.ours ==> Initial(load, m, p) == Take(EntryAt(m.ours, p))
  {
    hide RegularMerge;
    forall q | m.ours == m.base || m.theirs == m.base || m.theirs == m.ours ensures !RenameSplit(m, p, q)
    {
      NoSplit(m, p, q);
    }
  }

  /** With a side unchanged, or both sides equal, no rename is split. */
  lemma {:induction false} NoSplit(m: Inputs, p: Path, q: Path)
    requires m.ours == m.base || m.theirs == m.base || m.theirs == m.ours
    ensures !RenameSplit(m, p, q)
  {
    if from :|
      || (Renamed(m.base, m.ours, from, p) && Renamed(m.base, m.theirs, from, q))
      || (Renamed(m.base, m.theirs, from, p) && Renamed(m.base, m.ours, from, q)) {
      assert m.theirs == m.ours ==> p == q;
    }
  }

  /**
   Merging with no choices and no aliases: a side that changed nothing, or both sides alike, gives the other
   side cleanly.
   */
  method MergePlain(load: nat -> Bytes, m: Inputs) returns (out: MergeOutcome)
    requires PrefixFree(m.base) && PrefixFree(m.ours) && PrefixFree(m.theirs)
    ensures m.ours == m.base ==> RetainsAll(out, m.theirs)
    ensures m.theirs == m.base || m.theirs == m.ours ==> RetainsAll(out, m.ours)
    ensures forall p, q :: p in out.merged && q in out.merged ==> !(p < q)
  {
    hide HoldsChoices, Reports, Initial, RetainsAll, MergeLaw;
    ghost var applied, results, collisions, rounds;
    out, applied, results, collisions, rounds := MergeResolved(load, m, map[], _ => {});
    forall p ensures (m.ours == m.base ==> Initial(load, m, p) == Take(EntryAt(m.theirs, p)))
      && (m.theirs == m.base || m.theirs == m.ours ==> Initial(load, m, p) == Take(EntryAt(m.ours, p)))
    {
      SameSidesTake(load, m, p);
    }
    if m.ours == m.base {
      TakesAll(load, m, results, collisions, applied, out, m.theirs);
    }
    if m.theirs == m.base || m.theirs == m.ours {
      TakesAll(load, m, results, collisions, applied, out, m.ours);
    }
  }

  /** Swapping the sides changes nothing that is decided without choices. */
  lemma {:induction false} InitialSymmetric(load: nat -> Bytes, m: Inputs, p: Path)
    ensures Initial(load, m, p) == Initial(load, Inputs(m.base, m.theirs, m.ours), p)
  {
    hide PathMerge, Renamed;
    var n := Inputs(m.base, m.theirs, m.ours);
    forall q ensures RenameSplit(m, p, q) <==> RenameSplit(n, p, q)
    {
    }
    PathMergeSymmetric(load, EntryAt(m.base, p), EntryAt(m.ours, p), EntryAt(m.theirs, p));
  }

  // -------------------------------------------------------------------------------- stacking

  function StoredEntry(put: Bytes -> nat, merged: Merged): FileEntry {
    match merged
    case Retained(entry) => entry
    case Content(bytes, executable) => Regular(put(bytes), executable)
  }

  datatype Stacked = Stacked(changes: Changeset, manifest: Snapshot) | Unclean(conflicts: map<Path, Conflict>)
    | UnusedChoice(path: Path)

  /**
   The changeset a Stack commits over the target's own base. When the merge is clean, it is
   normalized and applying it to the target's base yields exactly the merged manifest.
   */
  method StackChanges(load: nat -> Bytes, put: Bytes -> nat, m: Inputs, choices: map<Path, Choice>,
      aliases: set<Path> -> set<Path>, target: Snapshot)
    returns (r: Stacked, ghost out: MergeOutcome)
    requires [] !in AllPaths(m)
    ensures r.Stacked? <==> out.unused == {} && out.conflicts == map[]
    ensures r.Stacked? ==> Changed(target, r.changes) == r.manifest && Normalized(target, r.changes)
    ensures r.Stacked? ==> PrefixFree(r.manifest)
    ensures r.Unclean? ==> r.conflicts != map[]
    ensures r.Stacked? ==> r.manifest == (map p | p in out.merged :: StoredEntry(put, out.merged[p]))
    ensures r.Unclean? ==> r.conflicts == out.conflicts
    ensures r.UnusedChoice? ==> r.path in out.unused
    ensures exists applied, results, collisions :: Reports(load, m, choices, aliases, applied, results, collisions, out)
    ensures exists rounds :: MergeLaw(load, m, choices, aliases, rounds, out)
    ensures HoldsChoices(m, choices, out)
  {
    hide HoldsChoices, Reports, MergeLaw, AllPaths, Normalized, Changed, Differences, PrefixFree;
    ghost var applied, results, collisions, rounds;
    var outcome;
    outcome, applied, results, collisions, rounds := MergeResolved(load, m, choices, aliases);
    out := outcome;
    if outcome.unused != {} {
      var path :| path in outcome.unused;
      return UnusedChoice(path), out;
    }
    if outcome.conflicts != map[] {
      return Unclean(outcome.conflicts), out;
    }
    var manifest := map p | p in outcome.merged :: StoredEntry(put, outcome.merged[p]);
    assert PrefixFree(manifest)
      by { MergedKnown(load, m, choices, aliases, applied, results, collisions, out); ManifestPrefixFree(manifest,
      outcome.merged.Keys); }
    DifferenceArrives(target, manifest);
    DifferenceStays(target, manifest);
    return Stacked(Differences(target, manifest), manifest), out;
  }

  lemma {:induction false} MergedKnown(load: nat -> Bytes, m: Inputs, choices: map<Path, Choice>,
      aliases: set<Path> -> set<Path>, applied: set<Path>, results: Results, collisions: map<Path, Path>,
      out: MergeOutcome)
    requires Reports(load, m, choices, aliases, applied, results, collisions, out) && [] !in AllPaths(m)
    ensures [] !in out.merged
  {
    hide AllPaths, Decided;
  }

  lemma {:induction false} ManifestPrefixFree(manifest: Snapshot, paths: set<Path>)
    requires manifest.Keys == paths && [] !in paths && forall p, q :: p in paths && q in paths ==> !(p < q)
    ensures PrefixFree(manifest)
  {
  }

  lemma {:induction false} DifferenceStays(before: Snapshot, after: Snapshot)
    requires PrefixFree(after)
    ensures Normalized(before, Differences(before, after))
  {
    DifferenceArrives(before, after);
  }
}
