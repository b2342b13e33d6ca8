/**
 Three-way line merge without convergence (crates/javelin-merge/src/lib.rs): base lines matched on
 both sides are anchors, each region between anchors is taken from the only side that changed it,
 and a switch of sides needs an anchor that could not have been matched anywhere else.
 */
module Diff3 {
  import opened Names
  import opened Myers
  import opened LongestMatching

  type Text = seq<Line>

  // ---------------------------------------------------------------------------- matched rows

  function RowAt(pairs: seq<Pair>, i: nat): Option<nat> {
    if pairs == [] then None
    else if pairs[|pairs| - 1].0 == i then Some(pairs[|pairs| - 1].1)
    else RowAt(pairs[..|pairs| - 1], i)
  }

  /** For each base line, the line of the other text it is matched with. */
  function Rows(a: Text, b: Text): seq<Option<nat>> {
    seq(|a|, i requires 0 <= i < |a| => RowAt(Trace(a, b, |a|, |b|), i))
  }

  /** Matched rows hold equal lines and never cross. */
  ghost predicate Rowed(a: Text, b: Text, rows: seq<Option<nat>>) {
    && |rows| == |a|
    && (forall i :: 0 <= i < |rows| && rows[i].Some? ==> rows[i].value < |b| && a[i] == b[rows[i].value])
    && (forall i, j :: 0 <= i < j < |rows| && rows[i].Some? && rows[j].Some? ==> rows[i].value < rows[j].value)
  }

  lemma {:induction false} RowAtHas(a: Text, b: Text, pairs: seq<Pair>, i: nat, j: nat)
    requires IsMatching(a, b, pairs)
    ensures RowAt(pairs, i) == Some(j) <==> (i, j) in pairs
  {
    if pairs != [] {
      var front, last := pairs[..|pairs| - 1], pairs[|pairs| - 1];
      assert pairs == front + [last];
      RowAtHas(a, b, front, i, j);
      assert (i, j) in pairs <==> (i, j) in front || (i, j) == last;
      assert (i, j) in front ==> i < last.0;
    }
  }

  lemma {:induction false} TraceMatches(a: Text, b: Text, i: nat, j: nat)
    requires i <= |a| && j <= |b|
    ensures IsMatching(a, b, Trace(a, b, i, j)) && Within(Trace(a, b, i, j), i, j)
  {
    hide Prefix;
    if i > 0 && j > 0 {
      if a[i - 1] == b[j - 1] {
        TraceMatches(a, b, i - 1, j - 1);
        Append(a, b, Trace(a, b, i - 1, j - 1), [(i - 1, j - 1)], i - 1, j - 1);
      } else if Prefix(a, b, i - 1, j) >= Prefix(a, b, i, j - 1) {
        TraceMatches(a, b, i - 1, j);
      } else {
        TraceMatches(a, b, i, j - 1);
      }
    }
  }

  lemma {:induction false} RowsRowed(a: Text, b: Text)
    ensures Rowed(a, b, Rows(a, b))
  {
    hide Trace, RowAt, IsMatching;
    var pairs, rows := Trace(a, b, |a|, |b|), Rows(a, b);
    TraceMatches(a, b, |a|, |b|);
    forall i | 0 <= i < |rows| && rows[i].Some? ensures rows[i].value < |b| && a[i] == b[rows[i].value]
    {
      RowAtHas(a, b, pairs, i, rows[i].value);
      PairFacts(a, b, pairs, i, rows[i].value, i, rows[i].value);
    }
    forall i, j | 0 <= i < j < |rows| && rows[i].Some? && rows[j].Some? ensures rows[i].value < rows[j].value
    {
      RowAtHas(a, b, pairs, i, rows[i].value);
      RowAtHas(a, b, pairs, j, rows[j].value);
      PairFacts(a, b, pairs, i, rows[i].value, j, rows[j].value);
    }
  }

  lemma {:induction false} PairFacts(a: Text, b: Text, pairs: seq<Pair>, i: nat, x: nat, j: nat, y: nat)
    requires IsMatching(a, b, pairs) && (i, x) in pairs && (j, y) in pairs
    ensures i < |a| && x < |b| && a[i] == b[x]
    ensures i < j ==> x < y
  {
    var k :| 0 <= k < |pairs| && pairs[k] == (i, x);
    var l :| 0 <= l < |pairs| && pairs[l] == (j, y);
  }

  /** What the matching returns are these rows. */
  lemma {:induction false} MatchedRows(a: Text, b: Text, matched: seq<Option<nat>>)
    requires |matched| == |a| && forall i, j :: 0 <= i < |a| ==>
      (matched[i] == Some(j) <==> (i, j) in Trace(a, b, |a|, |b|))
    ensures matched == Rows(a, b)
  {
    hide Trace, RowAt, IsMatching;
    TraceMatches(a, b, |a|, |b|);
    forall i | 0 <= i < |a| ensures matched[i] == Rows(a, b)[i]
    {
      var row := Rows(a, b)[i];
      if matched[i].Some? {
        RowAtHas(a, b, Trace(a, b, |a|, |b|), i, matched[i].value);
      } else if row.Some? {
        RowAtHas(a, b, Trace(a, b, |a|, |b|), i, row.value);
      }
    }
  }

  // ------------------------------------------------------------------------------- regions

  /** Aligned stretches of the three texts, and the base line that anchors their end. */
  datatype Region = Region(base: Text, ours: Text, theirs: Text, anchor: Option<nat>)

  /** The next base line at or after `b` matched on both sides. */
  function NextAnchor(inOurs: seq<Option<nat>>, inTheirs: seq<Option<nat>>, b: nat): (anchor: Option<nat>)
    requires |inOurs| == |inTheirs| && b <= |inOurs|
    ensures anchor.Some? ==> b <= anchor.value < |inOurs| && inOurs[anchor.value].Some? && inTheirs[anchor.value].Some?
    ensures forall i :: b <= i < (if anchor.Some? then anchor.value else |inOurs|) ==>
      inOurs[i].None? || inTheirs[i].None?
    decreases |inOurs| - b
  {
    if b == |inOurs| then None
    else if inOurs[b].Some? && inTheirs[b].Some? then Some(b)
    else NextAnchor(inOurs, inTheirs, b + 1)
  }

  /** Every match at or after a base line lies at or after the cursor. */
  ghost predicate Ahead(rows: seq<Option<nat>>, b: nat, cursor: nat) {
    forall i :: b <= i < |rows| && rows[i].Some? ==> rows[i].value >= cursor
  }

  /** Where the three texts stand. */
  ghost predicate Standing(base: Text, ours: Text, theirs: Text, inOurs: seq<Option<nat>>, inTheirs: seq<Option<nat>>,
      b: nat, o: nat, t: nat)
  {
    && Rowed(base, ours, inOurs) && Rowed(base, theirs, inTheirs)
    && b <= |base| && o <= |ours| && t <= |theirs|
    && Ahead(inOurs, b, o) && Ahead(inTheirs, b, t)
  }

  function Regions(base: Text, ours: Text, theirs: Text, inOurs: seq<Option<nat>>, inTheirs: seq<Option<nat>>, b: nat,
      o: nat, t: nat): seq<Region>
    requires Standing(base, ours, theirs, inOurs, inTheirs, b, o, t)
    decreases |base| - b
  {
    var anchor := NextAnchor(inOurs, inTheirs, b);
    if anchor.None? then [Region(base[b..], ours[o..], theirs[t..], None)]
    else
      var i := anchor.value;
      var no, nt := inOurs[i].value, inTheirs[i].value;
      [Region(base[b..i], ours[o..no], theirs[t..nt], Some(i))]
        + Regions(base, ours, theirs, inOurs, inTheirs, i + 1, no + 1, nt + 1)
  }

  lemma {:induction false} RowedSizes(base: Text, ours: Text, theirs: Text, inOurs: seq<Option<nat>>,
      inTheirs: seq<Option<nat>>, b: nat, o: nat, t: nat)
    requires Standing(base, ours, theirs, inOurs, inTheirs, b, o, t)
    ensures |inOurs| == |base| == |inTheirs| && b <= |base| && o <= |ours| && t <= |theirs|
  {
  }

  lemma {:induction false} StandingNext(base: Text, ours: Text, theirs: Text, inOurs: seq<Option<nat>>,
      inTheirs: seq<Option<nat>>, b: nat, o: nat, t: nat, i: nat)
    requires Standing(base, ours, theirs, inOurs, inTheirs, b, o, t)
    requires |inOurs| == |base| == |inTheirs| && b <= i < |base| && inOurs[i].Some? && inTheirs[i].Some?
    ensures o <= inOurs[i].value < |ours| && t <= inTheirs[i].value < |theirs|
    ensures base[i] == ours[inOurs[i].value] == theirs[inTheirs[i].value]
    ensures Standing(base, ours, theirs, inOurs, inTheirs, i + 1, inOurs[i].value + 1, inTheirs[i].value + 1)
  {
  }

  lemma {:induction false} RegionsLast(base: Text, ours: Text, theirs: Text, inOurs: seq<Option<nat>>,
      inTheirs: seq<Option<nat>>, b: nat, o: nat, t: nat)
    requires Standing(base, ours, theirs, inOurs, inTheirs, b, o, t) && |inOurs| == |base| == |inTheirs|
      && b <= |base| && o <= |ours| && t <= |theirs|
    requires NextAnchor(inOurs, inTheirs, b) == None
    ensures Regions(base, ours, theirs, inOurs, inTheirs, b, o, t) == [Region(base[b..], ours[o..], theirs[t..], None)]
  {
  }

  lemma {:induction false} RegionsNext(base: Text, ours: Text, theirs: Text, inOurs: seq<Option<nat>>,
      inTheirs: seq<Option<nat>>, b: nat, o: nat, t: nat, i: nat)
    requires Standing(base, ours, theirs, inOurs, inTheirs, b, o, t) && |inOurs| == |base| == |inTheirs|
    requires b <= i < |base| && NextAnchor(inOurs, inTheirs, b) == Some(i) && inOurs[i].Some? && inTheirs[i].Some?
    requires o <= inOurs[i].value < |ours| && t <= inTheirs[i].value < |theirs|
    requires Standing(base, ours, theirs, inOurs, inTheirs, i + 1, inOurs[i].value + 1, inTheirs[i].value + 1)
    ensures Regions(base, ours, theirs, inOurs, inTheirs, b, o, t)
         == [Region(base[b..i], ours[o..inOurs[i].value], theirs[t..inTheirs[i].value], Some(i))]
            + Regions(base, ours, theirs, inOurs, inTheirs, i + 1, inOurs[i].value + 1, inTheirs[i].value + 1)
  {
    hide Standing;
  }

  function AllRegions(base: Text, ours: Text, theirs: Text): seq<Region> {
    RowsRowed(base, ours);
    RowsRowed(base, theirs);
    Regions(base, ours, theirs, Rows(base, ours), Rows(base, theirs), 0, 0, 0)
  }

  /** At most one side changed a region. */
  predicate OneSided(r: Region) {
    r.ours == r.base || r.theirs == r.base
  }

  /** The side that changed a region, ours being true. */
  function SideOf(r: Region): Option<bool> {
    if r.ours == r.base then (if r.theirs == r.base then None else Some(false)) else Some(true)
  }

  /** What a region contributes: the changed side, or the base. */
  function Taken(r: Region): Text {
    if r.ours == r.base then r.theirs else r.ours
  }

  function AnchorLine(base: Text, anchor: Option<nat>): Text {
    if anchor.Some? && anchor.value < |base| then [base[anchor.value]] else []
  }

  /** One text read off the regions, each followed by its anchor line. */
  function Read(base: Text, regions: seq<Region>, pick: Region -> Text): Text {
    if regions == [] then []
    else
      var last := regions[|regions| - 1];
      Read(base, regions[..|regions| - 1], pick) + pick(last) + AnchorLine(base, last.anchor)
  }

  predicate Unique(base: Text, ours: Text, theirs: Text, line: Line) {
    multiset(base)[line] == 1 && multiset(ours)[line] == 1 && multiset(theirs)[line] == 1
  }

  /**
   An anchor that no other minimal diff could place elsewhere: unique in all three texts and kept by every
   longest matching.
   */
  ghost predicate Separates(base: Text, ours: Text, theirs: Text, anchor: Option<nat>) {
    && anchor.Some? && anchor.value < |base| && Unique(base, ours, theirs, base[anchor.value])
    && Mandatory(base, ours, anchor.value) && Mandatory(base, theirs, anchor.value)
  }

  /** Two changed regions from different sides with nothing changed between them. */
  predicate Switch(regions: seq<Region>, p: nat, q: nat)
    requires p < q < |regions|
  {
    && SideOf(regions[p]).Some? && SideOf(regions[q]).Some? && SideOf(regions[p]) != SideOf(regions[q])
    && forall r :: p < r < q ==> SideOf(regions[r]).None?
  }

  ghost predicate SeparatedBetween(base: Text, ours: Text, theirs: Text, regions: seq<Region>, p: nat, q: nat)
    requires p <= q <= |regions|
  {
    exists s :: p <= s < q && Separates(base, ours, theirs, regions[s].anchor)
  }

  ghost predicate SwitchesSeparated(base: Text, ours: Text, theirs: Text, regions: seq<Region>) {
    forall p, q :: 0 <= p < q < |regions| && Switch(regions, p, q) ==>
      SeparatedBetween(base, ours, theirs, regions, p, q)
  }

  ghost predicate Mergeable(base: Text, ours: Text, theirs: Text) {
    var regions := AllRegions(base, ours, theirs);
    (forall r :: 0 <= r < |regions| ==> OneSided(regions[r])) && SwitchesSeparated(base, ours, theirs, regions)
  }

  /** The merged text, when the texts merge. */
  ghost function Merge3(base: Text, ours: Text, theirs: Text): Option<Text> {
    if Mergeable(base, ours, theirs) then Some(Read(base, AllRegions(base, ours, theirs), Taken)) else None
  }

  // ------------------------------------------------------------------------------ alignment

  function BaseOf(r: Region): Text { r.base }
  function OursOf(r: Region): Text { r.ours }
  function TheirsOf(r: Region): Text { r.theirs }

  lemma {:induction false} ReadFirst(base: Text, first: Region, rest: seq<Region>, pick: Region -> Text)
    ensures Read(base, [first] + rest, pick) == pick(first) + AnchorLine(base, first.anchor) + Read(base, rest, pick)
    decreases |rest|
  {
    if rest == [] {
      ReadOne(base, first, pick);
      assert [first] + rest == [first];
    } else {
      hide Read, AnchorLine;
      var front, last := FrontLast(first, rest);
      ReadFirst(base, first, front, pick);
      ReadLast(base, [first] + front, last, pick);
      ReadLast(base, front, last, pick);
      Regroup(pick(first) + AnchorLine(base, first.anchor), Read(base, front, pick), pick(last),
        AnchorLine(base, last.anchor));
    }
  }

  lemma {:induction false} FrontLast(first: Region, rest: seq<Region>) returns (front: seq<Region>, last: Region)
    requires rest != []
    ensures |front| < |rest| && rest == front + [last] && [first] + rest == [first] + front + [last]
  {
    front, last := rest[..|rest| - 1], rest[|rest| - 1];
  }

  lemma {:induction false} Regroup(a: Text, b: Text, c: Text, d: Text)
    ensures a + b + c + d == a + (b + c + d)
  {
  }

  lemma {:induction false} ReadOne(base: Text, first: Region, pick: Region -> Text)
    ensures Read(base, [first], pick) == pick(first) + AnchorLine(base, first.anchor) + Read(base, [], pick)
  {
    assert [first][..0] == [];
  }

  lemma {:induction false} ReadLast(base: Text, front: seq<Region>, last: Region, pick: Region -> Text)
    ensures Read(base, front + [last], pick) == Read(base, front, pick) + pick(last) + AnchorLine(base, last.anchor)
  {
    hide AnchorLine;
    assert (front + [last])[..|front + [last]| - 1] == front;
  }

  /** The regions and their anchors cut each of the three texts into consecutive pieces, in step. */
  lemma {:induction false} RegionsCover(base: Text, ours: Text, theirs: Text, inOurs: seq<Option<nat>>,
      inTheirs: seq<Option<nat>>, b: nat, o: nat, t: nat)
    requires Standing(base, ours, theirs, inOurs, inTheirs, b, o, t)
    ensures var regions := Regions(base, ours, theirs, inOurs, inTheirs, b, o, t);
      && Read(base, regions, BaseOf) == base[b..] && Read(base, regions, OursOf) == ours[o..]
        && Read(base, regions, TheirsOf) == theirs[t..]
    decreases |base| - b
  {
    hide Read, Regions, Standing;
    RowedSizes(base, ours, theirs, inOurs, inTheirs, b, o, t);
    var anchor := NextAnchor(inOurs, inTheirs, b);
    if anchor.None? {
      RegionsLast(base, ours, theirs, inOurs, inTheirs, b, o, t);
      var last := Region(base[b..], ours[o..], theirs[t..], None);
      assert [last] + [] == [last];
      ReadNothing(base, BaseOf);
      ReadNothing(base, OursOf);
      ReadNothing(base, TheirsOf);
      ReadFirst(base, last, [], BaseOf);
      ReadFirst(base, last, [], OursOf);
      ReadFirst(base, last, [], TheirsOf);
    } else {
      var i := anchor.value;
      StandingNext(base, ours, theirs, inOurs, inTheirs, b, o, t, i);
      RegionsNext(base, ours, theirs, inOurs, inTheirs, b, o, t, i);
      var no, nt := inOurs[i].value, inTheirs[i].value;
      var first := Region(base[b..i], ours[o..no], theirs[t..nt], Some(i));
      var rest := Regions(base, ours, theirs, inOurs, inTheirs, i + 1, no + 1, nt + 1);
      RegionsCover(base, ours, theirs, inOurs, inTheirs, i + 1, no + 1, nt + 1);
      ReadFirst(base, first, rest, BaseOf);
      ReadFirst(base, first, rest, OursOf);
      ReadFirst(base, first, rest, TheirsOf);
      assert base[b..] == base[b..i] + [base[i]] + base[i + 1..];
      assert ours[o..] == ours[o..no] + [ours[no]] + ours[no + 1..];
      assert theirs[t..] == theirs[t..nt] + [theirs[nt]] + theirs[nt + 1..];
    }
  }

  lemma {:induction false} ReadNothing(base: Text, pick: Region -> Text)
    ensures Read(base, [], pick) == []
  {
  }

  /**
   What a successful merge guarantees: base, ours, theirs and the output are cut into the same
   aligned regions and anchors, in each region one side equals the base and the output is the other
   side, and each switch of sides is separated.
   */
  lemma {:induction false} MergeAligned(base: Text, ours: Text, theirs: Text)
    requires Merge3(base, ours, theirs).Some?
    ensures var regions, output := AllRegions(base, ours, theirs), Merge3(base, ours, theirs).value;
      && Read(base, regions, BaseOf) == base && Read(base, regions, OursOf) == ours
        && Read(base, regions, TheirsOf) == theirs
      && Read(base, regions, Taken) == output
      && (forall r :: 0 <= r < |regions| ==>
            (regions[r].ours == regions[r].base && Taken(regions[r]) == regions[r].theirs)
            || (regions[r].theirs == regions[r].base && Taken(regions[r]) == regions[r].ours))
      && (forall p, q :: 0 <= p < q < |regions| && Switch(regions, p, q) ==>
            exists s :: p <= s < q && Separates(base, ours, theirs, regions[s].anchor))
  {
    hide Read, Regions, Rows, Separates;
    RowsRowed(base, ours);
    RowsRowed(base, theirs);
    RegionsCover(base, ours, theirs, Rows(base, ours), Rows(base, theirs), 0, 0, 0);
    assert base[0..] == base && ours[0..] == ours && theirs[0..] == theirs;
    var regions := AllRegions(base, ours, theirs);
    forall p, q | 0 <= p < q < |regions| && Switch(regions, p, q)
      ensures exists s :: p <= s < q && Separates(base, ours, theirs, regions[s].anchor)
    {
      assert SeparatedBetween(base, ours, theirs, regions, p, q);
    }
  }

  /** Every base line matched on both sides, and no other line, is an anchor. */
  ghost predicate AnchorsAll(inOurs: seq<Option<nat>>, inTheirs: seq<Option<nat>>, b: nat, regions: seq<Region>)
    requires |inOurs| == |inTheirs|
  {
    forall i :: b <= i < |inOurs| ==>
      (inOurs[i].Some? && inTheirs[i].Some? <==> exists r :: 0 <= r < |regions| && regions[r].anchor == Some(i))
  }

  lemma {:induction false} AnchorsExactly(base: Text, ours: Text, theirs: Text, inOurs: seq<Option<nat>>,
      inTheirs: seq<Option<nat>>, b: nat, o: nat, t: nat)
    requires Standing(base, ours, theirs, inOurs, inTheirs, b, o, t)
    ensures |inOurs| == |inTheirs| == |base|
    ensures var regions := Regions(base, ours, theirs, inOurs, inTheirs, b, o, t);
      AnchorsAll(inOurs, inTheirs, b, regions)
      && forall r :: 0 <= r < |regions| && regions[r].anchor.Some? ==> b <= regions[r].anchor.value
    decreases |base| - b
  {
    hide Regions, Standing, AnchorsAll;
    RowedSizes(base, ours, theirs, inOurs, inTheirs, b, o, t);
    var anchor := NextAnchor(inOurs, inTheirs, b);
    if anchor.None? {
      RegionsLast(base, ours, theirs, inOurs, inTheirs, b, o, t);
      NoAnchors(inOurs, inTheirs, b, Region(base[b..], ours[o..], theirs[t..], None));
    } else {
      var i := anchor.value;
      StandingNext(base, ours, theirs, inOurs, inTheirs, b, o, t, i);
      RegionsNext(base, ours, theirs, inOurs, inTheirs, b, o, t, i);
      AnchorsExactly(base, ours, theirs, inOurs, inTheirs, i + 1, inOurs[i].value + 1, inTheirs[i].value + 1);
      AnchorsMore(inOurs, inTheirs, b, i,
        Region(base[b..i], ours[o..inOurs[i].value], theirs[t..inTheirs[i].value], Some(i)),
        Regions(base, ours, theirs, inOurs, inTheirs, i + 1, inOurs[i].value + 1, inTheirs[i].value + 1));
    }
  }

  lemma {:induction false} NoAnchors(inOurs: seq<Option<nat>>, inTheirs: seq<Option<nat>>, b: nat, last: Region)
    requires |inOurs| == |inTheirs| && last.anchor == None && b <= |inOurs|
    requires NextAnchor(inOurs, inTheirs, b) == None
    ensures AnchorsAll(inOurs, inTheirs, b, [last])
  {
  }

  lemma {:induction false} AnchorsMore(inOurs: seq<Option<nat>>, inTheirs: seq<Option<nat>>, b: nat, n: nat,
      first: Region, rest: seq<Region>)
    requires |inOurs| == |inTheirs| && b <= n < |inOurs| && first.anchor == Some(n)
    requires NextAnchor(inOurs, inTheirs, b) == Some(n) && AnchorsAll(inOurs, inTheirs, n + 1, rest)
    requires forall r :: 0 <= r < |rest| && rest[r].anchor.Some? ==> n + 1 <= rest[r].anchor.value
    ensures AnchorsAll(inOurs, inTheirs, b, [first] + rest)
  {
    var all := [first] + rest;
    forall i | b <= i < |inOurs|
      ensures inOurs[i].Some? && inTheirs[i].Some? <==> exists r :: 0 <= r < |all| && all[r].anchor == Some(i)
    {
      if i == n {
        assert all[0].anchor == Some(i);
      } else if i > n {
        if r :| 0 <= r < |rest| && rest[r].anchor == Some(i) {
          assert all[r + 1].anchor == Some(i);
        }
        if r :| 0 <= r < |all| && all[r].anchor == Some(i) {
          assert r > 0 && rest[r - 1] == all[r];
        }
      } else {
        assert forall r :: 0 < r < |all| ==> all[r] == rest[r - 1];
      }
    }
  }

  // ------------------------------------------------------------------------ when texts merge

  /** A line that a text holds here and nowhere else. */
  predicate OnlyAt(text: Text, line: Line, k: nat) {
    k < |text| && text[k] == line && forall l :: 0 <= l < |text| && text[l] == line ==> l == k
  }

  ghost predicate OnlyOnce(text: Text, line: Line) {
    exists k :: OnlyAt(text, line, k)
  }

  lemma {:induction false} CountNone(text: Text, line: Line)
    ensures multiset(text)[line] == 0 <==> line !in text
  {
  }

  lemma {:induction false} CountOnce(text: Text, line: Line)
    ensures multiset(text)[line] == 1 <==> OnlyOnce(text, line)
  {
    if text != [] {
      var front, last := text[..|text| - 1], text[|text| - 1];
      assert text == front + [last];
      CountOnce(front, line);
      CountNone(front, line);
      if last == line {
        if line !in front {
          assert OnlyAt(text, line, |front|);
        }
      } else {
        if k: nat :| OnlyAt(front, line, k) {
          assert OnlyAt(text, line, k);
        }
        if k: nat :| OnlyAt(text, line, k) {
          assert OnlyAt(front, line, k);
        }
      }
    }
  }

  /** A base line that no minimal diff of either side could match elsewhere or not at all. */
  ghost predicate Fixed(base: Text, ours: Text, theirs: Text, i: nat) {
    && i < |base| && OnlyOnce(base, base[i]) && OnlyOnce(ours, base[i]) && OnlyOnce(theirs, base[i])
    && (forall pairs: seq<Pair> :: IsLongest(base, ours, pairs) ==> exists k :: 0 <= k < |pairs| && pairs[k].0 == i)
    && (forall pairs: seq<Pair> :: IsLongest(base, theirs, pairs) ==> exists k :: 0 <= k < |pairs| && pairs[k].0 == i)
  }

  /** One side changed one of these regions, the other side the other, and neither changed any between. */
  predicate Turns(regions: seq<Region>, p: nat, q: nat)
    requires p < q < |regions|
  {
    && ((regions[p].ours != regions[p].base && regions[q].theirs != regions[q].base)
        || (regions[p].theirs != regions[p].base && regions[q].ours != regions[q].base))
    && forall r :: p < r < q ==> regions[r].ours == regions[r].base == regions[r].theirs
  }

  /** No region is changed by both sides, and a fixed line separates every change of one side from the other's next. */
  ghost predicate Reconcilable(base: Text, ours: Text, theirs: Text, regions: seq<Region>) {
    && (forall r :: 0 <= r < |regions| ==> regions[r].ours == regions[r].base || regions[r].theirs == regions[r].base)
    && (forall p, q :: 0 <= p < q < |regions| && Turns(regions, p, q) ==>
          exists s :: p <= s < q && regions[s].anchor.Some? && Fixed(base, ours, theirs, regions[s].anchor.value))
  }

  lemma {:induction false} SeparatesFixed(base: Text, ours: Text, theirs: Text, anchor: Option<nat>)
    ensures Separates(base, ours, theirs, anchor) <==> anchor.Some? && Fixed(base, ours, theirs, anchor.value)
  {
    hide OnlyOnce, IsLongest;
    if anchor.Some? && anchor.value < |base| {
      CountOnce(base, base[anchor.value]);
      CountOnce(ours, base[anchor.value]);
      CountOnce(theirs, base[anchor.value]);
    }
  }

  lemma {:induction false} SwitchTurns(regions: seq<Region>, p: nat, q: nat)
    requires p < q < |regions|
    requires forall r :: 0 <= r < |regions| ==> OneSided(regions[r])
    ensures Switch(regions, p, q) <==> Turns(regions, p, q)
  {
  }

  /** Texts merge exactly when their regions are reconcilable. */
  lemma {:induction false} MergesExactly(base: Text, ours: Text, theirs: Text)
    ensures Merge3(base, ours, theirs).Some? <==>
      Reconcilable(base, ours, theirs, AllRegions(base, ours, theirs))
  {
    hide Read, AllRegions, Separates, Fixed, Switch, Turns;
    var regions := AllRegions(base, ours, theirs);
    if forall r :: 0 <= r < |regions| ==> OneSided(regions[r]) {
      forall p, q | 0 <= p < q < |regions|
        ensures Switch(regions, p, q) <==> Turns(regions, p, q)
        ensures SeparatedBetween(base, ours, theirs, regions, p, q) <==>
          exists s :: p <= s < q && regions[s].anchor.Some? && Fixed(base, ours, theirs, regions[s].anchor.value)
      {
        SwitchTurns(regions, p, q);
        forall s | p <= s < q
          ensures Separates(base, ours, theirs, regions[s].anchor) <==>
            regions[s].anchor.Some? && Fixed(base, ours, theirs, regions[s].anchor.value)
        {
          SeparatesFixed(base, ours, theirs, regions[s].anchor);
        }
      }
    }
  }

  // ------------------------------------------------------------------------------ symmetry

  function Swapped(r: Region): Region {
    Region(r.base, r.theirs, r.ours, r.anchor)
  }

  lemma {:induction false} NextAnchorSwaps(inOurs: seq<Option<nat>>, inTheirs: seq<Option<nat>>, b: nat)
    requires |inOurs| == |inTheirs| && b <= |inOurs|
    ensures NextAnchor(inOurs, inTheirs, b) == NextAnchor(inTheirs, inOurs, b)
    decreases |inOurs| - b
  {
    if b < |inOurs| && !(inOurs[b].Some? && inTheirs[b].Some?) {
      NextAnchorSwaps(inOurs, inTheirs, b + 1);
    }
  }

  lemma {:induction false} StandingSwaps(base: Text, ours: Text, theirs: Text, inOurs: seq<Option<nat>>,
      inTheirs: seq<Option<nat>>, b: nat, o: nat, t: nat)
    requires Standing(base, ours, theirs, inOurs, inTheirs, b, o, t)
    ensures Standing(base, theirs, ours, inTheirs, inOurs, b, t, o)
  {
  }

  lemma {:induction false} RegionsSwap(base: Text, ours: Text, theirs: Text, inOurs: seq<Option<nat>>,
      inTheirs: seq<Option<nat>>, b: nat, o: nat, t: nat)
    requires Standing(base, ours, theirs, inOurs, inTheirs, b, o, t)
    ensures Standing(base, theirs, ours, inTheirs, inOurs, b, t, o)
    ensures var one, two :=
      Regions(base, ours, theirs, inOurs, inTheirs, b, o, t), Regions(base, theirs, ours, inTheirs, inOurs, b, t, o);
      |one| == |two| && forall r :: 0 <= r < |one| ==> two[r] == Swapped(one[r])
    decreases |base| - b
  {
    hide Regions, Standing;
    RowedSizes(base, ours, theirs, inOurs, inTheirs, b, o, t);
    StandingSwaps(base, ours, theirs, inOurs, inTheirs, b, o, t);
    NextAnchorSwaps(inOurs, inTheirs, b);
    var anchor := NextAnchor(inOurs, inTheirs, b);
    if anchor.None? {
      RegionsLast(base, ours, theirs, inOurs, inTheirs, b, o, t);
      RegionsLast(base, theirs, ours, inTheirs, inOurs, b, t, o);
    } else {
      var i := anchor.value;
      StandingNext(base, ours, theirs, inOurs, inTheirs, b, o, t, i);
      RegionsNext(base, ours, theirs, inOurs, inTheirs, b, o, t, i);
      RegionsSwap(base, ours, theirs, inOurs, inTheirs, i + 1, inOurs[i].value + 1, inTheirs[i].value + 1);
      RegionsNext(base, theirs, ours, inTheirs, inOurs, b, t, o, i);
    }
  }

  lemma {:induction false} ReadSame(base: Text, one: seq<Region>, two: seq<Region>, pick: Region -> Text,
      other: Region -> Text)
    requires |one| == |two| && forall r :: 0 <= r < |one| ==>
      pick(one[r]) == other(two[r]) && one[r].anchor == two[r].anchor
    ensures Read(base, one, pick) == Read(base, two, other)
  {
    if one != [] {
      ReadSame(base, one[..|one| - 1], two[..|two| - 1], pick, other);
    }
  }

  lemma {:induction false} SwapTakes(r: Region)
    requires OneSided(r)
    ensures OneSided(Swapped(r)) && Taken(Swapped(r)) == Taken(r)
    ensures SideOf(Swapped(r)) == if SideOf(r).Some? then Some(!SideOf(r).value) else None
  {
  }

  lemma {:induction false} SwapMergeable(base: Text, ours: Text, theirs: Text)
    requires Mergeable(base, ours, theirs)
    ensures Mergeable(base, theirs, ours) && Merge3(base, theirs, ours) == Merge3(base, ours, theirs)
  {
    hide Read, Regions, Rows, Mandatory, Unique, SideOf, Taken, OneSided;
    RowsRowed(base, ours);
    RowsRowed(base, theirs);
    RegionsSwap(base, ours, theirs, Rows(base, ours), Rows(base, theirs), 0, 0, 0);
    var one, two := AllRegions(base, ours, theirs), AllRegions(base, theirs, ours);
    forall r | 0 <= r < |one|
      ensures two[r].anchor == one[r].anchor && OneSided(two[r]) && Taken(two[r]) == Taken(one[r])
      && SideOf(two[r]) == if SideOf(one[r]).Some? then Some(!SideOf(one[r]).value) else None
    {
      SwapTakes(one[r]);
    }
    forall p, q | 0 <= p < q < |two| && Switch(two, p, q) ensures SeparatedBetween(base, theirs, ours, two, p, q)
    {
      assert Switch(one, p, q);
      var s :| p <= s < q && Separates(base, ours, theirs, one[s].anchor);
      SeparatesSwaps(base, ours, theirs, one[s].anchor);
      assert Separates(base, theirs, ours, two[s].anchor);
    }
    ReadSame(base, one, two, Taken, Taken);
  }

  lemma {:induction false} SeparatesSwaps(base: Text, ours: Text, theirs: Text, anchor: Option<nat>)
    requires Separates(base, ours, theirs, anchor)
    ensures Separates(base, theirs, ours, anchor)
  {
    hide Mandatory;
  }

  /** Swapping the sides gives the same answer. */
  lemma {:induction false} MergeSymmetric(base: Text, ours: Text, theirs: Text)
    ensures Merge3(base, ours, theirs) == Merge3(base, theirs, ours)
  {
    hide Mergeable, Read, AllRegions;
    if Mergeable(base, ours, theirs) {
      SwapMergeable(base, ours, theirs);
    } else if Mergeable(base, theirs, ours) {
      SwapMergeable(base, theirs, ours);
    }
  }

  // ------------------------------------------------------------------------- one-sided merges

  lemma {:induction false} TraceSame(a: Text, i: nat)
    requires i <= |a|
    ensures |Trace(a, a, i, i)| == i && forall k :: 0 <= k < i ==> Trace(a, a, i, i)[k] == (k, k)
  {
    hide Prefix;
    if i > 0 {
      TraceSame(a, i - 1);
    }
  }

  lemma {:induction false} RowsSame(a: Text)
    ensures forall i :: 0 <= i < |a| ==> Rows(a, a)[i] == Some(i)
  {
    hide Trace, RowAt;
    TraceSame(a, |a|);
    TraceMatches(a, a, |a|, |a|);
    forall i | 0 <= i < |a| ensures Rows(a, a)[i] == Some(i)
    {
      assert Trace(a, a, |a|, |a|)[i] == (i, i);
      RowAtHas(a, a, Trace(a, a, |a|, |a|), i, i);
    }
  }

  lemma {:induction false} UnchangedOurs(base: Text, theirs: Text, inOurs: seq<Option<nat>>,
      inTheirs: seq<Option<nat>>, b: nat, t: nat)
    requires Standing(base, base, theirs, inOurs, inTheirs, b, b, t) && |inOurs| == |base|
    requires forall i :: 0 <= i < |base| ==> inOurs[i] == Some(i)
    ensures var regions := Regions(base, base, theirs, inOurs, inTheirs, b, b, t);
      forall r :: 0 <= r < |regions| ==> regions[r].ours == regions[r].base
    decreases |base| - b
  {
    hide Regions, Standing;
    RowedSizes(base, base, theirs, inOurs, inTheirs, b, b, t);
    var anchor := NextAnchor(inOurs, inTheirs, b);
    if anchor.None? {
      RegionsLast(base, base, theirs, inOurs, inTheirs, b, b, t);
    } else {
      var i := anchor.value;
      StandingNext(base, base, theirs, inOurs, inTheirs, b, b, t, i);
      RegionsNext(base, base, theirs, inOurs, inTheirs, b, b, t, i);
      UnchangedOurs(base, theirs, inOurs, inTheirs, i + 1, inTheirs[i].value + 1);
    }
  }

  /** Merging with an unchanged side gives the other side. */
  lemma {:induction false} MergeOneSided(base: Text, other: Text)
    ensures Merge3(base, base, other) == Some(other) && Merge3(base, other, base) == Some(other)
  {
    hide Read, Regions, Rows, Separates;
    RowsRowed(base, base);
    RowsRowed(base, other);
    RowsSame(base);
    UnchangedOurs(base, other, Rows(base, base), Rows(base, other), 0, 0);
    var regions := AllRegions(base, base, other);
    RegionsCover(base, base, other, Rows(base, base), Rows(base, other), 0, 0, 0);
    assert other[0..] == other;
    ReadSame(base, regions, regions, Taken, TheirsOf);
    MergeSymmetric(base, base, other);
  }

  // ------------------------------------------------------------------------------- the merge

  /** A region's changing side, its merged lines, and the anchor after it. */
  datatype Step = Step(side: Option<bool>, taken: Text, line: Option<nat>)

  function StepOf(r: Region): Step {
    Step(SideOf(r), Taken(r), r.anchor)
  }

  lemma {:induction false} RegionTaken(r: Region)
    ensures OneSided(r) <==> r.ours == r.base || r.theirs == r.base
    ensures SideOf(r) == if r.ours == r.base then (if r.theirs == r.base then None else Some(false)) else Some(true)
    ensures Taken(r) == if SideOf(r) == Some(true) then r.ours else if SideOf(r) == Some(false) then r.theirs
      else r.base
  {
  }

  ghost predicate StepsOf(steps: seq<Step>, regions: seq<Region>) {
    |steps| == |regions| && forall r :: 0 <= r < |steps| ==> steps[r] == StepOf(regions[r]) && OneSided(regions[r])
  }

  lemma {:induction false} NoSteps()
    ensures StepsOf([], [])
  {
  }

  lemma {:induction false} StepsMore(steps: seq<Step>, regions: seq<Region>, r: Region)
    requires StepsOf(steps, regions)
    ensures OneSided(r) ==> StepsOf(steps + [StepOf(r)], regions + [r])
  {
    hide OneSided, StepOf;
  }

  /** The first region from here on, and the regions after it. */
  lemma {:induction false} RegionCut(base: Text, ours: Text, theirs: Text, inOurs: seq<Option<nat>>,
      inTheirs: seq<Option<nat>>, b: nat, o: nat, t: nat)
    returns (r: Region, rest: seq<Region>)
    requires Standing(base, ours, theirs, inOurs, inTheirs, b, o, t)
    ensures |inOurs| == |base| == |inTheirs| && b <= |base| && o <= |ours| && t <= |theirs|
    ensures Regions(base, ours, theirs, inOurs, inTheirs, b, o, t) == [r] + rest
    ensures var anchor := NextAnchor(inOurs, inTheirs, b);
      if anchor.None? then
        && r == Region(base[b..|base|], ours[o..|ours|], theirs[t..|theirs|], None) && rest == []
      else
        var i := anchor.value;
        && b <= i < |base| && inOurs[i].Some? && inTheirs[i].Some?
        && o <= inOurs[i].value < |ours| && t <= inTheirs[i].value < |theirs|
        && r == Region(base[b..i], ours[o..inOurs[i].value], theirs[t..inTheirs[i].value], anchor)
        && Standing(base, ours, theirs, inOurs, inTheirs, i + 1, inOurs[i].value + 1, inTheirs[i].value + 1)
        && rest == Regions(base, ours, theirs, inOurs, inTheirs, i + 1, inOurs[i].value + 1, inTheirs[i].value + 1)
  {
    hide Regions, Standing;
    RowedSizes(base, ours, theirs, inOurs, inTheirs, b, o, t);
    var anchor := NextAnchor(inOurs, inTheirs, b);
    if anchor.None? {
      RegionsLast(base, ours, theirs, inOurs, inTheirs, b, o, t);
      r, rest := Region(base[b..], ours[o..], theirs[t..], None), [];
    } else {
      var i := anchor.value;
      StandingNext(base, ours, theirs, inOurs, inTheirs, b, o, t, i);
      RegionsNext(base, ours, theirs, inOurs, inTheirs, b, o, t, i);
      r := Region(base[b..i], ours[o..inOurs[i].value], theirs[t..inTheirs[i].value], anchor);
      rest := Regions(base, ours, theirs, inOurs, inTheirs, i + 1, inOurs[i].value + 1, inTheirs[i].value + 1);
    }
  }

  lemma {:induction false} RegionAfter(done: seq<Region>, r: Region, rest: seq<Region>)
    ensures done + ([r] + rest) == (done + [r]) + rest
    ensures (done + ([r] + rest))[|done|] == r
  {
  }

  /** Cuts the texts at their anchors, unless both sides changed one region. */
  method CutSteps(base: Text, ours: Text, theirs: Text, inOurs: seq<Option<nat>>, inTheirs: seq<Option<nat>>)
    returns (steps: Option<seq<Step>>)
    requires Standing(base, ours, theirs, inOurs, inTheirs, 0, 0, 0)
    ensures var regions := Regions(base, ours, theirs, inOurs, inTheirs, 0, 0, 0);
      && (steps.Some? ==> StepsOf(steps.value, regions))
      && (steps.None? ==> exists r :: 0 <= r < |regions| && !OneSided(regions[r]))
  {
    hide Regions, Standing, SideOf, Taken, OneSided, StepsOf;
    assert StepsOf([], []) by { NoSteps(); }
    var out: seq<Step> := [];
    var b, o, t := 0, 0, 0;
    ghost var all := Regions(base, ours, theirs, inOurs, inTheirs, 0, 0, 0);
    ghost var done: seq<Region> := [];
    while true
      invariant Standing(base, ours, theirs, inOurs, inTheirs, b, o, t)
      invariant all == done + Regions(base, ours, theirs, inOurs, inTheirs, b, o, t)
      invariant StepsOf(out, done)
      decreases |base| - b
    {
      ghost var r, rest := RegionCut(base, ours, theirs, inOurs, inTheirs, b, o, t);
      RegionAfter(done, r, rest);
      var anchor := NextAnchor(inOurs, inTheirs, b);
      var nb, no, nt := |base|, |ours|, |theirs|;
      if anchor.Some? {
        nb, no, nt := anchor.value, inOurs[anchor.value].value, inTheirs[anchor.value].value;
      }
      var region, mine, other := base[b..nb], ours[o..no], theirs[t..nt];
      RegionTaken(r);
      if mine != region && other != region {
        return None;
      }
      var side: Option<bool> := if mine == region then (if other == region then None else Some(false)) else Some(true);
      var taken := if side == Some(true) then mine else if side == Some(false) then other else region;
      StepsMore(out, done, r);
      out := out + [Step(side, taken, anchor)];
      done := done + [r];
      if anchor.None? {
        assert all == done;
        return Some(out);
      }
      b, o, t := nb + 1, no + 1, nt + 1;
    }
  }

  /** The last changed region before `n`, if any. */
  ghost predicate LastChanged(regions: seq<Region>, n: nat, last: Option<bool>, at: nat)
    requires n <= |regions|
  {
    if last.None? then forall r :: 0 <= r < n ==> SideOf(regions[r]).None?
    else at < n && SideOf(regions[at]) == last && forall r :: at < r < n ==> SideOf(regions[r]).None?
  }

  /** Every switch among the first `n` regions is separated. */
  ghost predicate SeparatedUpTo(base: Text, ours: Text, theirs: Text, regions: seq<Region>, n: nat)
    requires n <= |regions|
  {
    forall p, q :: 0 <= p < q < n && Switch(regions, p, q) ==> SeparatedBetween(base, ours, theirs, regions, p, q)
  }

  /** Joins the steps, unless the side switches with nothing to separate the two changes. */
  method JoinSteps(base: Text, ours: Text, theirs: Text, steps: seq<Step>, oursKept: seq<bool>, theirsKept: seq<bool>,
      ghost regions: seq<Region>)
    returns (out: Option<Text>)
    requires StepsOf(steps, regions) && |oursKept| == |base| && |theirsKept| == |base|
    requires forall i :: 0 <= i < |base| ==>
      (oursKept[i] <==> Mandatory(base, ours, i)) && (theirsKept[i] <==> Mandatory(base, theirs, i))
    requires forall r :: 0 <= r < |regions| && regions[r].anchor.Some? ==> regions[r].anchor.value < |base|
    ensures out.Some? <==> SwitchesSeparated(base, ours, theirs, regions)
    ensures out.Some? ==> out.value == Read(base, regions, Taken)
  {
    hide Mandatory, Unique, SideOf, Taken, OneSided, Joining, SwitchesSeparated, Separates, Read;
    var text: Text := [];
    var last: Option<bool>, separated := None, false;
    ghost var at := 0;
    JoinStart(base, ours, theirs, regions);
    for n := 0 to |steps|
      invariant text == Read(base, regions[..n], Taken)
      invariant Joining(base, ours, theirs, regions, n, last, at, separated)
    {
      var Step(side, taken, line) := steps[n];
      assert side == SideOf(regions[n]) && taken == Taken(regions[n]) && line == regions[n].anchor;
      if side.Some? && last.Some? && last != side && !separated {
        JoinRefused(base, ours, theirs, regions, n, last, at, separated);
        return None;
      }
      JoinMore(base, ours, theirs, regions, n, last, at, separated);
      ReadNext(base, regions, n);
      text := text + taken;
      if side.Some? {
        last, separated, at := side, false, n;
      }
      AnchorSeparates(base, ours, theirs, oursKept, theirsKept, line);
      if line.Some? {
        separated := separated
          || (Unique(base, ours, theirs, base[line.value]) && oursKept[line.value] && theirsKept[line.value]);
        text := text + [base[line.value]];
      }
    }
    assert regions[..|steps|] == regions;
    JoinDone(base, ours, theirs, regions, last, at, separated);
    out := Some(text);
  }

  /** After the first `n` regions: the last change, whether it is separated from here on, and no bare switch. */
  ghost predicate Joining(base: Text, ours: Text, theirs: Text, regions: seq<Region>, n: nat, last: Option<bool>,
      at: nat, separated: bool)
  {
    && n <= |regions| && LastChanged(regions, n, last, at)
    && (last.Some? ==> (separated <==> SeparatedBetween(base, ours, theirs, regions, at, n)))
    && SeparatedUpTo(base, ours, theirs, regions, n)
  }

  lemma {:induction false} JoinStart(base: Text, ours: Text, theirs: Text, regions: seq<Region>)
    ensures Joining(base, ours, theirs, regions, 0, None, 0, false) && Read(base, regions[..0], Taken) == []
  {
  }

  lemma {:induction false} JoinRefused(base: Text, ours: Text, theirs: Text, regions: seq<Region>, n: nat,
      last: Option<bool>, at: nat, separated: bool)
    requires n < |regions| && Joining(base, ours, theirs, regions, n, last, at, separated)
    requires SideOf(regions[n]).Some? && last.Some? && last != SideOf(regions[n]) && !separated
    ensures !SwitchesSeparated(base, ours, theirs, regions)
  {
    hide SideOf, Separates;
    assert Switch(regions, at, n);
  }

  lemma {:induction false} JoinMore(base: Text, ours: Text, theirs: Text, regions: seq<Region>, n: nat,
      last: Option<bool>, at: nat, separated: bool)
    requires n < |regions| && Joining(base, ours, theirs, regions, n, last, at, separated)
    requires !(SideOf(regions[n]).Some? && last.Some? && last != SideOf(regions[n]) && !separated)
    ensures var side, separates := SideOf(regions[n]), Separates(base, ours, theirs, regions[n].anchor);
      if side.Some? then Joining(base, ours, theirs, regions, n + 1, side, n, separates)
      else Joining(base, ours, theirs, regions, n + 1, last, at, separated || separates)
  {
    hide SideOf, Separates;
    SwitchAt(base, ours, theirs, regions, n, last, at);
  }

  lemma {:induction false} JoinDone(base: Text, ours: Text, theirs: Text, regions: seq<Region>, last: Option<bool>,
      at: nat, separated: bool)
    requires Joining(base, ours, theirs, regions, |regions|, last, at, separated)
    ensures SwitchesSeparated(base, ours, theirs, regions)
  {
    hide Switch, SeparatedBetween, SideOf;
  }

  lemma {:induction false} ReadNext(base: Text, regions: seq<Region>, n: nat)
    requires n < |regions|
    ensures Read(base, regions[..n + 1], Taken) ==
      Read(base, regions[..n], Taken) + Taken(regions[n]) + AnchorLine(base, regions[n].anchor)
  {
    hide Taken, AnchorLine;
    assert regions[..n + 1][..n] == regions[..n];
  }

  lemma {:induction false} AnchorSeparates(base: Text, ours: Text, theirs: Text, oursKept: seq<bool>,
      theirsKept: seq<bool>, line: Option<nat>)
    requires |oursKept| == |base| && |theirsKept| == |base| && (line.Some? ==> line.value < |base|)
    requires forall i :: 0 <= i < |base| ==>
      (oursKept[i] <==> Mandatory(base, ours, i)) && (theirsKept[i] <==> Mandatory(base, theirs, i))
    ensures Separates(base, ours, theirs, line) <==>
      && line.Some? && Unique(base, ours, theirs, base[line.value])
      && oursKept[line.value] && theirsKept[line.value]
  {
    hide Mandatory, Unique;
  }

  /** A switch that ends at region `n` starts at the last changed region. */
  lemma {:induction false} SwitchAt(base: Text, ours: Text, theirs: Text, regions: seq<Region>, n: nat,
      last: Option<bool>, at: nat)
    requires n < |regions| && LastChanged(regions, n, last, at)
    ensures forall p :: 0 <= p < n && Switch(regions, p, n) ==> last.Some? && p == at && SideOf(regions[n]) != last
    ensures last.Some? && SideOf(regions[n]).Some? && SideOf(regions[n]) != last ==> Switch(regions, at, n)
  {
    hide SideOf;
  }

  lemma {:induction false} AnchorsInside(base: Text, ours: Text, theirs: Text, inOurs: seq<Option<nat>>,
      inTheirs: seq<Option<nat>>, b: nat, o: nat, t: nat)
    requires Standing(base, ours, theirs, inOurs, inTheirs, b, o, t)
    ensures var regions := Regions(base, ours, theirs, inOurs, inTheirs, b, o, t);
      forall r :: 0 <= r < |regions| && regions[r].anchor.Some? ==> regions[r].anchor.value < |base|
    decreases |base| - b
  {
    hide Regions, Standing;
    RowedSizes(base, ours, theirs, inOurs, inTheirs, b, o, t);
    var anchor := NextAnchor(inOurs, inTheirs, b);
    if anchor.None? {
      RegionsLast(base, ours, theirs, inOurs, inTheirs, b, o, t);
    } else {
      var i := anchor.value;
      StandingNext(base, ours, theirs, inOurs, inTheirs, b, o, t, i);
      RegionsNext(base, ours, theirs, inOurs, inTheirs, b, o, t, i);
      AnchorsInside(base, ours, theirs, inOurs, inTheirs, i + 1, inOurs[i].value + 1, inTheirs[i].value + 1);
    }
  }

  /** diff3 without convergence. */
  method MergeTexts(base: Text, ours: Text, theirs: Text) returns (out: Option<Text>)
    ensures out == Merge3(base, ours, theirs)
  {
    hide Read, Regions, Rows, Mandatory, Trace, IsLongest, Separates, OneSided, SwitchesSeparated;
    var inOurs, oursKept, _ := Matches(base, ours);
    var inTheirs, theirsKept, _ := Matches(base, theirs);
    MatchedRows(base, ours, inOurs);
    MatchedRows(base, theirs, inTheirs);
    RowsRowed(base, ours);
    RowsRowed(base, theirs);
    ghost var regions := AllRegions(base, ours, theirs);
    AnchorsInside(base, ours, theirs, inOurs, inTheirs, 0, 0, 0);
    var steps := CutSteps(base, ours, theirs, inOurs, inTheirs);
    if steps.None? {
      return None;
    }
    out := JoinSteps(base, ours, theirs, steps.value, oursKept, theirsKept, regions);
  }
}
