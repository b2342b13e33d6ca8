/**
 When a line merge always succeeds (crates/javelin-merge/src/lib.rs): texts whose edits lie on either
 side of a line that all three hold once.
 */
module DisjointEdits {
  import opened Names
  import opened Myers
  import opened LongestMatching
  import opened Diff3
  import Blame

  // ----------------------------------------------------------------------------- matchings

  /** A matching of two texts, and then every line of a common end. */
  lemma {:induction false} WithEnd(a: Text, c: Text, end: Text, pairs: seq<Pair>) returns (longer: seq<Pair>)
    requires IsMatching(a, c, pairs)
    ensures IsMatching(a + end, c + end, longer) && |longer| == |pairs| + |end|
  {
    longer := pairs + seq(|end|, k requires 0 <= k < |end| => (|a| + k, |c| + k));
  }

  /** Every line of a common start, and then a matching of what follows. */
  lemma {:induction false} WithStart(start: Text, a: Text, c: Text, pairs: seq<Pair>) returns (longer: seq<Pair>)
    requires IsMatching(a, c, pairs)
    ensures IsMatching(start + a, start + c, longer) && |longer| == |start| + |pairs|
  {
    var same := seq(|start|, k requires 0 <= k < |start| => (k, k));
    var after := seq(|pairs|, k requires 0 <= k < |pairs| => (|start| + pairs[k].0, |start| + pairs[k].1));
    assert IsMatching(start + a, start + c, same) && Within(same, |start|, |start|);
    assert IsMatching(start + a, start + c, after) && From(after, |start|, |start|);
    hide IsMatching;
    Append(start + a, start + c, same, after, |start|, |start|);
    longer := same + after;
  }

  function Less1(i: nat, n: nat): nat {
    if i > n then i - 1 else i
  }

  /** A matching that omits the one line of its kind is a matching without it. */
  lemma {:induction false} Without(a: Text, b: Text, c: Text, d: Text, x: Line, pairs: seq<Pair>)
    returns (fewer: seq<Pair>)
    requires x !in a && x !in b && x !in c && x !in d
    requires IsMatching(a + [x] + b, c + [x] + d, pairs) && !Keeps(pairs, |a|)
    ensures IsMatching(a + b, c + d, fewer) && |fewer| == |pairs|
  {
    fewer := seq(|pairs|, k requires 0 <= k < |pairs| => (Less1(pairs[k].0, |a|), Less1(pairs[k].1, |c|)));
    forall k | 0 <= k < |pairs| ensures pairs[k].0 != |a| && pairs[k].1 != |c|
    {
      var (i, j) := pairs[k];
      assert (a + [x] + b)[i] == (c + [x] + d)[j];
    }
  }

  /** A line that both texts hold once, before a common end, is in every longest matching. */
  lemma {:induction false} KeptBeforeEnd(a: Text, c: Text, x: Line, end: Text)
    requires x !in a && x !in c && x !in end
    ensures Mandatory(a + [x] + end, c + [x] + end, |a|)
  {
    var one, two := a + [x] + end, c + [x] + end;
    assert one == a + ([x] + end) && two == c + ([x] + end);
    forall pairs | IsLongest(one, two, pairs) ensures Keeps(pairs, |a|)
    {
      if !Keeps(pairs, |a|) {
        var fewer := Without(a, end, c, end, x, pairs);
        var middle: seq<Pair> := [];
        if |pairs| >= |end| {
          middle := Blame.MiddleOf(a + end, c + end, fewer, 0, |end|);
          assert (a + end)[0..|a + end| - |end|] == a && (c + end)[0..|c + end| - |end|] == c;
        }
        var longer := WithEnd(a, c, [x] + end, middle);
      }
    }
  }

  /** A line that both texts hold once, after a common start, is in every longest matching. */
  lemma {:induction false} KeptAfterStart(start: Text, x: Line, b: Text, d: Text)
    requires x !in start && x !in b && x !in d
    ensures Mandatory(start + [x] + b, start + [x] + d, |start|)
  {
    var one, two := start + [x] + b, start + [x] + d;
    forall pairs | IsLongest(one, two, pairs) ensures Keeps(pairs, |start|)
    {
      if !Keeps(pairs, |start|) {
        var fewer := Without(start, b, start, d, x, pairs);
        var middle: seq<Pair> := [];
        if |pairs| >= |start| {
          middle := Blame.MiddleOf(start + b, start + d, fewer, |start|, 0);
          assert (start + b)[|start|..|start + b| - 0] == b && (start + d)[|start|..|start + d| - 0] == d;
        }
        var longer := WithStart(start + [x], b, d, middle);
      }
    }
  }

  // ---------------------------------------------------------------------------- matched rows

  lemma {:induction false} TraceLength(a: Text, b: Text, i: nat, j: nat)
    requires i <= |a| && j <= |b|
    ensures |Trace(a, b, i, j)| == Prefix(a, b, i, j)
  {
    if i > 0 && j > 0 {
      if a[i - 1] == b[j - 1] {
        TraceLength(a, b, i - 1, j - 1);
      } else if Prefix(a, b, i - 1, j) >= Prefix(a, b, i, j - 1) {
        TraceLength(a, b, i - 1, j);
      } else {
        TraceLength(a, b, i, j - 1);
      }
    }
  }

  lemma {:induction false} TraceLongest(a: Text, b: Text)
    ensures IsLongest(a, b, Trace(a, b, |a|, |b|))
  {
    hide Trace, Prefix, IsMatching;
    TraceLength(a, b, |a|, |b|);
    TraceMatches(a, b, |a|, |b|);
    LongestLength(a, b, Trace(a, b, |a|, |b|));
  }

  /** The traceback matches a common end line by line. */
  lemma {:induction false} TraceEnd(a: Text, c: Text, end: Text, n: nat)
    requires n <= |end|
    ensures Trace(a + end, c + end, |a| + n, |c| + n) ==
      Trace(a + end, c + end, |a|, |c|) + seq(n, k requires 0 <= k < n => (|a| + k, |c| + k))
  {
    hide Trace, Prefix;
    if n > 0 {
      TraceEnd(a, c, end, n - 1);
      TraceStep(a + end, c + end, |a| + n - 1, |c| + n - 1);
      assert (a + end)[|a| + n - 1] == end[n - 1] == (c + end)[|c| + n - 1];
    }
  }

  /** With a common end, its rows are matched in place, and no row before it inside it. */
  lemma {:induction false} EndRows(a: Text, c: Text, end: Text, i: nat)
    requires i < |a + end|
    ensures var row := Rows(a + end, c + end)[i];
      if i >= |a| then row == Some(|c| + (i - |a|)) else row.Some? ==> row.value < |c|
  {
    hide Trace, Prefix, IsMatching, RowAt;
    var one, two := a + end, c + end;
    var before, pairs := Trace(one, two, |a|, |c|), Trace(one, two, |one|, |two|);
    TraceEnd(a, c, end, |end|);
    TraceMatches(one, two, |a|, |c|);
    TraceMatches(one, two, |one|, |two|);
    if i >= |a| {
      assert pairs[|before| + (i - |a|)] == (i, |c| + (i - |a|));
      RowAtHas(one, two, pairs, i, |c| + (i - |a|));
    } else if Rows(one, two)[i].Some? {
      RowAtHas(one, two, pairs, i, Rows(one, two)[i].value);
    }
  }

  lemma {:induction false} StartKept(start: Text, x: Line, b: Text, d: Text, pairs: seq<Pair>) returns (at: nat)
    requires x !in start && x !in b && x !in d
    requires IsLongest(start + [x] + b, start + [x] + d, pairs)
    ensures at < |pairs| && pairs[at] == (|start|, |start|)
  {
    KeptAfterStart(start, x, b, d);
    at :| 0 <= at < |pairs| && pairs[at].0 == |start|;
    assert (start + [x] + b)[|start|] == x && (start + [x] + d)[pairs[at].1] == x;
  }

  /** As many pairs come before the kept line as the common start has lines. */
  lemma {:induction false} StartCount(start: Text, x: Line, b: Text, d: Text, pairs: seq<Pair>, at: nat)
    requires IsLongest(start + [x] + b, start + [x] + d, pairs)
    requires at < |pairs| && pairs[at] == (|start|, |start|)
    ensures |start| <= at
  {
    var n := |start|;
    var rest := pairs[at + 1..];
    assert From(rest, n + 1, n + 1);
    var after := seq(|rest|, k requires 0 <= k < |rest| => (rest[k].0 - n - 1, rest[k].1 - n - 1));
    AfterMatches(start + [x], b, d, rest, after);
    var longer := WithStart(start + [x], b, d, after);
  }

  /** Pairs that end at the diagonal after as many lines are on it. */
  lemma {:induction false} OnDiagonal(pairs: seq<Pair>, n: nat, k: nat)
    requires forall i, j :: 0 <= i < j < |pairs| ==> pairs[i].0 < pairs[j].0 && pairs[i].1 < pairs[j].1
    requires k <= n < |pairs| && pairs[n] == (n, n)
    ensures pairs[k] == (k, k)
  {
    Blame.SpreadBefore(pairs, k);
    Blame.SpreadAfter(pairs, k, n);
  }

  /** Up to a kept line after a common start, a longest matching is that start, line by line. */
  lemma {:induction false} StartPairs(start: Text, x: Line, b: Text, d: Text, pairs: seq<Pair>)
    requires x !in start && x !in b && x !in d
    requires IsLongest(start + [x] + b, start + [x] + d, pairs)
    ensures |pairs| > |start| && forall k :: 0 <= k <= |start| ==> pairs[k] == (k, k)
  {
    var at := StartKept(start, x, b, d, pairs);
    StartCount(start, x, b, d, pairs, at);
    Blame.SpreadBefore(pairs, at);
    forall k | 0 <= k <= |start| ensures pairs[k] == (k, k)
    {
      OnDiagonal(pairs, |start|, k);
    }
  }

  lemma {:induction false} AfterMatches(start: Text, b: Text, d: Text, pairs: seq<Pair>, after: seq<Pair>)
    requires IsMatching(start + b, start + d, pairs) && From(pairs, |start|, |start|) && |after| == |pairs|
    requires forall k :: 0 <= k < |pairs| ==> pairs[k] == (after[k].0 + |start|, after[k].1 + |start|)
    ensures IsMatching(b, d, after)
  {
    forall k | 0 <= k < |after| ensures after[k].0 < |b| && after[k].1 < |d| && b[after[k].0] == d[after[k].1]
    {
      assert (start + b)[pairs[k].0] == (start + d)[pairs[k].1];
    }
  }

  /** With a common start and then a line both texts hold once, these rows are matched in place. */
  lemma {:induction false} StartRows(start: Text, x: Line, b: Text, d: Text, i: nat)
    requires x !in start && x !in b && x !in d && i <= |start|
    ensures i < |start + [x] + b| && Rows(start + [x] + b, start + [x] + d)[i] == Some(i)
  {
    hide Trace, Prefix, RowAt;
    var one, two := start + [x] + b, start + [x] + d;
    TraceLongest(one, two);
    StartPairs(start, x, b, d, Trace(one, two, |one|, |two|));
    RowAtHas(one, two, Trace(one, two, |one|, |two|), i, i);
  }

  // -------------------------------------------------------------------------------- regions

  /**
   Up to base row `n` theirs is matched in place, and from that row on ours is, moved to row `m`:
   ours changed nothing after the row, and theirs nothing before it.
   */
  ghost predicate Parted(base: Text, ours: Text, theirs: Text, inOurs: seq<Option<nat>>, inTheirs: seq<Option<nat>>,
      n: nat, m: nat)
  {
    && n < |base| == |inOurs| == |inTheirs| && m < |ours| && n < |theirs|
    && base[n..] == ours[m..] && base[..n] == theirs[..n]
    && (forall i :: n <= i < |base| ==> inOurs[i] == Some(m + (i - n)))
    && (forall i :: 0 <= i < n && inOurs[i].Some? ==> inOurs[i].value < m)
    && (forall i :: 0 <= i <= n ==> inTheirs[i] == Some(i))
  }

  lemma {:induction false} SameAfter(base: Text, ours: Text, n: nat, m: nat, b: nat, e: nat)
    requires n <= |base| && m <= |ours| && base[n..] == ours[m..] && n <= b <= e <= |base|
    ensures m + (e - n) <= |ours| && base[b..e] == ours[m + (b - n)..m + (e - n)]
    ensures base[b..] == ours[m + (b - n)..]
  {
    assert base[n..][b - n..e - n] == base[b..e];
    assert ours[m..][b - n..e - n] == ours[m + (b - n)..m + (e - n)];
    assert base[n..][b - n..] == base[b..];
    assert ours[m..][b - n..] == ours[m + (b - n)..];
  }

  lemma {:induction false} PartedEnds(base: Text, ours: Text, theirs: Text, inOurs: seq<Option<nat>>,
      inTheirs: seq<Option<nat>>, n: nat, m: nat)
    requires Parted(base, ours, theirs, inOurs, inTheirs, n, m)
    ensures n <= |base| && m <= |ours| && base[n..] == ours[m..] && |inOurs| == |base|
    ensures forall i :: n <= i < |base| ==> inOurs[i] == Some(m + (i - n))
  {
  }

  /** After the row, no region is changed by ours. */
  lemma {:induction false} OursAfter(base: Text, ours: Text, theirs: Text, inOurs: seq<Option<nat>>,
      inTheirs: seq<Option<nat>>, n: nat, m: nat, b: nat, o: nat, t: nat)
    requires Standing(base, ours, theirs, inOurs, inTheirs, b, o, t)
    requires Parted(base, ours, theirs, inOurs, inTheirs, n, m) && n <= b && o == m + (b - n)
    ensures var regions := Regions(base, ours, theirs, inOurs, inTheirs, b, o, t);
      forall r :: 0 <= r < |regions| ==> regions[r].ours == regions[r].base
    decreases |base| - b
  {
    hide Regions, Standing, Parted;
    RowedSizes(base, ours, theirs, inOurs, inTheirs, b, o, t);
    PartedEnds(base, ours, theirs, inOurs, inTheirs, n, m);
    var anchor := NextAnchor(inOurs, inTheirs, b);
    if anchor.None? {
      RegionsLast(base, ours, theirs, inOurs, inTheirs, b, o, t);
      SameAfter(base, ours, n, m, b, |base|);
    } else {
      var i := anchor.value;
      StandingNext(base, ours, theirs, inOurs, inTheirs, b, o, t, i);
      RegionsNext(base, ours, theirs, inOurs, inTheirs, b, o, t, i);
      SameAfter(base, ours, n, m, b, i);
      OursAfter(base, ours, theirs, inOurs, inTheirs, n, m, i + 1, inOurs[i].value + 1, inTheirs[i].value + 1);
    }
  }

  /** Regions that end at the row, theirs unchanged before it and ours after it, and what they read. */
  ghost predicate Turned(base: Text, regions: seq<Region>, at: nat, n: nat, merged: Text) {
    && at < |regions| && regions[at].anchor == Some(n)
    && (forall r :: 0 <= r <= at ==> regions[r].theirs == regions[r].base)
    && (forall r :: at < r < |regions| ==> regions[r].ours == regions[r].base)
    && Read(base, regions, Taken) == merged
  }

  lemma {:induction false} TurnedHere(base: Text, ours: Text, theirs: Text, inOurs: seq<Option<nat>>,
      inTheirs: seq<Option<nat>>, n: nat, m: nat, b: nat, o: nat)
    requires Standing(base, ours, theirs, inOurs, inTheirs, n + 1, m + 1, n + 1)
    requires Parted(base, ours, theirs, inOurs, inTheirs, n, m) && b <= n && o <= m
    ensures var first := Region(base[b..n], ours[o..m], theirs[b..n], Some(n));
      var rest := Regions(base, ours, theirs, inOurs, inTheirs, n + 1, m + 1, n + 1);
      Turned(base, [first] + rest, 0, n, ours[o..m + 1] + theirs[n + 1..])
  {
    hide Regions, Standing, Read;
    var first := Region(base[b..n], ours[o..m], theirs[b..n], Some(n));
    var rest := Regions(base, ours, theirs, inOurs, inTheirs, n + 1, m + 1, n + 1);
    OursAfter(base, ours, theirs, inOurs, inTheirs, n, m, n + 1, m + 1, n + 1);
    RegionsCover(base, ours, theirs, inOurs, inTheirs, n + 1, m + 1, n + 1);
    ReadSame(base, rest, rest, Taken, TheirsOf);
    ReadFirst(base, first, rest, Taken);
    SameBefore(base, theirs, n, b, n);
    assert base[n] == ours[m] by { assert base[n..][0] == ours[m..][0]; }
    assert ours[o..m + 1] == ours[o..m] + [ours[m]];
  }

  lemma {:induction false} SameBefore(base: Text, theirs: Text, n: nat, b: nat, e: nat)
    requires n <= |base| && n <= |theirs| && base[..n] == theirs[..n] && b <= e <= n
    ensures base[b..e] == theirs[b..e]
  {
    assert base[..n][b..e] == base[b..e] && theirs[..n][b..e] == theirs[b..e];
  }

  lemma {:induction false} TurnedLater(base: Text, ours: Text, first: Region, rest: seq<Region>, at: nat, n: nat,
      o: nat, no: nat, i: nat, merged: Text)
    requires Turned(base, rest, at, n, merged) && o <= no < |ours| && i < |base| && base[i] == ours[no]
    requires first.theirs == first.base && first.ours == ours[o..no] && first.anchor == Some(i)
    ensures Turned(base, [first] + rest, at + 1, n, ours[o..no + 1] + merged)
  {
    hide Read;
    var all := [first] + rest;
    ReadFirst(base, first, rest, Taken);
    assert ours[o..no + 1] == ours[o..no] + [ours[no]];
    forall r | 0 < r < |all| ensures all[r] == rest[r - 1]
    {
    }
  }

  /** Up to the row, no region is changed by theirs; the merge reads ours up to it and theirs after it. */
  lemma {:induction false} TurnsAtRow(base: Text, ours: Text, theirs: Text, inOurs: seq<Option<nat>>,
      inTheirs: seq<Option<nat>>, n: nat, m: nat, b: nat, o: nat) returns (at: nat)
    requires Standing(base, ours, theirs, inOurs, inTheirs, b, o, b)
    requires Parted(base, ours, theirs, inOurs, inTheirs, n, m) && b <= n && o <= m
    ensures Turned(base, Regions(base, ours, theirs, inOurs, inTheirs, b, o, b), at, n,
      ours[o..m + 1] + theirs[n + 1..])
    decreases |base| - b
  {
    hide Regions, Standing, Turned;
    RowedSizes(base, ours, theirs, inOurs, inTheirs, b, o, b);
    assert inOurs[n].Some? && inTheirs[n].Some?;
    var i := NextAnchor(inOurs, inTheirs, b).value;
    StandingNext(base, ours, theirs, inOurs, inTheirs, b, o, b, i);
    RegionsNext(base, ours, theirs, inOurs, inTheirs, b, o, b, i);
    if i == n {
      TurnedHere(base, ours, theirs, inOurs, inTheirs, n, m, b, o);
      at := 0;
    } else {
      var no := inOurs[i].value;
      at := TurnsAtRow(base, ours, theirs, inOurs, inTheirs, n, m, i + 1, no + 1);
      SameBefore(base, theirs, n, b, i);
      var rest := Regions(base, ours, theirs, inOurs, inTheirs, i + 1, no + 1, i + 1);
      TurnedLater(base, ours, Region(base[b..i], ours[o..no], theirs[b..i], Some(i)), rest, at, n, o, no, i,
        ours[no + 1..m + 1] + theirs[n + 1..]);
      assert ours[o..m + 1] == ours[o..no + 1] + ours[no + 1..m + 1];
      assert ours[o..no + 1] + (ours[no + 1..m + 1] + theirs[n + 1..]) ==
        ours[o..no + 1] + ours[no + 1..m + 1] + theirs[n + 1..];
      at := at + 1;
    }
  }

  /** Regions that turn from ours to theirs at a fixed row only are reconcilable. */
  lemma {:induction false} TurnedReconcilable(base: Text, ours: Text, theirs: Text, regions: seq<Region>, at: nat,
      n: nat, merged: Text)
    requires Turned(base, regions, at, n, merged) && Fixed(base, ours, theirs, n)
    ensures Reconcilable(base, ours, theirs, regions)
  {
    hide Fixed, Read;
  }

  /** The line both sides left in place is fixed. */
  lemma {:induction false} LineFixed(a: Text, x: Line, b: Text, c: Text, d: Text)
    requires x !in a && x !in b && x !in c && x !in d
    ensures Fixed(a + [x] + b, c + [x] + b, a + [x] + d, |a|)
  {
    hide IsLongest;
    KeptBeforeEnd(a, c, x, b);
    KeptAfterStart(a, x, b, d);
    assert OnlyAt(a + [x] + b, x, |a|);
    assert OnlyAt(c + [x] + b, x, |c|);
    assert OnlyAt(a + [x] + d, x, |a|);
  }

  lemma {:induction false} RowsPart(a: Text, x: Line, b: Text, c: Text, d: Text)
    requires x !in a && x !in b && x !in c && x !in d
    ensures var base, ours, theirs := a + [x] + b, c + [x] + b, a + [x] + d;
      Parted(base, ours, theirs, Rows(base, ours), Rows(base, theirs), |a|, |c|)
  {
    hide Trace, RowAt;
    var base, ours, theirs := a + [x] + b, c + [x] + b, a + [x] + d;
    assert base == a + ([x] + b) && ours == c + ([x] + b);
    forall i | 0 <= i < |base|
      ensures var row := Rows(base, ours)[i];
        if i >= |a| then row == Some(|c| + (i - |a|)) else row.Some? ==> row.value < |c|
    {
      EndRows(a, c, [x] + b, i);
    }
    forall i | 0 <= i <= |a| ensures Rows(base, theirs)[i] == Some(i)
    {
      StartRows(a, x, b, d, i);
    }
  }

  /**
   Edits on either side of a line always merge. When all three texts hold the line once, ours
   changed only what comes before it, and theirs only what comes after it, the merge is ours up to
   the line and theirs from it on.
   */
  lemma {:induction false} SplitEditsMerge(a: Text, x: Line, b: Text, c: Text, d: Text)
    requires x !in a && x !in b && x !in c && x !in d
    ensures Merge3(a + [x] + b, c + [x] + b, a + [x] + d) == Some(c + [x] + d)
    ensures Merge3(a + [x] + b, a + [x] + d, c + [x] + b) == Some(c + [x] + d)
  {
    hide Rows, Regions, Read, Parted, Turned, Fixed, Reconcilable, Mergeable;
    var base, ours, theirs := a + [x] + b, c + [x] + b, a + [x] + d;
    RowsRowed(base, ours);
    RowsRowed(base, theirs);
    RowsPart(a, x, b, c, d);
    var at := TurnsAtRow(base, ours, theirs, Rows(base, ours), Rows(base, theirs), |a|, |c|, 0, 0);
    LineFixed(a, x, b, c, d);
    TurnedReconcilable(base, ours, theirs, AllRegions(base, ours, theirs), at, |a|,
      ours[0..|c| + 1] + theirs[|a| + 1..]);
    MergesExactly(base, ours, theirs);
    TurnedReads(base, AllRegions(base, ours, theirs), at, |a|, ours[0..|c| + 1] + theirs[|a| + 1..]);
    assert ours[0..|c| + 1] + theirs[|a| + 1..] == c + [x] + d;
    MergeSymmetric(base, ours, theirs);
  }

  lemma {:induction false} TurnedReads(base: Text, regions: seq<Region>, at: nat, n: nat, merged: Text)
    requires Turned(base, regions, at, n, merged)
    ensures Read(base, regions, Taken) == merged
  {
  }
}
