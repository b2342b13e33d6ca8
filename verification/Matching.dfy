/**
 The merge's line matching (crates/javelin-merge/src/matching.rs): one longest common subsequence,
 and whether every longest one keeps each base row.
 */
module LongestMatching {
  import opened Names
  import opened Myers

  /** A matching that no matching exceeds. */
  ghost predicate IsLongest(a: seq<Line>, b: seq<Line>, pairs: seq<Pair>) {
    IsMatching(a, b, pairs) && forall other :: IsMatching(a, b, other) ==> |other| <= |pairs|
  }

  predicate Keeps(pairs: seq<Pair>, row: nat) {
    exists k :: 0 <= k < |pairs| && pairs[k].0 == row
  }

  ghost predicate From(pairs: seq<Pair>, x: nat, y: nat) {
    forall k :: 0 <= k < |pairs| ==> pairs[k].0 >= x && pairs[k].1 >= y
  }

  function Max(x: nat, y: nat): nat {
    if x < y then y else x
  }

  /** The longest matching of two prefixes. */
  function Prefix(a: seq<Line>, b: seq<Line>, i: nat, j: nat): nat
    requires i <= |a| && j <= |b|
  {
    if i == 0 || j == 0 then 0
    else if a[i - 1] == b[j - 1] then Prefix(a, b, i - 1, j - 1) + 1
    else Max(Prefix(a, b, i - 1, j), Prefix(a, b, i, j - 1))
  }

  /** The longest matching of two suffixes. */
  function Suffix(a: seq<Line>, b: seq<Line>, i: nat, j: nat): nat
    requires i <= |a| && j <= |b|
    decreases |a| - i + |b| - j
  {
    if i == |a| || j == |b| then 0
    else if a[i] == b[j] then 1 + Suffix(a, b, i + 1, j + 1)
    else Max(Suffix(a, b, i + 1, j), Suffix(a, b, i, j + 1))
  }

  // ------------------------------------------------------------------ lengths are right

  lemma {:induction false} DropLast(a: seq<Line>, b: seq<Line>, pairs: seq<Pair>, x: nat, y: nat)
    requires IsMatching(a, b, pairs) && Within(pairs, x, y) && pairs != []
    ensures x > 0 && y > 0 && IsMatching(a, b, pairs[..|pairs| - 1]) && Within(pairs[..|pairs| - 1], x - 1, y - 1)
    ensures pairs[|pairs| - 1].0 < x - 1 ==> Within(pairs, x - 1, y)
    ensures pairs[|pairs| - 1].1 < y - 1 ==> Within(pairs, x, y - 1)
    ensures pairs[|pairs| - 1] == (x - 1, y - 1) ==> a[x - 1] == b[y - 1]
  {
    var last := pairs[|pairs| - 1];
    assert last.0 < x && last.1 < y;
    forall k | 0 <= k < |pairs| - 1 ensures pairs[k].0 < last.0 && pairs[k].1 < last.1
    {
    }
  }

  lemma {:induction false} PrefixBound(a: seq<Line>, b: seq<Line>, pairs: seq<Pair>, i: nat, j: nat)
    requires IsMatching(a, b, pairs) && i <= |a| && j <= |b| && Within(pairs, i, j)
    ensures |pairs| <= Prefix(a, b, i, j)
    decreases i + j
  {
    hide IsMatching, Within;
    if pairs != [] {
      DropLast(a, b, pairs, i, j);
      if a[i - 1] == b[j - 1] {
        PrefixBound(a, b, pairs[..|pairs| - 1], i - 1, j - 1);
      } else if pairs[|pairs| - 1].0 < i - 1 {
        PrefixBound(a, b, pairs, i - 1, j);
      } else {
        assert pairs[|pairs| - 1].1 < j - 1 by { LastWithin(pairs, i, j); }
        PrefixBound(a, b, pairs, i, j - 1);
      }
    }
  }

  lemma {:induction false} LastWithin(pairs: seq<Pair>, x: nat, y: nat)
    requires pairs != [] && Within(pairs, x, y)
    ensures pairs[|pairs| - 1].0 < x && pairs[|pairs| - 1].1 < y
  {
  }

  lemma {:induction false} DropFirst(a: seq<Line>, b: seq<Line>, pairs: seq<Pair>, x: nat, y: nat)
    requires IsMatching(a, b, pairs) && From(pairs, x, y) && pairs != []
    ensures x < |a| && y < |b| && IsMatching(a, b, pairs[1..]) && From(pairs[1..], x + 1, y + 1)
    ensures pairs[0].0 > x ==> From(pairs, x + 1, y)
    ensures pairs[0].1 > y ==> From(pairs, x, y + 1)
    ensures pairs[0] == (x, y) ==> a[x] == b[y]
    ensures pairs[0].0 >= x && pairs[0].1 >= y
  {
    var first := pairs[0];
    assert first.0 < |a| && first.1 < |b|;
    forall k | 0 < k < |pairs| ensures pairs[k].0 > first.0 && pairs[k].1 > first.1
    {
    }
  }

  lemma {:induction false} SuffixBound(a: seq<Line>, b: seq<Line>, pairs: seq<Pair>, i: nat, j: nat)
    requires IsMatching(a, b, pairs) && i <= |a| && j <= |b| && From(pairs, i, j)
    ensures |pairs| <= Suffix(a, b, i, j)
    decreases |a| - i + |b| - j
  {
    hide IsMatching, From;
    if pairs != [] {
      DropFirst(a, b, pairs, i, j);
      if a[i] == b[j] {
        SuffixBound(a, b, pairs[1..], i + 1, j + 1);
      } else if pairs[0].0 > i {
        SuffixBound(a, b, pairs, i + 1, j);
      } else {
        SuffixBound(a, b, pairs, i, j + 1);
      }
    }
  }

  lemma {:induction false} Append(a: seq<Line>, b: seq<Line>, left: seq<Pair>, right: seq<Pair>, x: nat, y: nat)
    requires IsMatching(a, b, left) && Within(left, x, y) && IsMatching(a, b, right) && From(right, x, y)
    ensures IsMatching(a, b, left + right)
  {
  }

  /** A longest matching of two prefixes. */
  lemma {:induction false} PrefixMatching(a: seq<Line>, b: seq<Line>, i: nat, j: nat) returns (pairs: seq<Pair>)
    requires i <= |a| && j <= |b|
    ensures IsMatching(a, b, pairs) && Within(pairs, i, j) && |pairs| == Prefix(a, b, i, j)
  {
    if i == 0 || j == 0 {
      pairs := [];
    } else if a[i - 1] == b[j - 1] {
      pairs := PrefixMatching(a, b, i - 1, j - 1);
      Append(a, b, pairs, [(i - 1, j - 1)], i - 1, j - 1);
      pairs := pairs + [(i - 1, j - 1)];
    } else if Prefix(a, b, i - 1, j) >= Prefix(a, b, i, j - 1) {
      pairs := PrefixMatching(a, b, i - 1, j);
    } else {
      pairs := PrefixMatching(a, b, i, j - 1);
    }
  }

  /** A longest matching of two suffixes. */
  lemma {:induction false} SuffixMatching(a: seq<Line>, b: seq<Line>, i: nat, j: nat) returns (pairs: seq<Pair>)
    requires i <= |a| && j <= |b|
    ensures IsMatching(a, b, pairs) && From(pairs, i, j) && |pairs| == Suffix(a, b, i, j)
    decreases |a| - i + |b| - j
  {
    if i == |a| || j == |b| {
      pairs := [];
    } else if a[i] == b[j] {
      pairs := SuffixMatching(a, b, i + 1, j + 1);
      Append(a, b, [(i, j)], pairs, i + 1, j + 1);
      pairs := [(i, j)] + pairs;
    } else if Suffix(a, b, i + 1, j) >= Suffix(a, b, i, j + 1) {
      pairs := SuffixMatching(a, b, i + 1, j);
    } else {
      pairs := SuffixMatching(a, b, i, j + 1);
    }
  }

  /** A matching is longest exactly when it has the whole table's length. */
  lemma {:induction false} LongestLength(a: seq<Line>, b: seq<Line>, pairs: seq<Pair>)
    requires IsMatching(a, b, pairs)
    ensures IsLongest(a, b, pairs) <==> |pairs| == Prefix(a, b, |a|, |b|)
  {
    hide Prefix;
    var best := PrefixMatching(a, b, |a|, |b|);
    forall other | IsMatching(a, b, other) ensures |other| <= Prefix(a, b, |a|, |b|)
    {
      PrefixBound(a, b, other, |a|, |b|);
    }
  }

  // ---------------------------------------------------------------------- mandatory rows

  /** The longest matching that omits row `i` and splits before column `j`. */
  function Split(a: seq<Line>, b: seq<Line>, i: nat, j: nat): nat
    requires i < |a| && j <= |b|
  {
    Prefix(a, b, i, j) + Suffix(a, b, i + 1, j)
  }

  /** Every matching omitting a row splits somewhere. */
  lemma {:induction false} OmittingSplits(a: seq<Line>, b: seq<Line>, pairs: seq<Pair>, i: nat) returns (j: nat)
    requires IsMatching(a, b, pairs) && i < |a| && !Keeps(pairs, i)
    ensures j <= |b| && |pairs| <= Split(a, b, i, j)
  {
    var k := 0;
    while k < |pairs| && pairs[k].0 < i
      invariant k <= |pairs| && forall l :: 0 <= l < k ==> pairs[l].0 < i
    {
      k := k + 1;
    }
    j := if k < |pairs| then pairs[k].1 else |b|;
    hide Prefix, Suffix;
    CutAt(a, b, pairs, i, k, j);
    PrefixBound(a, b, pairs[..k], i, j);
    SuffixBound(a, b, pairs[k..], i + 1, j);
  }

  lemma {:induction false} CutAt(a: seq<Line>, b: seq<Line>, pairs: seq<Pair>, i: nat, k: nat, j: nat)
    requires IsMatching(a, b, pairs) && i < |a| && !Keeps(pairs, i) && k <= |pairs|
    requires (forall l :: 0 <= l < k ==> pairs[l].0 < i) && (k < |pairs| ==> pairs[k].0 >= i)
    requires j == if k < |pairs| then pairs[k].1 else |b|
    ensures IsMatching(a, b, pairs[..k]) && Within(pairs[..k], i, j)
    ensures IsMatching(a, b, pairs[k..]) && From(pairs[k..], i + 1, j)
  {
    assert k < |pairs| ==> pairs[k].0 > i;
    forall l | k < l < |pairs| ensures pairs[l].0 > i && pairs[l].1 > j
    {
    }
  }

  /** Every split is a matching that omits the row. */
  lemma {:induction false} SplitOmits(a: seq<Line>, b: seq<Line>, i: nat, j: nat) returns (pairs: seq<Pair>)
    requires i < |a| && j <= |b|
    ensures IsMatching(a, b, pairs) && !Keeps(pairs, i) && |pairs| == Split(a, b, i, j)
  {
    var left := PrefixMatching(a, b, i, j);
    var right := SuffixMatching(a, b, i + 1, j);
    hide Prefix, Suffix;
    Append(a, b, left, right, i, j);
    pairs := left + right;
    forall k | 0 <= k < |pairs| ensures pairs[k].0 != i
    {
      assert pairs[k] == if k < |left| then left[k] else right[k - |left|];
    }
  }

  ghost predicate Mandatory(a: seq<Line>, b: seq<Line>, i: nat) {
    forall pairs :: IsLongest(a, b, pairs) ==> Keeps(pairs, i)
  }

  /** A row is mandatory exactly when the best split around it falls short. */
  lemma {:induction false} MandatorySplit(a: seq<Line>, b: seq<Line>, i: nat, without: nat)
    requires i < |a| && (forall j :: 0 <= j <= |b| ==> Split(a, b, i, j) <= without)
      && (exists j :: 0 <= j <= |b| && Split(a, b, i, j) == without)
    ensures Mandatory(a, b, i) <==> without < Prefix(a, b, |a|, |b|)
  {
    hide Prefix, Split, IsMatching, Keeps, IsLongest;
    var j :| 0 <= j <= |b| && Split(a, b, i, j) == without;
    var best := SplitOmits(a, b, i, j);
    LongestLength(a, b, best);
    PrefixBound(a, b, best, |a|, |b|) by { Inside(a, b, best); }
    if without < Prefix(a, b, |a|, |b|) {
      forall pairs | IsLongest(a, b, pairs) ensures Keeps(pairs, i)
      {
        LongestIs(a, b, pairs);
        LongestLength(a, b, pairs);
        if !Keeps(pairs, i) {
          var at := OmittingSplits(a, b, pairs, i);
        }
      }
    }
  }

  lemma {:induction false} LongestIs(a: seq<Line>, b: seq<Line>, pairs: seq<Pair>)
    requires IsLongest(a, b, pairs)
    ensures IsMatching(a, b, pairs)
  {
  }

  lemma {:induction false} Inside(a: seq<Line>, b: seq<Line>, pairs: seq<Pair>)
    requires IsMatching(a, b, pairs)
    ensures Within(pairs, |a|, |b|)
  {
  }

  // -------------------------------------------------------------------------- the tables

  /** Fills the table of prefix lengths. */
  method FillPrefix(a: seq<Line>, b: seq<Line>) returns (table: array2<nat>)
    ensures fresh(table) && table.Length0 == |a| + 1 && table.Length1 == |b| + 1
    ensures forall i, j :: 0 <= i <= |a| && 0 <= j <= |b| ==> table[i, j] == Prefix(a, b, i, j)
  {
    hide Prefix;
    table := new nat[|a| + 1, |b| + 1]((_, _) => 0);
    forall i, j | 0 <= i <= |a| && 0 <= j <= |b| && (i == 0 || j == 0) ensures Prefix(a, b, i, j) == 0
    {
      PrefixEdge(a, b, i, j);
    }
    for i := 0 to |a|
      invariant forall r, c :: 0 <= r <= i && 0 <= c <= |b| ==> table[r, c] == Prefix(a, b, r, c)
      invariant forall r :: 0 <= r <= |a| ==> table[r, 0] == 0
    {
      for j := 0 to |b|
        invariant forall r, c :: 0 <= r <= i && 0 <= c <= |b| ==> table[r, c] == Prefix(a, b, r, c)
        invariant forall r, c :: r == i + 1 && 0 <= c <= j ==> table[r, c] == Prefix(a, b, r, c)
        invariant forall r :: 0 <= r <= |a| ==> table[r, 0] == 0
      {
        PrefixStep(a, b, i, j);
        table[i + 1, j + 1] := if a[i] == b[j] then table[i, j] + 1 else Max(table[i, j + 1], table[i + 1, j]);
      }
    }
  }

  lemma {:induction false} PrefixEdge(a: seq<Line>, b: seq<Line>, i: nat, j: nat)
    requires i <= |a| && j <= |b| && (i == 0 || j == 0)
    ensures Prefix(a, b, i, j) == 0
  {
  }

  lemma {:induction false} PrefixStep(a: seq<Line>, b: seq<Line>, i: nat, j: nat)
    requires i < |a| && j < |b|
    ensures Prefix(a, b, i + 1, j + 1) == if a[i] == b[j] then Prefix(a, b, i, j) + 1
      else Max(Prefix(a, b, i, j + 1), Prefix(a, b, i + 1, j))
  {
  }

  /**
   The matching that the table's traceback reads: a match wherever both ends are equal, and otherwise the longer
   side, rows first.
   */
  function Trace(a: seq<Line>, b: seq<Line>, i: nat, j: nat): seq<Pair>
    requires i <= |a| && j <= |b|
  {
    if i == 0 || j == 0 then []
    else if a[i - 1] == b[j - 1] then Trace(a, b, i - 1, j - 1) + [(i - 1, j - 1)]
    else if Prefix(a, b, i - 1, j) >= Prefix(a, b, i, j - 1) then Trace(a, b, i - 1, j)
    else Trace(a, b, i, j - 1)
  }

  lemma {:induction false} TraceEdge(a: seq<Line>, b: seq<Line>, i: nat, j: nat)
    requires i <= |a| && j <= |b| && (i == 0 || j == 0)
    ensures Trace(a, b, i, j) == []
  {
  }

  lemma {:induction false} TraceStep(a: seq<Line>, b: seq<Line>, i: nat, j: nat)
    requires i < |a| && j < |b|
    ensures Trace(a, b, i + 1, j + 1) ==
      if a[i] == b[j] then Trace(a, b, i, j) + [(i, j)]
      else if Prefix(a, b, i, j + 1) >= Prefix(a, b, i + 1, j) then Trace(a, b, i, j + 1)
      else Trace(a, b, i + 1, j)
  {
    hide Prefix;
  }

  /** Reads one longest matching back from the table. */
  method Traceback(a: seq<Line>, b: seq<Line>, table: array2<nat>)
    returns (matched: seq<Option<nat>>, ghost pairs: seq<Pair>)
    requires table.Length0 == |a| + 1 && table.Length1 == |b| + 1
    requires forall i, j :: 0 <= i <= |a| && 0 <= j <= |b| ==> table[i, j] == Prefix(a, b, i, j)
    ensures |matched| == |a| && IsLongest(a, b, pairs) && pairs == Trace(a, b, |a|, |b|)
    ensures forall i, j :: 0 <= i < |a| ==> (matched[i] == Some(j) <==> (i, j) in pairs)
  {
    hide Prefix, IsMatching, IsLongest, Trace;
    matched, pairs := seq(|a|, _ => None), [];
    var i, j := |a|, |b|;
    assert IsMatching(a, b, pairs) && From(pairs, i, j) by { NoPairs(a, b, i, j); }
    while i > 0 && j > 0
      invariant 0 <= i <= |a| && 0 <= j <= |b| && |matched| == |a|
      invariant IsMatching(a, b, pairs) && From(pairs, i, j)
      invariant |pairs| + Prefix(a, b, i, j) == Prefix(a, b, |a|, |b|)
      invariant Trace(a, b, i, j) + pairs == Trace(a, b, |a|, |b|)
      invariant forall r, c :: 0 <= r < |a| ==> (matched[r] == Some(c) <==> (r, c) in pairs)
      decreases i + j
    {
      PrefixStep(a, b, i - 1, j - 1);
      TraceStep(a, b, i - 1, j - 1);
      if a[i - 1] == b[j - 1] {
        assert Trace(a, b, i, j) + pairs == Trace(a, b, i - 1, j - 1) + ([(i - 1, j - 1)] + pairs);
        PrependPair(a, b, i - 1, j - 1, pairs);
        matched := matched[i - 1 := Some(j - 1)];
        pairs := [(i - 1, j - 1)] + pairs;
        i, j := i - 1, j - 1;
      } else if table[i - 1, j] >= table[i, j - 1] {
        i := i - 1;
      } else {
        j := j - 1;
      }
    }
    PrefixEdge(a, b, i, j);
    TraceEdge(a, b, i, j);
    LongestLength(a, b, pairs);
  }

  lemma {:induction false} NoPairs(a: seq<Line>, b: seq<Line>, i: nat, j: nat)
    ensures IsMatching(a, b, []) && From([], i, j)
  {
  }

  lemma {:induction false} PrependPair(a: seq<Line>, b: seq<Line>, i: nat, j: nat, pairs: seq<Pair>)
    requires IsMatching(a, b, pairs) && From(pairs, i + 1, j + 1) && i < |a| && j < |b| && a[i] == b[j]
    ensures IsMatching(a, b, [(i, j)] + pairs) && From([(i, j)] + pairs, i, j)
    ensures forall c :: (i, c) !in pairs
  {
    Append(a, b, [(i, j)], pairs, i + 1, j + 1);
  }

  /** The longest matching around row `i`, over every split. */
  method BestSplit(a: seq<Line>, b: seq<Line>, table: array2<nat>, suffix: array<nat>, i: nat) returns (without: nat)
    requires i < |a| && table.Length0 == |a| + 1 && table.Length1 == |b| + 1 && suffix.Length == |b| + 1
    requires forall i, j :: 0 <= i <= |a| && 0 <= j <= |b| ==> table[i, j] == Prefix(a, b, i, j)
    requires forall j :: 0 <= j <= |b| ==> suffix[j] == Suffix(a, b, i + 1, j)
    ensures (forall j :: 0 <= j <= |b| ==> Split(a, b, i, j) <= without)
      && (exists j :: 0 <= j <= |b| && Split(a, b, i, j) == without)
  {
    hide Prefix, Suffix;
    without := table[i, 0] + suffix[0];
    assert Split(a, b, i, 0) == without;
    for j := 1 to |b| + 1
      invariant forall c :: 0 <= c < j ==> Split(a, b, i, c) <= without
      invariant exists c :: 0 <= c <= |b| && Split(a, b, i, c) == without
    {
      var here := table[i, j] + suffix[j];
      assert Split(a, b, i, j) == here;
      without := Max(without, here);
    }
  }

  /** The next row of suffix lengths, from right to left. */
  method FillSuffix(a: seq<Line>, b: seq<Line>, suffix: array<nat>, row: array<nat>, i: nat)
    requires i < |a| && suffix.Length == |b| + 1 && row.Length == |b| + 1 && suffix != row && row[|b|] == 0
    requires forall j :: 0 <= j <= |b| ==> suffix[j] == Suffix(a, b, i + 1, j)
    modifies row
    ensures forall j :: 0 <= j <= |b| ==> row[j] == Suffix(a, b, i, j)
  {
    var j := |b|;
    while j > 0
      invariant 0 <= j <= |b|
      invariant forall c :: j <= c <= |b| ==> row[c] == Suffix(a, b, i, c)
    {
      j := j - 1;
      row[j] := if a[i] == b[j] then 1 + suffix[j + 1] else Max(suffix[j], row[j + 1]);
    }
  }

  /** One longest matching of `base` with `other`, and whether every longest one keeps each base row. */
  method Matches(base: seq<Line>, other: seq<Line>)
    returns (matched: seq<Option<nat>>, mandatory: seq<bool>, ghost pairs: seq<Pair>)
    ensures |matched| == |base| && |mandatory| == |base| && IsLongest(base, other, pairs)
    ensures pairs == Trace(base, other, |base|, |other|)
    ensures forall i, j :: 0 <= i < |base| ==> (matched[i] == Some(j) <==> (i, j) in pairs)
    ensures forall i :: 0 <= i < |base| ==> (mandatory[i] <==> Mandatory(base, other, i))
  {
    hide Prefix, IsLongest, Mandatory, Split, Suffix, Trace;
    var table := FillPrefix(base, other);
    var total := table[|base|, |other|];
    matched, pairs := Traceback(base, other, table);
    mandatory := seq(|base|, _ => false);
    var suffix := new nat[|other| + 1](_ => 0);
    var row := new nat[|other| + 1](_ => 0);
    forall j | 0 <= j <= |other| ensures Suffix(base, other, |base|, j) == 0
    {
      SuffixEdge(base, other, |base|, j);
    }
    var i := |base|;
    while i > 0
      invariant 0 <= i <= |base| && |mandatory| == |base|
      invariant fresh(suffix) && fresh(row) && suffix != row && suffix.Length == |other| + 1
        && row.Length == |other| + 1 && row[|other|] == 0
      invariant forall r, c :: 0 <= r <= |base| && 0 <= c <= |other| ==> table[r, c] == Prefix(base, other, r, c)
      invariant forall j :: 0 <= j <= |other| ==> suffix[j] == Suffix(base, other, i, j)
      invariant forall r :: i <= r < |base| ==> (mandatory[r] <==> Mandatory(base, other, r))
    {
      i := i - 1;
      var without := BestSplit(base, other, table, suffix, i);
      MandatorySplit(base, other, i, without);
      mandatory := mandatory[i := without < total];
      FillSuffix(base, other, suffix, row, i);
      SuffixEdge(base, other, i + 1, |other|);
      row, suffix := suffix, row;
    }
  }

  lemma {:induction false} SuffixEdge(a: seq<Line>, b: seq<Line>, i: nat, j: nat)
    requires i <= |a| && j <= |b| && (i == |a| || j == |b|)
    ensures Suffix(a, b, i, j) == 0
  {
  }
}
