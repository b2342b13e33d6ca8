/**
 Line correspondence between two versions of a file (src/blame.rs): common ends are matched first,
 and the middle by a shortest edit script over interned lines.
 */
module Blame {
  import opened Names
  import opened Myers

  const MAX_EDITS: nat := 2048

  /** The length of the longest common prefix. */
  method CommonPrefix(before: seq<Line>, after: seq<Line>) returns (n: nat)
    ensures n <= |before| && n <= |after| && before[..n] == after[..n]
    ensures n < |before| && n < |after| ==> before[n] != after[n]
  {
    n := 0;
    while n < |before| && n < |after| && before[n] == after[n]
      invariant n <= |before| && n <= |after| && before[..n] == after[..n]
    {
      n := n + 1;
    }
  }

  /** The length of the longest common suffix. */
  method CommonSuffix(before: seq<Line>, after: seq<Line>) returns (n: nat)
    ensures n <= |before| && n <= |after| && before[|before| - n..] == after[|after| - n..]
    ensures n < |before| && n < |after| ==> before[|before| - 1 - n] != after[|after| - 1 - n]
  {
    n := 0;
    while n < |before| && n < |after| && before[|before| - 1 - n] == after[|after| - 1 - n]
      invariant n <= |before| && n <= |after| && before[|before| - n..] == after[|after| - n..]
    {
      n := n + 1;
    }
  }

  /** Distinct lines have distinct numbers. */
  ghost predicate Interned(ids: map<Line, Symbol>) {
    && (forall l :: l in ids ==> ids[l] < |ids|)
    && (forall l, m :: l in ids && m in ids && ids[l] == ids[m] ==> l == m)
  }

  /** The symbols are the lines' numbers. */
  ghost predicate Spells(ids: map<Line, Symbol>, lines: seq<Line>, symbols: seq<Symbol>) {
    |symbols| == |lines| && forall i :: 0 <= i < |lines| ==> lines[i] in ids && symbols[i] == ids[lines[i]]
  }

  /** Numbers lines in order of first appearance. */
  method Intern(lines: seq<Line>, known: map<Line, Symbol>) returns (symbols: seq<Symbol>, ids: map<Line, Symbol>)
    requires Interned(known)
    ensures Interned(ids) && Spells(ids, lines, symbols)
    ensures forall l :: l in known ==> l in ids && ids[l] == known[l]
  {
    symbols, ids := [], known;
    for i := 0 to |lines|
      invariant Interned(ids) && |symbols| == i
      invariant forall l :: l in known ==> l in ids && ids[l] == known[l]
      invariant forall j :: 0 <= j < i ==> lines[j] in ids && symbols[j] == ids[lines[j]]
    {
      if lines[i] !in ids {
        ids := ids[lines[i] := |ids|];
      }
      symbols := symbols + [ids[lines[i]]];
    }
  }

  /** The pairs of the matched lines that remain once the ends are cut off. */
  lemma {:induction false} MiddleOf(before: seq<Line>, after: seq<Line>, pairs: seq<Pair>, prefix: nat, suffix: nat)
    returns (middle: seq<Pair>)
    requires IsMatching(before, after, pairs) && prefix + suffix <= |pairs|
    requires prefix + suffix <= |before| && prefix + suffix <= |after|
    ensures IsMatching(before[prefix..|before| - suffix], after[prefix..|after| - suffix], middle)
      && |middle| == |pairs| - prefix - suffix
  {
    var n := |pairs| - prefix - suffix;
    forall i | 0 <= i < |pairs|
      ensures pairs[i].0 >= i && pairs[i].1 >= i && pairs[i].0 <= |before| - |pairs| + i
        && pairs[i].1 <= |after| - |pairs| + i
    {
      Spread(before, after, pairs, i);
    }
    middle := seq(n, i requires 0 <= i < n => (pairs[prefix + i].0 - prefix, pairs[prefix + i].1 - prefix));
    var a, b := before[prefix..|before| - suffix], after[prefix..|after| - suffix];
    forall i | 0 <= i < n ensures middle[i].0 < |a| && middle[i].1 < |b| && a[middle[i].0] == b[middle[i].1]
    {
      assert a[middle[i].0] == before[pairs[prefix + i].0] && b[middle[i].1] == after[pairs[prefix + i].1];
    }
  }

  /** A strictly increasing pair list leaves room before and after each pair. */
  lemma {:induction false} Spread(before: seq<Line>, after: seq<Line>, pairs: seq<Pair>, i: nat)
    requires IsMatching(before, after, pairs) && i < |pairs|
    ensures pairs[i].0 >= i && pairs[i].1 >= i && pairs[i].0 <= |before| - |pairs| + i
      && pairs[i].1 <= |after| - |pairs| + i
  {
    SpreadBefore(pairs, i);
    SpreadAfter(pairs, i, |pairs| - 1);
  }

  lemma {:induction false} SpreadBefore(pairs: seq<Pair>, i: nat)
    requires i < |pairs| && forall i, j :: 0 <= i < j < |pairs| ==> pairs[i].0 < pairs[j].0 && pairs[i].1 < pairs[j].1
    ensures pairs[i].0 >= i && pairs[i].1 >= i
  {
    if i > 0 {
      SpreadBefore(pairs, i - 1);
    }
  }

  lemma {:induction false} SpreadAfter(pairs: seq<Pair>, i: nat, j: nat)
    requires i <= j < |pairs| && forall i, j :: 0 <= i < j < |pairs| ==>
      pairs[i].0 < pairs[j].0 && pairs[i].1 < pairs[j].1
    ensures pairs[j].0 >= pairs[i].0 + (j - i) && pairs[j].1 >= pairs[i].1 + (j - i)
  {
    if i < j {
      SpreadAfter(pairs, i, j - 1);
    }
  }

  /** Each new line holds the old line it is paired with, and only that. */
  ghost predicate Places(result: seq<Option<nat>>, pairs: seq<Pair>) {
    forall j: nat, i: nat :: j < |result| ==> (result[j] == Some(i) <==> (i, j) in pairs)
  }

  /** Pairs moved along both sides. */
  function Shift(pairs: seq<Pair>, x: nat, y: nat): seq<Pair> {
    seq(|pairs|, i requires 0 <= i < |pairs| => (pairs[i].0 + x, pairs[i].1 + y))
  }

  /** A run of lines matched with itself. */
  function Same(n: nat): seq<Pair> {
    seq(n, i => (i, i))
  }

  lemma {:induction false} SameMatches(s: seq<Line>)
    ensures IsMatching(s, s, Same(|s|))
  {
  }

  lemma {:induction false} MatchesJoin(a: seq<Line>, b: seq<Line>, one: seq<Pair>, c: seq<Line>, d: seq<Line>,
      two: seq<Pair>)
    requires IsMatching(a, b, one) && IsMatching(c, d, two)
    ensures IsMatching(a + c, b + d, one + Shift(two, |a|, |b|))
  {
    var all := one + Shift(two, |a|, |b|);
    forall i | 0 <= i < |all| ensures all[i].0 < |a + c| && all[i].1 < |b + d| && (a + c)[all[i].0] == (b + d)[all[i].1]
    {
      if i >= |one| {
        assert all[i] == (two[i - |one|].0 + |a|, two[i - |one|].1 + |b|);
      }
    }
    forall i, j | 0 <= i < j < |all| ensures all[i].0 < all[j].0 && all[i].1 < all[j].1
    {
      if j >= |one| {
        assert all[j] == (two[j - |one|].0 + |a|, two[j - |one|].1 + |b|);
      }
      if i >= |one| {
        assert all[i] == (two[i - |one|].0 + |a|, two[i - |one|].1 + |b|);
      }
    }
  }

  /** The matched ends around a matched middle. */
  function Joined(prefix: nat, middle: seq<Pair>, suffix: nat, oldLen: nat, newLen: nat): seq<Pair>
    requires suffix <= oldLen && suffix <= newLen
  {
    (Same(prefix) + Shift(middle, prefix, prefix)) + Shift(Same(suffix), oldLen - suffix, newLen - suffix)
  }

  lemma {:induction false} JoinedMatches(before: seq<Line>, after: seq<Line>, prefix: nat, middle: seq<Pair>,
      suffix: nat)
    requires prefix + suffix <= |before| && prefix + suffix <= |after| && before[..prefix] == after[..prefix]
    requires before[|before| - suffix..] == after[|after| - suffix..]
    requires IsMatching(before[prefix..|before| - suffix], after[prefix..|after| - suffix], middle)
    ensures IsMatching(before, after, Joined(prefix, middle, suffix, |before|, |after|))
    ensures |Joined(prefix, middle, suffix, |before|, |after|)| == prefix + |middle| + suffix
  {
    hide IsMatching;
    var head, tail := before[..prefix], before[|before| - suffix..];
    var x, y := before[prefix..|before| - suffix], after[prefix..|after| - suffix];
    SameMatches(head);
    SameMatches(tail);
    MatchesJoin(head, head, Same(prefix), x, y, middle);
    MatchesJoin(head + x, head + y, Same(prefix) + Shift(middle, prefix, prefix), tail, tail, Same(suffix));
    assert before == head + x + tail && after == head + y + tail;
  }

  /** Cutting both common ends leaves the two middles. */
  lemma {:induction false} EndsCut(before: seq<Line>, after: seq<Line>, prefix: nat, suffix: nat)
    requires prefix <= |before| && prefix <= |after| && suffix <= |before| - prefix && suffix <= |after| - prefix
    requires before[prefix..][|before| - prefix - suffix..] == after[prefix..][|after| - prefix - suffix..]
    ensures before[|before| - suffix..] == after[|after| - suffix..]
  {
    assert before[|before| - suffix..] == before[prefix..][|before| - prefix - suffix..];
    assert after[|after| - suffix..] == after[prefix..][|after| - prefix - suffix..];
  }

  /** The most lines both versions start with, and then the most that both end with. */
  ghost predicate IsEnds(before: seq<Line>, after: seq<Line>, prefix: nat, suffix: nat) {
    && prefix + suffix <= |before| && prefix + suffix <= |after|
    && before[..prefix] == after[..prefix] && before[|before| - suffix..] == after[|after| - suffix..]
    && (prefix < |before| && prefix < |after| ==> before[prefix] != after[prefix])
    && (prefix + suffix < |before| && prefix + suffix < |after| ==>
          before[|before| - 1 - suffix] != after[|after| - 1 - suffix])
  }

  /** The lines both versions start with, then those both end with. */
  method CommonEnds(before: seq<Line>, after: seq<Line>) returns (prefix: nat, suffix: nat)
    ensures IsEnds(before, after, prefix, suffix)
  {
    prefix := CommonPrefix(before, after);
    suffix := CommonSuffix(before[prefix..], after[prefix..]);
    EndsCut(before, after, prefix, suffix);
  }

  /**
   Longest edit-free correspondence: for each new line, the old line it continues. The pairs are a
   matching as long as any that leaves at most MAX_EDITS edits. When every matching leaves more, they
   are exactly the common ends.
   */
  method Matching(before: seq<Line>, after: seq<Line>)
    returns (result: seq<Option<nat>>, ghost pairs: seq<Pair>, ghost prefix: nat, ghost suffix: nat)
    ensures IsEnds(before, after, prefix, suffix)
    ensures !Reachable(before, after) ==> pairs == Joined(prefix, [], suffix, |before|, |after|)
    ensures |result| == |after| && IsMatching(before, after, pairs)
    ensures Places(result, pairs)
    ensures LongestWithin(before, after, pairs)
  {
    hide IsMatching, Joined, LongestWithin, Places, Reachable;
    var start, end := CommonEnds(before, after);
    prefix, suffix := start, end;
    result, pairs := MatchInside(before, after, start, end);
  }

  /** The matching once the common ends are known. */
  method MatchInside(before: seq<Line>, after: seq<Line>, prefix: nat, suffix: nat)
    returns (result: seq<Option<nat>>, ghost pairs: seq<Pair>)
    requires prefix + suffix <= |before| && prefix + suffix <= |after|
    requires before[..prefix] == after[..prefix] && before[|before| - suffix..] == after[|after| - suffix..]
    ensures |result| == |after| && IsMatching(before, after, pairs)
    ensures Places(result, pairs) && LongestWithin(before, after, pairs)
    ensures !Reachable(before, after) ==> pairs == Joined(prefix, [], suffix, |before|, |after|)
  {
    hide IsMatching, Joined, LongestWithin, Places, Reachable;
    var x, y := before[prefix..|before| - suffix], after[prefix..|after| - suffix];
    var middle := MatchingMiddle(x, y);
    pairs := Joined(prefix, middle, suffix, |before|, |after|);
    JoinedMatches(before, after, prefix, middle, suffix);
    MatchingInside(x, y, middle);
    result := Fill(|before|, |after|, prefix, middle, suffix);
    WholeLongest(before, after, prefix, suffix, x, y, middle, pairs);
    if middle != [] {
      ReachableBy(before, after, pairs);
    }
  }

  /** Some matching leaves at most MAX_EDITS edits. */
  ghost predicate Reachable(before: seq<Line>, after: seq<Line>) {
    exists other :: IsMatching(before, after, other) && |before| + |after| - 2 * |other| <= MAX_EDITS
  }

  lemma {:induction false} ReachableBy(before: seq<Line>, after: seq<Line>, pairs: seq<Pair>)
    requires IsMatching(before, after, pairs) && |before| + |after| - 2 * |pairs| <= MAX_EDITS
    ensures Reachable(before, after)
  {
    hide IsMatching;
  }

  /** What is left between the common ends is compared by interned symbols. */
  method MatchingMiddle(x: seq<Line>, y: seq<Line>) returns (middle: seq<Pair>)
    ensures IsMatching(x, y, middle) && LongestWithin(x, y, middle)
    ensures middle != [] ==> |x| + |y| - 2 * |middle| <= MAX_EDITS
  {
    hide IsMatching, Interned, Spells, LongestWithin;
    assert Interned(map[]) by { NothingInterned(); }
    var a, ids := Intern(x, map[]);
    var b, all := Intern(y, ids);
    SpellsOn(ids, all, x, a);
    SpellsOn(all, all, y, b);
    middle := ShortestScript(a, b, MAX_EDITS);
    SymbolsMatch(x, y, a, b, all, middle);
    SymbolsLongest(x, y, a, b, all, middle);
  }

  /** No matching that leaves at most MAX_EDITS edits is longer. */
  ghost predicate LongestWithin(a: seq<Line>, b: seq<Line>, pairs: seq<Pair>) {
    forall other :: IsMatching(a, b, other) && |a| + |b| - 2 * |other| <= MAX_EDITS ==> |other| <= |pairs|
  }

  lemma {:induction false} SymbolsLongest(x: seq<Line>, y: seq<Line>, a: seq<Symbol>, b: seq<Symbol>,
      ids: map<Line, Symbol>, middle: seq<Pair>)
    requires Interned(ids) && Spells(ids, x, a) && Spells(ids, y, b)
    requires forall other :: IsMatching(a, b, other) && |a| + |b| - 2 * |other| <= MAX_EDITS ==> |other| <= |middle|
    ensures LongestWithin(x, y, middle)
  {
    hide IsMatching, Interned;
    forall other | IsMatching(x, y, other) && |x| + |y| - 2 * |other| <= MAX_EDITS ensures |other| <= |middle|
    {
      SymbolsMatch(x, y, a, b, ids, other);
    }
  }

  lemma {:induction false} SpellsOn(ids: map<Line, Symbol>, all: map<Line, Symbol>, lines: seq<Line>,
      symbols: seq<Symbol>)
    requires Spells(ids, lines, symbols) && forall l :: l in ids ==> l in all && all[l] == ids[l]
    ensures Spells(all, lines, symbols) && |lines| == |symbols|
  {
  }

  /** A longest middle makes a longest whole. */
  lemma {:induction false} WholeLongest(before: seq<Line>, after: seq<Line>, prefix: nat, suffix: nat, x: seq<Line>,
      y: seq<Line>, middle: seq<Pair>, pairs: seq<Pair>)
    requires prefix + suffix <= |before| && prefix + suffix <= |after|
    requires x == before[prefix..|before| - suffix] && y == after[prefix..|after| - suffix]
    requires LongestWithin(x, y, middle) && |pairs| == prefix + |middle| + suffix
    ensures LongestWithin(before, after, pairs)
  {
    hide IsMatching;
    forall other | IsMatching(before, after, other) && |before| + |after| - 2 * |other| <= MAX_EDITS
      ensures |other| <= |pairs|
    {
      if |other| >= prefix + suffix {
        var cut := MiddleOf(before, after, other, prefix, suffix);
      }
    }
  }

  lemma {:induction false} NothingInterned()
    ensures Interned(map[])
  {
  }

  lemma {:induction false} MatchingInside(x: seq<Line>, y: seq<Line>, pairs: seq<Pair>)
    requires IsMatching(x, y, pairs)
    ensures forall i :: 0 <= i < |pairs| ==> pairs[i].1 < |y|
    ensures forall i, j :: 0 <= i < j < |pairs| ==> pairs[i].1 < pairs[j].1
  {
  }

  lemma {:induction false} SymbolsMatch(x: seq<Line>, y: seq<Line>, a: seq<Symbol>, b: seq<Symbol>,
      ids: map<Line, Symbol>, pairs: seq<Pair>)
    requires Interned(ids) && Spells(ids, x, a) && Spells(ids, y, b)
    ensures IsMatching(x, y, pairs) <==> IsMatching(a, b, pairs)
  {
  }

  /** Writes each pair's old index at its new index. */
  method Fill(oldLen: nat, newLen: nat, prefix: nat, middle: seq<Pair>, suffix: nat) returns (result: seq<Option<nat>>)
    requires prefix + suffix <= oldLen && prefix + suffix <= newLen
    requires forall i :: 0 <= i < |middle| ==> middle[i].1 < newLen - prefix - suffix
    requires forall i, j :: 0 <= i < j < |middle| ==> middle[i].1 < middle[j].1
    ensures |result| == newLen
    ensures Places(result, Joined(prefix, middle, suffix, oldLen, newLen))
  {
    hide Joined, Places, EndsFilled;
    var slots: array<Option<nat>> := new Option<nat>[newLen](_ => None);
    FillEnds(slots, oldLen, prefix, suffix);
    assert MiddleFilled(slots[..], middle, 0, prefix, suffix);
    for n := 0 to |middle|
      invariant EndsFilled(slots[..], oldLen, prefix, suffix) && MiddleFilled(slots[..], middle, n, prefix, suffix)
    {
      ghost var before := slots[..];
      slots[prefix + middle[n].1] := Some(prefix + middle[n].0);
      assert slots[..] == before[prefix + middle[n].1 := Some(prefix + middle[n].0)];
      FilledMore(before, oldLen, middle, n, prefix, suffix);
    }
    result := slots[..];
    FilledJoined(result, oldLen, prefix, middle, suffix);
  }

  /** Between the ends, exactly the first `n` middle pairs are written. */
  ghost predicate MiddleFilled(result: seq<Option<nat>>, middle: seq<Pair>, n: nat, prefix: nat, suffix: nat) {
    && n <= |middle| && prefix + suffix <= |result|
    && (forall j :: prefix <= j < |result| - suffix && result[j].Some? ==>
          InMiddle(middle, n, prefix, result[j].value, j))
    && (forall m :: 0 <= m < n ==>
          middle[m].1 < |result| - prefix - suffix && result[prefix + middle[m].1] == Some(prefix + middle[m].0))
  }

  lemma {:induction false} FilledMore(before: seq<Option<nat>>, oldLen: nat, middle: seq<Pair>, n: nat, prefix: nat,
      suffix: nat)
    requires EndsFilled(before, oldLen, prefix, suffix) && MiddleFilled(before, middle, n, prefix, suffix)
    requires n < |middle| && middle[n].1 < |before| - prefix - suffix
    requires forall m :: 0 <= m < n ==> middle[m].1 < middle[n].1
    ensures var after := before[prefix + middle[n].1 := Some(prefix + middle[n].0)];
      EndsFilled(after, oldLen, prefix, suffix) && MiddleFilled(after, middle, n + 1, prefix, suffix)
  {
    hide InMiddle;
    var after := before[prefix + middle[n].1 := Some(prefix + middle[n].0)];
    forall j | prefix <= j < |after| - suffix && after[j].Some?
      ensures InMiddle(middle, n + 1, prefix, after[j].value, j)
    {
      if j == prefix + middle[n].1 {
        MiddleAlso(middle, n, n, prefix);
      } else {
        var m := MiddleWhere(middle, n, prefix, before[j].value, j);
        MiddleAlso(middle, n, m, prefix);
      }
    }
  }

  lemma {:induction false} MiddleWhere(middle: seq<Pair>, n: nat, prefix: nat, i: nat, j: nat) returns (m: nat)
    requires n <= |middle| && InMiddle(middle, n, prefix, i, j)
    ensures m < n && middle[m].1 + prefix == j && middle[m].0 + prefix == i
  {
    m :| m < n && middle[m].1 + prefix == j && middle[m].0 + prefix == i;
  }

  lemma {:induction false} MiddleAlso(middle: seq<Pair>, n: nat, m: nat, prefix: nat)
    requires m <= n < |middle|
    ensures InMiddle(middle, n + 1, prefix, prefix + middle[m].0, prefix + middle[m].1)
  {
  }

  /** The common ends are written. */
  ghost predicate EndsFilled(result: seq<Option<nat>>, oldLen: nat, prefix: nat, suffix: nat) {
    && prefix + suffix <= oldLen && prefix + suffix <= |result|
    && (forall j :: 0 <= j < prefix ==> result[j] == Some(j))
    && (forall j :: |result| - suffix <= j < |result| ==> result[j] == Some(oldLen - |result| + j))
  }

  method FillPrefix(slots: array<Option<nat>>, prefix: nat)
    requires prefix <= slots.Length
    requires forall j :: 0 <= j < slots.Length ==> slots[j] == None
    modifies slots
    ensures forall j :: 0 <= j < prefix ==> slots[j] == Some(j)
    ensures forall j :: prefix <= j < slots.Length ==> slots[j] == None
  {
    for i := 0 to prefix
      invariant forall j :: 0 <= j < i ==> slots[j] == Some(j)
      invariant forall j :: i <= j < slots.Length ==> slots[j] == None
    {
      slots[i] := Some(i);
    }
  }

  method FillEnds(slots: array<Option<nat>>, oldLen: nat, prefix: nat, suffix: nat)
    requires prefix + suffix <= oldLen && prefix + suffix <= slots.Length
    requires forall j :: 0 <= j < slots.Length ==> slots[j] == None
    modifies slots
    ensures EndsFilled(slots[..], oldLen, prefix, suffix)
    ensures forall j :: prefix <= j < slots.Length - suffix ==> slots[j] == None
  {
    FillPrefix(slots, prefix);
    for k := 0 to suffix
      invariant forall j :: 0 <= j < prefix ==> slots[j] == Some(j)
      invariant forall j :: prefix <= j < slots.Length - k ==> slots[j] == None
      invariant forall j :: slots.Length - k <= j < slots.Length ==> slots[j] == Some(oldLen - slots.Length + j)
    {
      slots[slots.Length - 1 - k] := Some(oldLen - 1 - k);
    }
  }

  lemma {:induction false} FilledJoined(result: seq<Option<nat>>, oldLen: nat, prefix: nat, middle: seq<Pair>,
      suffix: nat)
    requires prefix + suffix <= oldLen && prefix + suffix <= |result|
    requires EndsFilled(result, oldLen, prefix, suffix)
    requires MiddleFilled(result, middle, |middle|, prefix, suffix)
    ensures Places(result, Joined(prefix, middle, suffix, oldLen, |result|))
  {
    hide Joined, EndsFilled, MiddleFilled;
    forall j: nat, i: nat | j < |result| ensures result[j] == Some(i) <==>
      (i, j) in Joined(prefix, middle, suffix, oldLen, |result|)
    {
      FilledAt(result, oldLen, prefix, middle, suffix, i, j);
    }
  }

  lemma {:induction false} FilledAt(result: seq<Option<nat>>, oldLen: nat, prefix: nat, middle: seq<Pair>,
      suffix: nat, i: nat, j: nat)
    requires EndsFilled(result, oldLen, prefix, suffix) && j < |result|
    requires MiddleFilled(result, middle, |middle|, prefix, suffix)
    ensures result[j] == Some(i) <==> (i, j) in Joined(prefix, middle, suffix, oldLen, |result|)
  {
    hide Joined, InMiddle;
    JoinedHas(oldLen, |result|, prefix, middle, suffix, i, j);
    if prefix <= j < |result| - suffix && InMiddle(middle, |middle|, prefix, i, j) {
      var m := MiddleWhere(middle, |middle|, prefix, i, j);
      assert result[prefix + middle[m].1] == Some(i);
    }
  }

  /** One of the first `n` middle pairs joins these lines. */
  ghost predicate InMiddle(middle: seq<Pair>, n: nat, prefix: nat, i: int, j: int)
    requires n <= |middle|
  {
    exists m :: 0 <= m < n && middle[m].1 + prefix == j && middle[m].0 + prefix == i
  }

  lemma {:induction false} JoinedHas(oldLen: nat, newLen: nat, prefix: nat, middle: seq<Pair>, suffix: nat, i: nat,
      j: nat)
    requires prefix + suffix <= oldLen && prefix + suffix <= newLen && j < newLen
    requires forall i :: 0 <= i < |middle| ==> middle[i].1 < newLen - prefix - suffix
    ensures (i, j) in Joined(prefix, middle, suffix, oldLen, newLen) <==>
      if j < prefix then i == j
      else if j >= newLen - suffix then i == oldLen - newLen + j
      else InMiddle(middle, |middle|, prefix, i, j)
  {
    var head, mid, tail :=
      Same(prefix), Shift(middle, prefix, prefix), Shift(Same(suffix), oldLen - suffix, newLen - suffix);
    assert (i, j) in head + mid + tail <==> (i, j) in head || (i, j) in mid || (i, j) in tail;
    assert (i, j) in head <==> i == j < prefix by {
      if i == j < prefix { assert head[j] == (j, j); }
    }
    assert (i, j) in tail <==> i == oldLen - newLen + j && j >= newLen - suffix by {
      if i == oldLen - newLen + j && j >= newLen - suffix { assert tail[j - (newLen - suffix)] == (i, j); }
    }
    assert (i, j) in mid <==> InMiddle(middle, |middle|, prefix, i, j) by {
      if m :| 0 <= m < |middle| && middle[m].1 + prefix == j && middle[m].0 + prefix == i { assert mid[m] == (i, j); }
      if (i, j) in mid {
        var m :| 0 <= m < |mid| && mid[m] == (i, j);
        assert middle[m].1 + prefix == j;
      }
    }
  }
}
