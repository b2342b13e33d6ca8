/**
 Line matching for blame (src/blame.rs): Myers' greedy search keeps, for each number of edits and
 each diagonal, the furthest point reached, and reads a longest matching back from them. A diagonal
 `k` after `d` edits is named by its edits: `right` moves along the first sequence and `down` moves
 along the second, so `d == right + down` and `k == right - down`.
 */
module Myers {
  import opened Names

  type Symbol = nat
  type Line = seq<Byte>
  type Pair = (nat, nat)

  /** Pairs of equal elements, strictly increasing on both sides. */
  ghost predicate IsMatching<T>(a: seq<T>, b: seq<T>, pairs: seq<Pair>) {
    && (forall i :: 0 <= i < |pairs| ==> pairs[i].0 < |a| && pairs[i].1 < |b| && a[pairs[i].0] == b[pairs[i].1])
    && (forall i, j :: 0 <= i < j < |pairs| ==> pairs[i].0 < pairs[j].0 && pairs[i].1 < pairs[j].1)
  }

  // -------------------------------------------------------------------- furthest points

  predicate Match(a: seq<Symbol>, b: seq<Symbol>, x: nat, y: nat) {
    x < |a| && y < |b| && a[x] == b[y]
  }

  /** Where following equal elements along a diagonal ends. */
  function Slide(a: seq<Symbol>, b: seq<Symbol>, x: nat, y: nat): (end: nat)
    ensures x <= end
    decreases |a| - x
  {
    if Match(a, b, x, y) then Slide(a, b, x + 1, y + 1) else x
  }

  /** Whether the furthest point on a diagonal comes from the one above it. */
  predicate Down(a: seq<Symbol>, b: seq<Symbol>, right: nat, down: nat)
    requires right + down > 0
    decreases right + down, 0
  {
    right == 0 || (down != 0 && Far(a, b, right - 1, down) < Far(a, b, right, down - 1))
  }

  /** Where the last slide along a diagonal begins. */
  function Start(a: seq<Symbol>, b: seq<Symbol>, right: nat, down: nat): (x: nat)
    ensures x >= right - down
    decreases right + down, 1
  {
    if right + down == 0 then 0
    else if Down(a, b, right, down) then Far(a, b, right, down - 1)
    else Far(a, b, right - 1, down) + 1
  }

  /** The furthest point on a diagonal; it may lie outside both sequences. */
  function Far(a: seq<Symbol>, b: seq<Symbol>, right: nat, down: nat): (x: nat)
    ensures x >= right - down
    decreases right + down, 2
  {
    Slide(a, b, Start(a, b, right, down), Start(a, b, right, down) - right + down)
  }

  /** The furthest point has passed both ends. */
  predicate Arrived(a: seq<Symbol>, b: seq<Symbol>, right: nat, down: nat) {
    Far(a, b, right, down) >= |a| && Far(a, b, right, down) - right + down >= |b|
  }

  lemma {:induction false} SlideEnds(a: seq<Symbol>, b: seq<Symbol>, x: nat, y: nat)
    ensures var end := Slide(a, b, x, y);
      && !Match(a, b, end, end - x + y)
      && (forall i: nat, j: nat :: x <= i < end && j == i - x + y ==> Match(a, b, i, j))
      && (end > x ==> end <= |a| && end - x + y <= |b|)
    decreases |a| - x
  {
    if Match(a, b, x, y) {
      SlideEnds(a, b, x + 1, y + 1);
    }
  }

  lemma {:induction false} FarIs(a: seq<Symbol>, b: seq<Symbol>, right: nat, down: nat)
    ensures Far(a, b, right, down) >= Start(a, b, right, down)
    ensures Far(a, b, right, down) == Slide(a, b, Start(a, b, right, down), Start(a, b, right, down) - right + down)
  {
    hide Start, Slide;
  }

  /** One more edit reaches one further right, and at least as far down. */
  lemma {:induction false} FarFurther(a: seq<Symbol>, b: seq<Symbol>, right: nat, down: nat)
    ensures Far(a, b, right + 1, down) >= Far(a, b, right, down) + 1
    ensures Far(a, b, right, down + 1) >= Far(a, b, right, down)
  {
    hide Slide, Far;
    FarIs(a, b, right + 1, down);
    FarIs(a, b, right, down + 1);
  }

  /** A furthest point is never short of a match. */
  lemma {:induction false} FarSlides(a: seq<Symbol>, b: seq<Symbol>, right: nat, down: nat, x: nat, y: nat)
    requires Far(a, b, right, down) >= x && x - y == right - down && Match(a, b, x, y)
    ensures Far(a, b, right, down) >= x + 1
  {
    hide Far, Start;
    FarIs(a, b, right, down);
    SlideEnds(a, b, Start(a, b, right, down), Start(a, b, right, down) - right + down);
  }

  ghost predicate Within(pairs: seq<Pair>, x: nat, y: nat) {
    forall i :: 0 <= i < |pairs| ==> pairs[i].0 < x && pairs[i].1 < y
  }

  /** Every matching of two prefixes is a path: the edits it leaves reach at least as far. */
  lemma {:induction false} MatchingReached(a: seq<Symbol>, b: seq<Symbol>, pairs: seq<Pair>, x: nat, y: nat)
    requires IsMatching(a, b, pairs) && x <= |a| && y <= |b| && Within(pairs, x, y)
    ensures |pairs| <= x && |pairs| <= y && Far(a, b, x - |pairs|, y - |pairs|) >= x
    decreases x + y
  {
    hide Far, IsMatching, Within, Match, Start, Down;
    if pairs != [] && pairs[|pairs| - 1] == (x - 1, y - 1) {
      MatchingLast(a, b, pairs, x, y);
      MatchingReached(a, b, pairs[..|pairs| - 1], x - 1, y - 1);
      FarSlides(a, b, x - |pairs|, y - |pairs|, x - 1, y - 1);
    } else if x > 0 && (pairs == [] || pairs[|pairs| - 1].0 < x - 1) {
      WithinLast(a, b, pairs, x, y);
      MatchingReached(a, b, pairs, x - 1, y);
      FarFurther(a, b, x - 1 - |pairs|, y - |pairs|);
    } else {
      WithinLast(a, b, pairs, x, y);
      if y > 0 {
        MatchingReached(a, b, pairs, x, y - 1);
        FarFurther(a, b, x - |pairs|, y - 1 - |pairs|);
      }
    }
  }

  lemma {:induction false} MatchingLast(a: seq<Symbol>, b: seq<Symbol>, pairs: seq<Pair>, x: nat, y: nat)
    requires IsMatching(a, b, pairs) && Within(pairs, x, y) && pairs != [] && pairs[|pairs| - 1] == (x - 1, y - 1)
    ensures x > 0 && y > 0 && Match(a, b, x - 1, y - 1)
    ensures IsMatching(a, b, pairs[..|pairs| - 1]) && Within(pairs[..|pairs| - 1], x - 1, y - 1)
  {
  }

  /** A matching that does not end at the corner leaves a row or a column free. */
  lemma {:induction false} WithinLast(a: seq<Symbol>, b: seq<Symbol>, pairs: seq<Pair>, x: nat, y: nat)
    requires IsMatching(a, b, pairs) && Within(pairs, x, y) && !(pairs != [] && pairs[|pairs| - 1] == (x - 1, y - 1))
    ensures x > 0 && (pairs == [] || pairs[|pairs| - 1].0 < x - 1) ==> Within(pairs, x - 1, y)
    ensures !(x > 0 && (pairs == [] || pairs[|pairs| - 1].0 < x - 1)) ==>
      (y > 0 ==> Within(pairs, x, y - 1)) && (y == 0 ==> x == 0 && pairs == [])
  {
  }

  function Min(x: int, y: int): int {
    if x < y then x else y
  }

  /** A point outside the sequences was reached from its clipped point, with that many fewer edits. */
  ghost predicate Clips(a: seq<Symbol>, b: seq<Symbol>, right: nat, down: nat) {
    var x, y := Far(a, b, right, down), Far(a, b, right, down) - right + down;
    var r, c := right - (x - Min(x, |a|)), down - (y - Min(y, |b|));
    r >= 0 && c >= 0 && Far(a, b, r, c) >= Min(x, |a|)
  }

  lemma {:induction false} Clipped(a: seq<Symbol>, b: seq<Symbol>, right: nat, down: nat)
    ensures Clips(a, b, right, down)
    decreases right + down
  {
    hide Slide, Clips, Far;
    var start := Start(a, b, right, down);
    FarIs(a, b, right, down);
    SlideEnds(a, b, start, start - right + down);
    if Far(a, b, right, down) > start || right + down == 0 {
      ClipsInside(a, b, right, down);
    } else if Down(a, b, right, down) {
      Clipped(a, b, right, down - 1);
      ClipsDown(a, b, right, down);
    } else {
      Clipped(a, b, right - 1, down);
      ClipsRight(a, b, right, down);
    }
  }

  lemma {:induction false} ClipsInside(a: seq<Symbol>, b: seq<Symbol>, right: nat, down: nat)
    requires Far(a, b, right, down) <= |a| && Far(a, b, right, down) - right + down <= |b|
    ensures Clips(a, b, right, down)
  {
    hide Far, Start, Down;
  }

  lemma {:induction false} ClipsDown(a: seq<Symbol>, b: seq<Symbol>, right: nat, down: nat)
    requires down > 0 && Far(a, b, right, down) == Far(a, b, right, down - 1) && Clips(a, b, right, down - 1)
    ensures Clips(a, b, right, down)
  {
    hide Far, Start, Down;
    var x, y := Far(a, b, right, down), Far(a, b, right, down) - right + down;
    var r, c := right - (x - Min(x, |a|)), down - 1 - (y - 1 - Min(y - 1, |b|));
    assert Far(a, b, r, c) >= Min(x, |a|);
    FarFurther(a, b, r, c);
  }

  lemma {:induction false} ClipsRight(a: seq<Symbol>, b: seq<Symbol>, right: nat, down: nat)
    requires right > 0 && Far(a, b, right, down) == Far(a, b, right - 1, down) + 1 && Clips(a, b, right - 1, down)
    ensures Clips(a, b, right, down)
  {
    hide Far, Start, Down;
    var x, y := Far(a, b, right, down), Far(a, b, right, down) - right + down;
    var r, c := right - 1 - (x - 1 - Min(x - 1, |a|)), down - (y - Min(y, |b|));
    assert Far(a, b, r, c) >= Min(x - 1, |a|);
    FarFurther(a, b, r, c);
  }

  /** No diagonal of fewer than `d` edits has arrived. */
  ghost predicate NoneBefore(a: seq<Symbol>, b: seq<Symbol>, d: int) {
    forall right: nat, down: nat :: right + down < d ==> !Arrived(a, b, right, down)
  }

  /** The first arrival is exactly at both ends. */
  lemma {:induction false} FirstArrival(a: seq<Symbol>, b: seq<Symbol>, right: nat, down: nat)
    requires Arrived(a, b, right, down) && NoneBefore(a, b, right + down)
    ensures right - down == |a| - |b| && Far(a, b, right, down) == |a|
  {
    hide Far, Start, Down;
    Clipped(a, b, right, down);
    var x, y := Far(a, b, right, down), Far(a, b, right, down) - right + down;
    assert Arrived(a, b, right - (x - |a|), down - (y - |b|));
  }

  // ------------------------------------------------------------------------- the search

  /** The array holds the furthest point of every diagonal of `d` edits. */
  ghost predicate Holds(a: seq<Symbol>, b: seq<Symbol>, v: seq<int>, offset: nat, d: nat) {
    && d < offset && |v| == 2 * offset + 1
    && forall right: nat, down: nat :: right + down == d ==> v[offset + right - down] == Far(a, b, right, down)
  }

  /** The first `n` diagonals of `d` edits are done, and none of them has arrived. */
  ghost predicate HoldsSome(a: seq<Symbol>, b: seq<Symbol>, v: seq<int>, offset: nat, d: nat, n: nat) {
    && d < offset && |v| == 2 * offset + 1
    && forall right: nat, down: nat :: right + down == d && right < n ==>
         v[offset + right - down] == Far(a, b, right, down) && !Arrived(a, b, right, down)
  }

  /** A recorded step holds the furthest point of every diagonal of `d` edits. */
  ghost predicate Recorded(a: seq<Symbol>, b: seq<Symbol>, step: seq<int>, d: nat) {
    && |step| == 2 * d + 1
    && forall right: nat, down: nat :: right + down == d ==> step[2 * right] == Far(a, b, right, down)
  }

  ghost predicate Traced(a: seq<Symbol>, b: seq<Symbol>, trace: seq<seq<int>>) {
    forall d :: 0 <= d < |trace| ==> Recorded(a, b, trace[d], d)
  }

  /** Follows equal elements from a point. */
  method SlideFrom(a: seq<Symbol>, b: seq<Symbol>, from: nat, k: int) returns (x: nat)
    requires from >= k
    ensures x == Slide(a, b, from, from - k)
  {
    x := from;
    var y := x - k;
    while x < |a| && y < |b| && a[x] == b[y]
      invariant y == x - k >= 0 && Slide(a, b, x, y) == Slide(a, b, from, from - k)
      decreases |a| - x
    {
      x := x + 1;
      y := y + 1;
    }
  }

  /** Where a slide starts, as read from the array. */
  lemma {:induction false} StartHeld(a: seq<Symbol>, b: seq<Symbol>, v: seq<int>, offset: nat, right: nat, down: nat)
    requires right + down < offset && |v| == 2 * offset + 1
    requires if right + down == 0 then v[offset + 1] == 0 else Holds(a, b, v, offset, right + down - 1)
    ensures var k := right - down;
      var fromAbove := right == 0 || (down != 0 && v[offset + k - 1] < v[offset + k + 1]);
      Start(a, b, right, down) == if fromAbove then v[offset + k + 1] else v[offset + k - 1] + 1
  {
    hide Far;
    if right + down > 0 {
      assert right > 0 ==> v[offset + (right - 1) - down] == Far(a, b, right - 1, down);
      assert down > 0 ==> v[offset + right - (down - 1)] == Far(a, b, right, down - 1);
    }
  }

  lemma {:induction false} HoldsKept(a: seq<Symbol>, b: seq<Symbol>, v: seq<int>, offset: nat, d: nat, right: nat,
      down: nat, x: int)
    requires right + down == d && HoldsSome(a, b, v, offset, d, right) && x == Far(a, b, right, down)
    requires d > 0 ==> Holds(a, b, v, offset, d - 1)
    ensures var w := v[offset + right - down := x];
      && (d > 0 ==> Holds(a, b, w, offset, d - 1))
      && (!Arrived(a, b, right, down) ==> HoldsSome(a, b, w, offset, d, right + 1))
      && w[offset + right - down] == x
  {
    hide Far, Arrived, Start, Down;
    var w := v[offset + right - down := x];
    if d > 0 {
      forall r: nat, c: nat | r + c == d - 1 ensures w[offset + r - c] == Far(a, b, r, c)
      {
        assert r - c != right - down by { Parity(r, c, right, down); }
      }
    }
    forall r: nat, c: nat | r + c == d && r < right + 1
      ensures w[offset + r - c] == Far(a, b, r, c) && (!Arrived(a, b, right, down) ==> !Arrived(a, b, r, c))
    {
      assert r == right ==> c == down;
    }
  }

  lemma {:induction false} Parity(r: nat, c: nat, right: nat, down: nat)
    requires r + c == right + down - 1
    ensures r - c != right - down
  {
  }

  /** One step of the search: every diagonal of `d` edits, until one arrives. */
  method Step(a: seq<Symbol>, b: seq<Symbol>, v: array<int>, offset: nat, d: nat)
    returns (arrived: bool, ghost right: nat, ghost down: nat)
    requires d < offset && v.Length == 2 * offset + 1
    requires if d == 0 then v[offset + 1] == 0 else Holds(a, b, v[..], offset, d - 1)
    requires NoneBefore(a, b, d)
    modifies v
    ensures arrived ==> right + down == d && right - down == |a| - |b| && Far(a, b, right, down) == |a|
    ensures !arrived ==> Holds(a, b, v[..], offset, d) && NoneBefore(a, b, d + 1)
  {
    hide Slide, Far, Start, Down, Arrived, Holds, HoldsSome, NoneBefore;
    right, down := 0, d;
    assert HoldsSome(a, b, v[..], offset, d, 0) by { HoldsNone(a, b, v[..], offset, d); }
    var k: int := 0 - d;
    while k <= d
      invariant right + down == d + (if k > d then 1 else 0) && k <= d + 2 && right <= d + 1
      invariant k + d == 2 * right && (k <= d ==> k == right - down)
      invariant d == 0 && k <= d ==> v[offset + 1] == 0
      invariant d > 0 ==> Holds(a, b, v[..], offset, d - 1)
      invariant HoldsSome(a, b, v[..], offset, d, right)
      decreases d - k
    {
      StartHeld(a, b, v[..], offset, right, down);
      var fromAbove := k + d == 0 || (k != d && v[offset + k - 1] < v[offset + k + 1]);
      var x := if fromAbove then v[offset + k + 1] else v[offset + k - 1] + 1;
      x := SlideFrom(a, b, x, k);
      FarIs(a, b, right, down);
      HoldsKept(a, b, v[..], offset, d, right, down, x);
      ghost var w := v[..];
      v[offset + k] := x;
      assert v[..] == w[offset + k := x];
      ArrivedIs(a, b, right, down);
      if x >= |a| && x - k >= |b| {
        FirstArrival(a, b, right, down);
        return true, right, down;
      }
      k := k + 2;
      right, down := right + 1, if down > 0 then down - 1 else 0;
    }
    HoldsAll(a, b, v[..], offset, d);
    return false, 0, 0;
  }

  lemma {:induction false} HoldsNone(a: seq<Symbol>, b: seq<Symbol>, v: seq<int>, offset: nat, d: nat)
    requires d < offset && |v| == 2 * offset + 1
    ensures HoldsSome(a, b, v, offset, d, 0)
  {
  }

  lemma {:induction false} HoldsAll(a: seq<Symbol>, b: seq<Symbol>, v: seq<int>, offset: nat, d: nat)
    requires HoldsSome(a, b, v, offset, d, d + 1) && NoneBefore(a, b, d)
    ensures Holds(a, b, v, offset, d) && NoneBefore(a, b, d + 1)
  {
    hide Far, Arrived, Start, Down;
  }

  lemma {:induction false} ArrivedIs(a: seq<Symbol>, b: seq<Symbol>, right: nat, down: nat)
    ensures Arrived(a, b, right, down) <==>
      Far(a, b, right, down) >= |a| && Far(a, b, right, down) - right + down >= |b|
  {
  }

  // --------------------------------------------------------------------------- reading back

  /** A matching of what lies after a point. */
  ghost predicate Tail<T>(a: seq<T>, b: seq<T>, x: nat, y: nat, pairs: seq<Pair>) {
    IsMatching(a, b, pairs) && forall i :: 0 <= i < |pairs| ==> pairs[i].0 >= x && pairs[i].1 >= y
  }

  lemma {:induction false} TailMore<T>(a: seq<T>, b: seq<T>, x: nat, y: nat, pairs: seq<Pair>)
    requires Tail(a, b, x + 1, y + 1, pairs) && x < |a| && y < |b| && a[x] == b[y]
    ensures Tail(a, b, x, y, [(x, y)] + pairs)
  {
  }

  lemma {:induction false} TailBack<T>(a: seq<T>, b: seq<T>, x: nat, y: nat, px: nat, py: nat, pairs: seq<Pair>)
    requires Tail(a, b, x, y, pairs) && px <= x && py <= y
    ensures Tail(a, b, px, py, pairs)
  {
  }

  /** The point before the last slide, as read from the recorded steps. */
  lemma {:induction false} StartRecorded(a: seq<Symbol>, b: seq<Symbol>, prev: seq<int>, right: nat, down: nat)
    requires right + down > 0 && Recorded(a, b, prev, right + down - 1)
    ensures |prev| == 2 * (right + down - 1) + 1
    ensures var k, d := right - down, right + down;
      var fromAbove := right == 0 || (down != 0 && prev[k - 1 + d - 1] < prev[k + 1 + d - 1]);
      && fromAbove == Down(a, b, right, down)
      && (fromAbove ==> prev[k + 1 + d - 1] == Far(a, b, right, down - 1) == Start(a, b, right, down))
      && (!fromAbove ==> prev[k - 1 + d - 1] == Far(a, b, right - 1, down) == Start(a, b, right, down) - 1)
  {
    hide Far;
    assert right > 0 ==> prev[2 * (right - 1)] == Far(a, b, right - 1, down);
    assert down > 0 ==> prev[2 * right] == Far(a, b, right, down - 1);
  }

  /** Walks one slide backwards, collecting its pairs. */
  method SlideBack(a: seq<Symbol>, b: seq<Symbol>, right: nat, down: nat, prevX: nat, prevY: nat, after: seq<Pair>)
    returns (pairs: seq<Pair>)
    requires var end, start := Far(a, b, right, down), Start(a, b, right, down);
      && prevX <= start && prevY <= start - right + down && (prevX == start || prevY == start - right + down)
      && Tail(a, b, end, end - right + down, after)
    ensures Tail(a, b, prevX, prevY, pairs)
    ensures |pairs| == |after| + Far(a, b, right, down) - Start(a, b, right, down)
  {
    hide Slide, Far, Start, Down;
    var x := Far(a, b, right, down);
    var y := x - right + down;
    ghost var start := Start(a, b, right, down);
    FarIs(a, b, right, down);
    SlideEnds(a, b, start, start - right + down);
    pairs := after;
    while x > prevX && y > prevY
      invariant start <= x <= Far(a, b, right, down) && y == x - right + down
      invariant Tail(a, b, x, y, pairs) && |pairs| == |after| + Far(a, b, right, down) - x
      decreases x
    {
      x := x - 1;
      y := y - 1;
      assert Match(a, b, x, y);
      TailMore(a, b, x, y, pairs);
      pairs := [(x, y)] + pairs;
    }
    TailBack(a, b, x, y, prevX, prevY, pairs);
  }

  /** Reads the matched pairs back from the recorded steps, last pair first. */
  method Backtrack(a: seq<Symbol>, b: seq<Symbol>, trace: seq<seq<int>>, ghost endRight: nat, ghost endDown: nat)
    returns (pairs: seq<Pair>)
    requires |trace| == endRight + endDown + 1 && endRight - endDown == |a| - |b| && Far(a, b, endRight, endDown) == |a|
    requires Traced(a, b, trace[..|trace| - 1])
    ensures IsMatching(a, b, pairs) && 2 * |pairs| == |a| + |b| - (|trace| - 1)
  {
    hide Slide, Far, Down, Traced, Tail, Recorded;
    pairs := [];
    var x, y := |a|, |b|;
    var d := |trace| - 1;
    ghost var right: nat, down: nat := endRight, endDown;
    assert Tail(a, b, x, y, pairs) by { TailNone(a, b, x, y); }
    while d > 0
      invariant 0 <= d == right + down <= |trace| - 1 && x >= 0 && y >= 0
      invariant x - y == right - down && x == Far(a, b, right, down)
      invariant Tail(a, b, x, y, pairs)
      invariant 2 * |pairs| + x + y + (|trace| - 1 - d) == |a| + |b|
    {
      var k := x - y;
      var prev := trace[d - 1];
      assert Recorded(a, b, prev, d - 1) by { TracedAt(a, b, trace, d - 1); }
      StartRecorded(a, b, prev, right, down);
      var fromAbove := k + d == 0 || (k != d && prev[k - 1 + d - 1] < prev[k + 1 + d - 1]);
      assert k + d == 0 <==> right == 0;
      assert k == d <==> down == 0;
      var prevK := if fromAbove then k + 1 else k - 1;
      var prevX := prev[prevK + d - 1];
      var prevY := prevX - prevK;
      pairs := SlideBack(a, b, (k + d) / 2, (d - k) / 2, prevX, prevY, pairs);
      x, y := prevX, prevY;
      d := d - 1;
      if fromAbove { down := down - 1; } else { right := right - 1; }
    }
    assert Start(a, b, 0, 0) == 0;
    pairs := SlideBack(a, b, 0, 0, 0, 0, pairs);
    assert IsMatching(a, b, pairs) by { TailMatches(a, b, pairs); }
  }

  lemma {:induction false} TailNone<T>(a: seq<T>, b: seq<T>, x: nat, y: nat)
    ensures Tail(a, b, x, y, [])
  {
  }

  lemma {:induction false} TailMatches<T>(a: seq<T>, b: seq<T>, pairs: seq<Pair>)
    requires Tail(a, b, 0, 0, pairs)
    ensures IsMatching(a, b, pairs)
  {
  }

  lemma {:induction false} TracedAt(a: seq<Symbol>, b: seq<Symbol>, trace: seq<seq<int>>, d: nat)
    requires d < |trace| - 1 && Traced(a, b, trace[..|trace| - 1])
    ensures Recorded(a, b, trace[d], d)
  {
    assert trace[..|trace| - 1][d] == trace[d];
  }

  /** No matching leaves few enough edits to have arrived by now. */
  lemma {:induction false} NothingWithin(a: seq<Symbol>, b: seq<Symbol>, d: int, pairs: seq<Pair>)
    requires NoneBefore(a, b, d) && IsMatching(a, b, pairs)
    ensures |a| + |b| - 2 * |pairs| >= d
  {
    hide Far, Start, Down;
    MatchingReached(a, b, pairs, |a|, |b|);
    assert Arrived(a, b, |a| - |pairs|, |b| - |pairs|);
  }

  /**
   Matched index pairs of a shortest edit script, or none past `limit` edits: the result is as long
   as any matching that leaves at most `limit` edits, and leaves no more than `limit` itself.
   */
  method ShortestScript(a: seq<Symbol>, b: seq<Symbol>, limit: nat) returns (pairs: seq<Pair>)
    ensures IsMatching(a, b, pairs)
    ensures forall other :: IsMatching(a, b, other) && |a| + |b| - 2 * |other| <= limit ==> |other| <= |pairs|
    ensures pairs != [] ==> |a| + |b| - 2 * |pairs| <= limit
  {
    hide Slide, Far, Start, Down, Arrived, Recorded, Traced, Holds, NoneBefore, IsMatching;
    var most := Min(|a| + |b|, limit);
    var offset := most + 1;
    var v := new int[2 * offset + 1](_ => 0);
    var trace: seq<seq<int>> := [];
    var d := 0;
    assert NoneBefore(a, b, 0) by { NoneYet(a, b); }
    assert Traced(a, b, trace) by { NothingTraced(a, b); }
    while d <= most
      invariant 0 <= d <= most + 1 && |trace| == d
      invariant if d == 0 then v[offset + 1] == 0 else Holds(a, b, v[..], offset, d - 1)
      invariant NoneBefore(a, b, d) && Traced(a, b, trace)
    {
      var arrived, right, down := Step(a, b, v, offset, d);
      ghost var before := trace;
      trace := trace + [v[offset - d..offset + d + 1]];
      assert trace[..d] == before;
      if arrived {
        pairs := Backtrack(a, b, trace, right, down);
        forall other | IsMatching(a, b, other) ensures |other| <= |pairs|
        {
          NothingWithin(a, b, d, other);
        }
        return;
      }
      RecordedIs(a, b, v[..], offset, d);
      assert v[..][offset - d..offset + d + 1] == v[offset - d..offset + d + 1];
      TracedMore(a, b, before, trace[d]);
      d := d + 1;
    }
    pairs := [];
    assert IsMatching(a, b, pairs) by { TailNone(a, b, 0, 0); TailMatches(a, b, []); }
    forall other | IsMatching(a, b, other) ensures |a| + |b| - 2 * |other| > most
    {
      NothingWithin(a, b, most + 1, other);
    }
  }

  lemma {:induction false} NoneYet(a: seq<Symbol>, b: seq<Symbol>)
    ensures NoneBefore(a, b, 0)
  {
  }

  lemma {:induction false} NothingTraced(a: seq<Symbol>, b: seq<Symbol>)
    ensures Traced(a, b, [])
  {
  }

  lemma {:induction false} RecordedIs(a: seq<Symbol>, b: seq<Symbol>, v: seq<int>, offset: nat, d: nat)
    requires Holds(a, b, v, offset, d)
    ensures Recorded(a, b, v[offset - d..offset + d + 1], d)
  {
    hide Far, Start, Down;
    forall right: nat, down: nat | right + down == d
      ensures v[offset - d..offset + d + 1][2 * right] == Far(a, b, right, down)
    {
      assert v[offset - d..offset + d + 1][2 * right] == v[offset + right - down];
    }
  }

  lemma {:induction false} TracedMore(a: seq<Symbol>, b: seq<Symbol>, trace: seq<seq<int>>, step: seq<int>)
    requires Traced(a, b, trace) && Recorded(a, b, step, |trace|)
    ensures Traced(a, b, trace + [step])
  {
    hide Recorded;
  }
}
