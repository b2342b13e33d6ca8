/** The chunker, and finding a chunk by name from a directory's root (src/tree.rs). */
module Seeking {
  import opened Names
  import opened Chunks
  import opened Levels

  /** Cuts one level's items into chunks. */
  class Chunker {
    const level: nat
    var items: seq<Item>
    var size: nat

    ghost predicate Valid()
      reads this
    {
      size == Size(items)
    }

    constructor (level: nat)
      ensures Valid() && this.level == level && items == []
    {
      this.level := level;
      items := [];
      size := 0;
    }

    method Push(b: Boundary, item: Item) returns (done: Option<Chunk>)
      requires Valid()
      modifies this
      ensures Valid()
      ensures done == if Ends(b, level, old(items), item) then Some(Chunk(level, old(items) + [item])) else None
      ensures var now := old(items) + [item];
              done.Some? <==> |now| >= 2 && (Size(now) >= FORCE || b(level, item.name, Size(now)))
      ensures items == if done.Some? then [] else old(items) + [item]
    {
      size := size + Len(item);
      SizePush(items, item);
      var cut := items != [] && (size >= FORCE || b(level, item.name, size));
      items := items + [item];
      assert items[..|items| - 1] == old(items);
      if cut {
        var chunk := Take();
        done := Some(chunk);
      } else {
        done := None;
      }
    }

    method Take() returns (chunk: Chunk)
      modifies this
      ensures Valid() && items == [] && chunk == Chunk(level, old(items))
    {
      chunk := Chunk(level, items);
      size := 0;
      items := [];
    }

    method Finish() returns (rest: Option<Chunk>)
      requires Valid()
      modifies this
      ensures Valid() && items == []
      ensures rest == if old(items) == [] then None else Some(Chunk(level, old(items)))
    {
      if items == [] {
        rest := None;
      } else {
        var chunk := Take();
        rest := Some(chunk);
      }
    }
  }

  /** Whether a chunk whose last name is `last` lies wholly before the sought place. */
  predicate Passed(last: Name, name: Name, after: bool) {
    if after then AtMost(last, name) else Less(last, name)
  }

  method PartitionPoint(items: seq<Item>, name: Name, after: bool) returns (index: nat)
    requires Sorted(items)
    ensures index <= |items|
    ensures forall i :: 0 <= i < index ==> Passed(items[i].name, name, after)
    ensures index < |items| ==> !Passed(items[index].name, name, after)
  {
    index := 0;
    while index < |items| && Passed(items[index].name, name, after)
      invariant index <= |items|
      invariant forall i :: 0 <= i < index ==> Passed(items[i].name, name, after)
    {
      index := index + 1;
    }
  }

  /** The chunk of a level where a name belongs: the first not passed, else the last one. */
  ghost predicate IsSought(chunks: seq<Chunk>, c: nat, name: Name, after: bool) {
    && c < |chunks|
    && (forall d :: 0 <= d < c ==> Passed(Last(chunks[d]), name, after))
    && (c < |chunks| - 1 ==> !Passed(Last(chunks[c]), name, after))
  }

  lemma {:induction false} PassedDown(a: Name, c: Name, name: Name, after: bool)
    requires AtMost(a, c) && Passed(c, name, after)
    ensures Passed(a, name, after)
  {
    ByteOrder();
  }

  /** `upper` is the level whose items summarise the chunks of `lower`. */
  ghost predicate Stacked(upper: seq<Chunk>, lower: seq<Chunk>) {
    AllFilled(upper) && Sorted(Flat(upper)) && Flat(upper) == Summaries(lower)
  }

  /** Names up to the end of a passed chunk are passed. */
  lemma {:induction false} PassedBefore(chunks: seq<Chunk>, c: nat, e: nat, name: Name, after: bool)
    requires AllFilled(chunks) && Sorted(Flat(chunks))
    requires c < |chunks| && Passed(Last(chunks[c]), name, after)
    requires e < Offset(chunks, c + 1)
    ensures e < |Flat(chunks)| && Passed(Flat(chunks)[e].name, name, after)
  {
    LastName(chunks, c);
    var end := Offset(chunks, c + 1);
    assert e == end - 1 || Less(Flat(chunks)[e].name, Flat(chunks)[end - 1].name);
    PassedDown(Flat(chunks)[e].name, Last(chunks[c]), name, after);
  }

  lemma {:induction false} ItemAt(chunks: seq<Chunk>, c: nat, i: nat)
    requires c < |chunks| && i < |chunks[c].items|
    ensures Offset(chunks, c) + i < |Flat(chunks)|
    ensures Flat(chunks)[Offset(chunks, c) + i] == chunks[c].items[i]
  {
    FlatNext(chunks, c);
    assert Flat(chunks)[Offset(chunks, c)..Offset(chunks, c + 1)][i] == Flat(chunks)[Offset(chunks, c) + i];
  }

  /** One step of the descent: the child of the sought chunk is the sought chunk one level down. */
  lemma {:induction false} SoughtBelow(upper: seq<Chunk>, lower: seq<Chunk>, c: nat, i: nat, name: Name, after: bool)
    returns (d: nat)
    requires Stacked(upper, lower) && IsSought(upper, c, name, after)
    requires i < |upper[c].items|
    requires forall k :: 0 <= k < i ==> Passed(upper[c].items[k].name, name, after)
    requires !Passed(upper[c].items[i].name, name, after) || (c == |upper| - 1 && i == |upper[c].items| - 1)
    ensures IsSought(lower, d, name, after)
    ensures upper[c].items[i] == Summary(lower[d])
    ensures d == |lower| - 1 <==> (c == |upper| - 1 && i == |upper[c].items| - 1)
  {
    hide Flat, Rank, Sorted, Last, Passed;
    var start := Offset(upper, c);
    d := start + i;
    ItemAt(upper, c, i);
    forall e | 0 <= e < d ensures Passed(Last(lower[e]), name, after)
    {
      PassedBelowOne(upper, lower, c, i, e, name, after);
    }
    FlatNext(upper, c);
    LastOffset(upper, c);
  }

  /** A chunk one level down that lies before the sought item is passed. */
  lemma {:induction false} PassedBelowOne(upper: seq<Chunk>, lower: seq<Chunk>, c: nat, i: nat, e: nat, name: Name,
      after: bool)
    requires Stacked(upper, lower) && IsSought(upper, c, name, after)
    requires i < |upper[c].items| && e < Offset(upper, c) + i < |lower|
    requires forall k :: 0 <= k < i ==> Passed(upper[c].items[k].name, name, after)
    ensures Passed(Last(lower[e]), name, after)
  {
    hide Flat, Rank, Sorted, Passed;
    assert Flat(upper)[e].name == Last(lower[e]);
    if e < Offset(upper, c) {
      assert upper[..0] == [];
      FlatNone();
      PassedBefore(upper, c - 1, e, name, after);
    } else {
      ItemAt(upper, c, e - Offset(upper, c));
    }
  }

  lemma {:induction false} LastOffset(chunks: seq<Chunk>, c: nat)
    requires AllFilled(chunks) && c < |chunks|
    ensures Offset(chunks, c + 1) == |Flat(chunks)| <==> c == |chunks| - 1
  {
    OffsetGrows(chunks, c + 1, |chunks|);
    assert chunks[..|chunks|] == chunks;
  }

  /** The chunks of every level from the leaves to `root`. */
  ghost predicate IsTower(tower: seq<seq<Chunk>>, root: Chunk) {
    && |tower| == root.level + 1
    && tower[root.level] == [root]
    && (forall l, c :: 0 <= l < |tower| && 0 <= c < |tower[l]| ==> tower[l][c].level == l)
    && (forall l, k :: 0 <= k < l < |tower| && k == l - 1 ==> Stacked(tower[l], tower[k]))
    && AllFilled(tower[0]) && Sorted(Flat(tower[0]))
  }

  ghost function Tower(b: Boundary, items: seq<Item>, height: nat): (tower: seq<seq<Chunk>>)
    ensures |tower| == height + 1
    ensures forall l :: 0 <= l <= height ==> tower[l] == LevelChunks(b, items, l)
  {
    seq(height + 1, l requires 0 <= l => LevelChunks(b, items, l))
  }

  lemma {:induction false} TowerStands(b: Boundary, items: seq<Item>, root: Chunk)
    requires Sorted(items) && IsRoot(b, items, root)
    ensures IsTower(Tower(b, items, root.level), root)
  {
    hide Cut, Build, Flat, Rank, LevelItems, LevelChunks, Sorted;
    var tower := Tower(b, items, root.level);
    assert tower[root.level] == [root] by {
      RootPlace(b, items, root);
    }
    forall l, k | 0 <= k < l < |tower| && k == l - 1 ensures Stacked(tower[l], tower[k])
    {
      LevelsStack(b, items, l);
    }
    forall l, c | 0 <= l < |tower| && 0 <= c < |tower[l]| ensures tower[l][c].level == l
    {
      LevelFlat(b, items, l);
    }
    assert AllFilled(tower[0]) && Sorted(Flat(tower[0])) by {
      LevelFlat(b, items, 0);
      LevelZero(b, items);
    }
  }

  /**
   The chunk at `level` holding `name`: the first whose last name is at least `name` (greater when
   `after`); otherwise, unless `after`, the rightmost. Also whether it is the rightmost.
   */
  method Seek(ghost tower: seq<seq<Chunk>>, root: Chunk, level: nat, name: Name, after: bool)
    returns (found: Option<(Chunk, bool)>, ghost c: nat)
    requires IsTower(tower, root) && level <= root.level
    ensures found.Some? ==>
              && IsSought(tower[level], c, name, after)
              && found.value == (tower[level][c], c == |tower[level]| - 1)
              && (after ==> !Passed(Last(tower[level][c]), name, after))
    ensures found.None? ==> after && AllPassed(tower[level], name)
  {
    var chunk, rightmost := root, true;
    c := 0;
    while chunk.level > level
      invariant level <= chunk.level <= root.level
      invariant IsSought(tower[chunk.level], c, name, after)
      invariant tower[chunk.level][c] == chunk
      invariant rightmost <==> c == |tower[chunk.level]| - 1
      decreases chunk.level
    {
      ghost var upper, lower := tower[chunk.level], tower[chunk.level - 1];
      assert Stacked(upper, lower);
      ChunkSorted(upper, c);
      var index := PartitionPoint(chunk.items, name, after);
      if index == |chunk.items| {
        assert Passed(Last(chunk), name, after);
        if after {
          PassedAllTheWay(tower, root, chunk.level, level, name);
          return None, c;
        }
        index := index - 1;
      }
      c := SoughtBelow(upper, lower, c, index, name, after);
      rightmost := rightmost && index + 1 == |chunk.items|;
      chunk := chunk.items[index].node.chunk;
    }
    if after && AtMost(Last(chunk), name) {
      return None, c;
    }
    return Some((chunk, rightmost)), c;
  }

  lemma {:induction false} ChunkSorted(chunks: seq<Chunk>, c: nat)
    requires Sorted(Flat(chunks)) && c < |chunks|
    ensures Sorted(chunks[c].items)
  {
    forall i, j | 0 <= i < j < |chunks[c].items|
      ensures Less(chunks[c].items[i].name, chunks[c].items[j].name)
    {
      ItemAt(chunks, c, i);
      ItemAt(chunks, c, j);
    }
  }

  ghost predicate AllPassed(chunks: seq<Chunk>, name: Name) {
    forall d :: 0 <= d < |chunks| ==> Passed(Last(chunks[d]), name, true)
  }

  /** When every chunk of a level is passed, so is every chunk one level down. */
  lemma {:induction false} PassedBelow(upper: seq<Chunk>, lower: seq<Chunk>, name: Name)
    requires Stacked(upper, lower) && AllPassed(upper, name)
    ensures AllPassed(lower, name)
  {
    forall d | 0 <= d < |lower| ensures Passed(Last(lower[d]), name, true)
    {
      assert Flat(upper)[d].name == Last(lower[d]);
      assert upper != [];
      LastOffset(upper, |upper| - 1);
      PassedBefore(upper, |upper| - 1, d, name, true);
    }
  }

  lemma {:induction false} LevelsStack(b: Boundary, items: seq<Item>, l: nat)
    requires Sorted(items) && l > 0
    ensures Stacked(LevelChunks(b, items, l), LevelChunks(b, items, l - 1))
  {
    LevelStep(b, items, l - 1);
    LevelFlat(b, items, l);
    LevelSorted(b, items, l);
  }

  lemma {:induction false} PassedAllTheWay(tower: seq<seq<Chunk>>, root: Chunk, l: nat, level: nat, name: Name)
    requires IsTower(tower, root) && level <= l <= root.level && AllPassed(tower[l], name)
    ensures AllPassed(tower[level], name)
    decreases l
  {
    if level < l {
      PassedBelow(tower[l], tower[l - 1], name);
      PassedAllTheWay(tower, root, l - 1, level, name);
    }
  }
}
