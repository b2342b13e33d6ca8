/**
 The levels of one directory and what editing a level means (src/tree.rs).

 A directory's leaf items are cut into chunks; the summaries of those chunks are the items of the
 next level, and so on until one chunk remains. `Build` is that construction from scratch.
 */
module Levels {
  import opened Names
  import opened Chunks

  datatype Error = TooHigh | Ambiguous | Collision

  datatype Result<+T> = Ok(value: T) | Err(error: Error)

  /** One edit of a level: the new item under a name, or None to remove the name. */
  datatype Edit = Edit(name: Name, item: Option<Item>)

  ghost predicate EditsSorted(edits: seq<Edit>) {
    && (forall i, j :: 0 <= i < j < |edits| ==> Less(edits[i].name, edits[j].name))
    && (forall i :: 0 <= i < |edits| && edits[i].item.Some? ==> edits[i].item.value.name == edits[i].name)
  }

  function Placed(edit: Edit): seq<Item> {
    if edit.item.Some? then [edit.item.value] else []
  }

  /** A level with sorted edits merged in. */
  function Edited(items: seq<Item>, edits: seq<Edit>): seq<Item>
    decreases |items| + |edits|
  {
    if edits == [] then items
    else if items == [] then Placed(edits[0]) + Edited([], edits[1..])
    else if edits[0].name == items[0].name then Placed(edits[0]) + Edited(items[1..], edits[1..])
    else if Less(edits[0].name, items[0].name) then Placed(edits[0]) + Edited(items, edits[1..])
    else [items[0]] + Edited(items[1..], edits)
  }

  /** What an edited level holds: edited names as edited, every other item as it was. */
  ghost predicate Holds(items: seq<Item>, edits: seq<Edit>, x: Item) {
    || (x in items && forall i :: 0 <= i < |edits| ==> edits[i].name != x.name)
    || (exists i :: 0 <= i < |edits| && edits[i].item == Some(x))
  }

  ghost predicate Above(name: Name, items: seq<Item>) {
    forall i :: 0 <= i < |items| ==> Less(name, items[i].name)
  }

  lemma {:induction false} EditedAbove(items: seq<Item>, edits: seq<Edit>, name: Name)
    requires EditsSorted(edits) && Sorted(items)
    requires Above(name, items)
    requires forall i :: 0 <= i < |edits| ==> Less(name, edits[i].name)
    ensures Above(name, Edited(items, edits))
    decreases |items| + |edits|
  {
    if edits != [] {
      if items == [] {
        EditedAbove([], edits[1..], name);
      } else if edits[0].name == items[0].name {
        EditedAbove(items[1..], edits[1..], name);
      } else if Less(edits[0].name, items[0].name) {
        EditedAbove(items, edits[1..], name);
      } else {
        EditedAbove(items[1..], edits, name);
      }
    }
  }

  lemma {:induction false} EditedSorted(items: seq<Item>, edits: seq<Edit>)
    requires EditsSorted(edits) && Sorted(items)
    ensures Sorted(Edited(items, edits))
    decreases |items| + |edits|
  {
    ByteOrder();
    if edits != [] {
      if items == [] {
        EditedSorted([], edits[1..]);
        EditedAbove([], edits[1..], edits[0].name);
      } else if edits[0].name == items[0].name {
        EditedSorted(items[1..], edits[1..]);
        EditedAbove(items[1..], edits[1..], edits[0].name);
      } else if Less(edits[0].name, items[0].name) {
        EditedSorted(items, edits[1..]);
        EditedAbove(items, edits[1..], edits[0].name);
      } else {
        EditedSorted(items[1..], edits);
        EditedAbove(items[1..], edits, items[0].name);
      }
    }
  }

  lemma {:induction false} EditedHolds(items: seq<Item>, edits: seq<Edit>, x: Item)
    requires EditsSorted(edits) && Sorted(items)
    ensures x in Edited(items, edits) <==> Holds(items, edits, x)
    decreases |items| + |edits|
  {
    hide Holds, Sorted, Less;
    ByteOrder();
    if edits == [] {
      HoldsUnedited(items, x);
    } else {
      var e, es := edits[0], edits[1..];
      SortedTail(edits);
      if items == [] {
        HoldsFirstEdit(items, edits, x);
        EditedHolds([], es, x);
      } else {
        var h, hs := items[0], items[1..];
        TailSorted(items);
        if e.name == h.name {
          HoldsReplaced(items, edits, x);
          EditedHolds(hs, es, x);
        } else if Less(e.name, h.name) {
          HoldsFirstEdit(items, edits, x);
          EditedHolds(items, es, x);
        } else {
          HoldsFirstItem(items, edits, x);
          EditedHolds(hs, edits, x);
        }
      }
    }
  }

  lemma {:induction false} SortedTail(edits: seq<Edit>)
    requires EditsSorted(edits) && edits != []
    ensures EditsSorted(edits[1..])
  {
  }

  lemma {:induction false} TailSorted(items: seq<Item>)
    requires Sorted(items) && items != []
    ensures Sorted(items[1..])
  {
  }

  lemma {:induction false} HoldsUnedited(items: seq<Item>, x: Item)
    ensures Holds(items, [], x) <==> x in items
  {
  }

  /** An edit before every item, or of a name no item has, only adds its own. */
  lemma {:induction false} HoldsFirstEdit(items: seq<Item>, edits: seq<Edit>, x: Item)
    requires EditsSorted(edits) && Sorted(items) && edits != []
    requires items != [] ==> Less(edits[0].name, items[0].name)
    ensures Holds(items, edits, x) <==> edits[0].item == Some(x) || Holds(items, edits[1..], x)
  {
    var e, es := edits[0], edits[1..];
    assert edits == [e] + es;
    if x in items {
      var k :| 0 <= k < |items| && items[k] == x;
      assert e.name != x.name by { assert k > 0 ==> Less(items[0].name, items[k].name); }
    }
  }

  lemma {:induction false} HoldsReplaced(items: seq<Item>, edits: seq<Edit>, x: Item)
    requires EditsSorted(edits) && Sorted(items) && edits != [] && items != [] && edits[0].name == items[0].name
    ensures Holds(items, edits, x) <==> edits[0].item == Some(x) || Holds(items[1..], edits[1..], x)
  {
    var e, es, h, hs := edits[0], edits[1..], items[0], items[1..];
    assert edits == [e] + es && items == [h] + hs;
    if x in hs {
      var k :| 0 <= k < |hs| && hs[k] == x;
      assert Less(items[0].name, items[k + 1].name);
    }
  }

  lemma {:induction false} HoldsFirstItem(items: seq<Item>, edits: seq<Edit>, x: Item)
    requires EditsSorted(edits) && Sorted(items) && edits != [] && items != [] && Less(items[0].name, edits[0].name)
    ensures Holds(items, edits, x) <==> x == items[0] || Holds(items[1..], edits, x)
  {
    var h, hs := items[0], items[1..];
    assert items == [h] + hs;
    forall i | 0 <= i < |edits| ensures edits[i].name != h.name
    {
      assert i > 0 ==> Less(edits[0].name, edits[i].name);
    }
  }

  // ------------------------------------------------------------------- building from scratch

  /** Items of level `l` of the directory that holds `items`. */
  function LevelItems(b: Boundary, items: seq<Item>, l: nat): seq<Item>
    decreases l, 0
  {
    if l == 0 then items else Summaries(LevelChunks(b, items, l - 1))
  }

  function LevelChunks(b: Boundary, items: seq<Item>, l: nat): seq<Chunk>
    decreases l, 1
  {
    Cut(b, l, LevelItems(b, items, l))
  }

  /** Below a top level that shrank: the first chunk with more than one item, or the leaf. */
  function Shrink(chunk: Chunk): Chunk {
    if chunk.level > 0 && |chunk.items| == 1 && chunk.items[0].node.Child?
    then Shrink(chunk.items[0].node.chunk)
    else chunk
  }

  /** Cuts a complete level and builds upward until one chunk remains. */
  function Build(b: Boundary, level: nat, items: seq<Item>): Result<Option<Chunk>>
    decreases MAX_LEVEL + 1 - level
  {
    if level > MAX_LEVEL then Err(TooHigh)
    else
      var chunks := Cut(b, level, items);
      if |chunks| > 1 then Build(b, level + 1, Summaries(chunks))
      else if chunks == [] then Ok(None)
      else Ok(Some(Shrink(chunks[0])))
  }

  /** `root` is the canonical root of a nonempty directory holding `items`. */
  ghost predicate IsRoot(b: Boundary, items: seq<Item>, root: Chunk) {
    Build(b, 0, items) == Ok(Some(root))
  }

  /** A level shaped as `l` climbs: more than one chunk at every level below. */
  ghost predicate Climbs(b: Boundary, items: seq<Item>, l: nat) {
    forall k :: 0 <= k < l ==> |LevelChunks(b, items, k)| > 1
  }

  lemma {:induction false} LevelFlat(b: Boundary, items: seq<Item>, l: nat)
    ensures var chunks := LevelChunks(b, items, l);
            && Flat(chunks) == LevelItems(b, items, l)
            && AllFilled(chunks)
            && (forall c :: 0 <= c < |chunks| ==> chunks[c].level == l)
  {
    CutFlat(b, l, LevelItems(b, items, l));
  }

  lemma {:induction false} LevelSorted(b: Boundary, items: seq<Item>, l: nat)
    requires Sorted(items)
    ensures Sorted(LevelItems(b, items, l))
    ensures forall c, d :: 0 <= c < d < |LevelChunks(b, items, l)| ==>
              Less(Last(LevelChunks(b, items, l)[c]), Last(LevelChunks(b, items, l)[d]))
  {
    hide Cut, Flat, Last, Less;
    if l > 0 {
      LevelSorted(b, items, l - 1);
      LevelFlat(b, items, l - 1);
      SummariesSorted(LevelChunks(b, items, l - 1));
    }
    LevelFlat(b, items, l);
    SummariesSorted(LevelChunks(b, items, l));
    var s := Summaries(LevelChunks(b, items, l));
    forall c, d | 0 <= c < d < |LevelChunks(b, items, l)|
      ensures Less(Last(LevelChunks(b, items, l)[c]), Last(LevelChunks(b, items, l)[d]))
    {
      assert Less(s[c].name, s[d].name);
    }
  }

  lemma {:induction false} BuildStep(b: Boundary, level: nat, items: seq<Item>)
    requires level <= MAX_LEVEL
    ensures var chunks := Cut(b, level, items);
            Build(b, level, items) ==
              if |chunks| > 1 then Build(b, level + 1, Summaries(chunks))
              else if chunks == [] then Ok(None) else Ok(Some(Shrink(chunks[0])))
  {
  }

  lemma {:induction false} LevelStep(b: Boundary, items: seq<Item>, l: nat)
    ensures LevelItems(b, items, l + 1) == Summaries(LevelChunks(b, items, l))
    ensures LevelChunks(b, items, l) == Cut(b, l, LevelItems(b, items, l))
  {
  }

  lemma {:induction false} LevelZero(b: Boundary, items: seq<Item>)
    ensures LevelItems(b, items, 0) == items
  {
  }

  /** Building from level `l` onward, while the levels below have more than one chunk. */
  lemma {:induction false} BuildClimbs(b: Boundary, items: seq<Item>, l: nat)
    requires l <= MAX_LEVEL + 1 && Climbs(b, items, l)
    ensures Build(b, 0, items) == Build(b, l, LevelItems(b, items, l))
  {
    hide Cut, Build, LevelItems, LevelChunks;
    LevelZero(b, items);
    if l > 0 {
      BuildClimbs(b, items, l - 1);
      LevelStep(b, items, l - 1);
      assert |LevelChunks(b, items, l - 1)| > 1;
      BuildStep(b, l - 1, LevelItems(b, items, l - 1));
    }
  }

  /** A level above one with several chunks has several items, so its single chunk does not shrink. */
  lemma {:induction false} TopKeeps(b: Boundary, items: seq<Item>, l: nat)
    requires l > 0 ==> |LevelChunks(b, items, l - 1)| > 1
    requires |LevelChunks(b, items, l)| == 1
    ensures Shrink(LevelChunks(b, items, l)[0]) == LevelChunks(b, items, l)[0]
  {
    hide Cut, Flat, LevelItems, LevelChunks, Summaries;
    var chunks := LevelChunks(b, items, l);
    LevelFlat(b, items, l);
    assert Flat(chunks) == chunks[0].items by {
      FlatOne(chunks[0]);
      assert chunks == [chunks[0]];
    }
    if l > 0 {
      LevelStep(b, items, l - 1);
      assert |chunks[0].items| == |LevelChunks(b, items, l - 1)|;
    }
  }

  /** The first level with at most one chunk gives the root. */
  lemma {:induction false} BuildStops(b: Boundary, items: seq<Item>, l: nat)
    requires l <= MAX_LEVEL && Climbs(b, items, l) && |LevelChunks(b, items, l)| <= 1
    ensures Build(b, 0, items) == Ok(if LevelChunks(b, items, l) == [] then None else Some(LevelChunks(b, items, l)[0]))
  {
    BuildClimbs(b, items, l);
    BuildStep(b, l, LevelItems(b, items, l));
    LevelStep(b, items, l);
    if LevelChunks(b, items, l) != [] {
      TopKeeps(b, items, l);
    }
  }

  /** Where the root of a directory sits: the first level with at most one chunk. */
  lemma {:induction false} BuildTop(b: Boundary, items: seq<Item>, l: nat) returns (top: nat)
    requires l <= MAX_LEVEL + 1 && Climbs(b, items, l)
    requires Build(b, 0, items).Ok?
    ensures l <= top <= MAX_LEVEL && Climbs(b, items, top)
    ensures |LevelChunks(b, items, top)| <= 1
    decreases MAX_LEVEL + 1 - l
  {
    hide Cut, LevelItems, LevelChunks;
    if l > MAX_LEVEL {
      BuildClimbs(b, items, l);
      assert false;
    } else if |LevelChunks(b, items, l)| > 1 {
      top := BuildTop(b, items, l + 1);
    } else {
      top := l;
    }
  }

  /** The root's place, for a root that is known to be canonical. */
  lemma {:induction false} RootPlace(b: Boundary, items: seq<Item>, root: Chunk)
    requires IsRoot(b, items, root)
    ensures root.level <= MAX_LEVEL && Climbs(b, items, root.level)
    ensures LevelChunks(b, items, root.level) == [root]
    ensures root.items == LevelItems(b, items, root.level) && root.items != []
  {
    hide Cut, Flat, LevelItems, LevelChunks, Build;
    var top := BuildTop(b, items, 0);
    BuildStops(b, items, top);
    LevelFlat(b, items, top);
    var chunks := LevelChunks(b, items, top);
    assert chunks == [root];
    FlatOne(root);
  }

  /**
   The levels of a directory, each but the first cut from the summaries of the one below, up to the
   first with at most one chunk or to the highest level allowed.
   */
  ghost predicate IsPyramid(b: Boundary, items: seq<Item>, tower: seq<seq<Chunk>>) {
    && 0 < |tower| <= MAX_LEVEL + 1
    && IsCut(b, 0, items, tower[0])
    && (forall l, k :: 0 <= k < l < |tower| && k == l - 1 ==>
          |tower[k]| > 1 && IsCut(b, l, Summaries(tower[k]), tower[l]))
    && (|tower| <= MAX_LEVEL ==> |tower[|tower| - 1]| <= 1)
  }

  /** What the highest level gives: nothing, its only chunk, or an error if it has several. */
  function TopOf(tower: seq<seq<Chunk>>): Result<Option<Chunk>>
    requires tower != []
  {
    var top := tower[|tower| - 1];
    if |top| > 1 then Err(TooHigh) else if top == [] then Ok(None) else Ok(Some(top[0]))
  }

  lemma {:induction false} PyramidLevels(b: Boundary, items: seq<Item>, tower: seq<seq<Chunk>>, l: nat)
    requires IsPyramid(b, items, tower) && l < |tower|
    ensures tower[l] == LevelChunks(b, items, l) && Climbs(b, items, l)
  {
    hide IsCut, Cut, Summaries;
    if l == 0 {
      CutExactly(b, 0, items, tower[0]);
    } else {
      PyramidLevels(b, items, tower, l - 1);
      CutExactly(b, l, Summaries(tower[l - 1]), tower[l]);
    }
  }

  lemma {:induction false} PyramidTop(b: Boundary, items: seq<Item>, tower: seq<seq<Chunk>>)
    requires IsPyramid(b, items, tower)
    ensures Build(b, 0, items) == TopOf(tower)
  {
    hide IsCut, Cut, Summaries, Build, LevelChunks, LevelItems;
    var l := |tower| - 1;
    PyramidLevels(b, items, tower, l);
    if |tower[l]| <= 1 {
      BuildStops(b, items, l);
    } else {
      BuildClimbs(b, items, l);
      LevelStep(b, items, l);
      BuildStep(b, l, LevelItems(b, items, l));
      BuildTooHigh(b, Summaries(LevelChunks(b, items, l)));
    }
  }

  lemma {:induction false} BuildTooHigh(b: Boundary, items: seq<Item>)
    ensures Build(b, MAX_LEVEL + 1, items) == Err(TooHigh)
  {
  }

  /** Raises the pyramid that stands on `items`, from the levels below `tower`'s last. */
  lemma {:induction false} Pyramid(b: Boundary, items: seq<Item>, l: nat) returns (tower: seq<seq<Chunk>>)
    requires l <= MAX_LEVEL && Climbs(b, items, l)
    ensures IsPyramid(b, items, tower)
    decreases MAX_LEVEL - l
  {
    hide IsCut, Cut, Summaries, LevelChunks, LevelItems;
    if l < MAX_LEVEL && |LevelChunks(b, items, l)| > 1 {
      tower := Pyramid(b, items, l + 1);
    } else {
      tower := seq(l + 1, k requires 0 <= k => LevelChunks(b, items, k));
      LevelZero(b, items);
      LevelStep(b, items, 0);
      CutCuts(b, 0, items);
      forall m, k | 0 <= k < m < |tower| && k == m - 1
        ensures |tower[k]| > 1 && IsCut(b, m, Summaries(tower[k]), tower[m])
      {
        LevelStep(b, items, k);
        LevelStep(b, items, m);
        CutCuts(b, m, LevelItems(b, items, m));
      }
    }
  }

  ghost predicate TopsPyramid(b: Boundary, items: seq<Item>, root: Result<Option<Chunk>>) {
    exists tower :: IsPyramid(b, items, tower) && root == TopOf(tower)
  }

  /** A directory's root is the top of the levels cut at the boundaries, one upon the other. */
  lemma {:induction false} BuildExactly(b: Boundary, items: seq<Item>, root: Result<Option<Chunk>>)
    ensures Build(b, 0, items) == root <==> TopsPyramid(b, items, root)
  {
    hide IsCut, TopOf, Build;
    var tower := Pyramid(b, items, 0);
    PyramidTop(b, items, tower);
    if other :| IsPyramid(b, items, other) && root == TopOf(other) {
      PyramidTop(b, items, other);
    }
  }

  lemma {:induction false} CutSingle(b: Boundary, level: nat, item: Item)
    ensures Cut(b, level, [item]) == [Chunk(level, [item])]
  {
    var s := [item];
    assert s[..|s| - 1] == [];
    assert PushAll(b, level, START, []) == START;
    assert PushAll(b, level, START, s) == Push(b, level, START, item) == Cutting([], [item]);
  }

  /** A level above a single chunk, or above none, builds to the same root. */
  lemma {:induction false} BuildAbove(b: Boundary, level: nat, items: seq<Item>)
    requires level < MAX_LEVEL
    ensures Build(b, level + 1, Summaries(Cut(b, level, items))) == Build(b, level, items)
  {
    hide Cut, Build;
    var chunks := Cut(b, level, items);
    BuildStep(b, level, items);
    BuildStep(b, level + 1, Summaries(chunks));
    if |chunks| == 1 {
      CutSingle(b, level + 1, Summary(chunks[0]));
      assert Summaries(chunks) == [Summary(chunks[0])];
    } else if chunks == [] {
      assert Summaries(chunks) == [];
      CutShrinks(b, level + 1, []);
    }
  }

  /**
   Building may start at any level whose items are the directory's: when a lower level already
   had a single chunk, the top shrinks back to it.
   */
  lemma {:induction false} BuildFromAny(b: Boundary, items: seq<Item>, l: nat)
    requires l <= MAX_LEVEL
    ensures Build(b, l, LevelItems(b, items, l)) == Build(b, 0, items)
  {
    hide Cut, Build, LevelItems, LevelChunks, Summaries;
    assert LevelItems(b, items, 0) == items by { LevelZero(b, items); }
    if l > 0 {
      BuildFromAny(b, items, l - 1);
      LevelStep(b, items, l - 1);
      BuildAbove(b, l - 1, LevelItems(b, items, l - 1));
    }
  }

  /** `n` items need at most `log n` levels: a directory of up to 2^33 names always builds. */
  lemma {:induction false} BuildFits(b: Boundary, level: nat, items: seq<Item>)
    requires level <= MAX_LEVEL
    requires |items| <= Power2(MAX_LEVEL + 1 - level)
    ensures Build(b, level, items).Ok?
    decreases MAX_LEVEL + 1 - level
  {
    hide Cut, Build;
    var chunks := Cut(b, level, items);
    CutShrinks(b, level, items);
    BuildStep(b, level, items);
    if |chunks| > 1 && level < MAX_LEVEL {
      BuildFits(b, level + 1, Summaries(chunks));
    } else {
      assert level == MAX_LEVEL ==> Power2(MAX_LEVEL + 1 - level) == Power2(1) == 2;
    }
  }

  function Power2(n: nat): nat {
    if n == 0 then 1 else 2 * Power2(n - 1)
  }

  lemma {:induction false} LargestDirectory(b: Boundary, items: seq<Item>)
    requires |items| <= 0x2_0000_0000
    ensures Build(b, 0, items).Ok?
  {
    assert Power2(8) == 0x100;
    assert Power2(16) == 0x1_0000;
    assert Power2(24) == 0x100_0000;
    assert Power2(32) == 0x1_0000_0000;
    BuildFits(b, 0, items);
  }
}
