/**
 Directory chunks and how one level of a directory is cut into them (src/tree.rs).

 An object ID is the hash of the chunk it names. Hashes are taken to be injective, so an ID is
 modelled as the chunk itself: two IDs are equal exactly when the chunks are. The boundary hash
 is a parameter of every definition, so each result holds for any boundary rule that depends
 only on a chunk's level, the item's name and the chunk's running size.
 */
module Chunks {
  import opened Names

  const ITEM: nat := 35
  const FORCE: nat := 65536
  const MAX_PATH: nat := 4096
  const MAX_LEVEL: nat := 32
  const MAX_CHUNK: nat := 1 + FORCE + ITEM + MAX_PATH

  type ObjectId = nat

  datatype FileEntry = Regular(content: ObjectId, executable: bool) | Symlink(target: ObjectId)

  /** What an item names: a file, a subdirectory's root chunk, or (above the leaves) a child chunk. */
  datatype Node = File(entry: FileEntry) | Dir(root: Chunk) | Child(chunk: Chunk)

  datatype Item = Item(name: Name, node: Node)

  datatype Chunk = Chunk(level: nat, items: seq<Item>)

  /** Whether a content-defined boundary follows an item: level, name and running size. */
  type Boundary = (nat, Name, nat) -> bool

  function Len(item: Item): nat {
    ITEM + |item.name|
  }

  function Size(items: seq<Item>): nat {
    if items == [] then 0 else Size(items[..|items| - 1]) + Len(items[|items| - 1])
  }

  /** The last name in a chunk. */
  function Last(chunk: Chunk): Name {
    if chunk.items == [] then [] else chunk.items[|chunk.items| - 1].name
  }

  ghost predicate Sorted(items: seq<Item>) {
    forall i, j :: 0 <= i < j < |items| ==> Less(items[i].name, items[j].name)
  }

  ghost predicate AllFilled(chunks: seq<Chunk>) {
    forall c :: 0 <= c < |chunks| ==> chunks[c].items != []
  }

  /** The items of consecutive chunks. */
  function Flat(chunks: seq<Chunk>): seq<Item> {
    if chunks == [] then [] else Flat(chunks[..|chunks| - 1]) + chunks[|chunks| - 1].items
  }

  function Summary(chunk: Chunk): Item {
    Item(Last(chunk), Child(chunk))
  }

  function Summaries(chunks: seq<Chunk>): (s: seq<Item>)
    ensures |s| == |chunks|
    ensures forall c :: 0 <= c < |s| ==> s[c] == Summary(chunks[c])
  {
    seq(|chunks|, c requires 0 <= c < |chunks| => Summary(chunks[c]))
  }

  /** A chunk ends after `item`: never after its first item, always once it is `FORCE` bytes. */
  predicate Ends(b: Boundary, level: nat, open: seq<Item>, item: Item) {
    var size := Size(open) + Len(item);
    open != [] && (size >= FORCE || b(level, item.name, size))
  }

  /** The chunks finished so far, and the items of the chunk still open. */
  datatype Cutting = Cutting(done: seq<Chunk>, open: seq<Item>)

  const START: Cutting := Cutting([], [])

  function Push(b: Boundary, level: nat, s: Cutting, item: Item): Cutting {
    if Ends(b, level, s.open, item)
    then Cutting(s.done + [Chunk(level, s.open + [item])], [])
    else Cutting(s.done, s.open + [item])
  }

  function PushAll(b: Boundary, level: nat, s: Cutting, items: seq<Item>): Cutting {
    if items == [] then s
    else Push(b, level, PushAll(b, level, s, items[..|items| - 1]), items[|items| - 1])
  }

  function Finish(level: nat, s: Cutting): seq<Chunk> {
    if s.open == [] then s.done else s.done + [Chunk(level, s.open)]
  }

  /** The canonical chunks of one level. */
  function Cut(b: Boundary, level: nat, items: seq<Item>): seq<Chunk> {
    Finish(level, PushAll(b, level, START, items))
  }

  lemma {:induction false} FlatConcat(a: seq<Chunk>, c: seq<Chunk>)
    ensures Flat(a + c) == Flat(a) + Flat(c)
  {
    if c == [] {
      assert a + c == a;
    } else {
      var n := |c| - 1;
      assert (a + c)[..|a + c| - 1] == a + c[..n];
      FlatConcat(a, c[..n]);
    }
  }

  lemma {:induction false} PushAllConcat(b: Boundary, level: nat, s: Cutting, x: seq<Item>, y: seq<Item>)
    ensures PushAll(b, level, s, x + y) == PushAll(b, level, PushAll(b, level, s, x), y)
  {
    if y == [] {
      assert x + y == x;
    } else {
      var n := |y| - 1;
      assert (x + y)[..|x + y| - 1] == x + y[..n];
      PushAllConcat(b, level, s, x, y[..n]);
    }
  }

  lemma {:induction false} PushOne(b: Boundary, level: nat, s: Cutting, x: seq<Item>, item: Item)
    ensures PushAll(b, level, s, x + [item]) == Push(b, level, PushAll(b, level, s, x), item)
  {
    assert (x + [item])[..|x + [item]| - 1] == x;
  }

  /** Chunks already finished do not influence later cuts. */
  lemma {:induction false} PushAllShift(b: Boundary, level: nat, done: seq<Chunk>, open: seq<Item>, items: seq<Item>)
    ensures PushAll(b, level, Cutting(done, open), items)
         == var s := PushAll(b, level, Cutting([], open), items); Cutting(done + s.done, s.open)
  {
    if items != [] {
      PushAllShift(b, level, done, open, items[..|items| - 1]);
    }
  }

  lemma {:induction false} FlatPush(chunks: seq<Chunk>, chunk: Chunk)
    ensures Flat(chunks + [chunk]) == Flat(chunks) + chunk.items
  {
    assert (chunks + [chunk])[..|chunks + [chunk]| - 1] == chunks;
  }

  lemma {:induction false} FlatNone()
    ensures Flat([]) == []
  {
  }

  lemma {:induction false} PushNone(b: Boundary, level: nat)
    ensures PushAll(b, level, START, []) == START
  {
  }

  lemma {:induction false} FlatOne(chunk: Chunk)
    ensures Flat([chunk]) == chunk.items
  {
    FlatPush([], chunk);
    assert [] + [chunk] == [chunk];
  }

  lemma {:induction false} PushKeeps(b: Boundary, level: nat, s: Cutting, item: Item)
    ensures var t := Push(b, level, s, item); Flat(t.done) + t.open == Flat(s.done) + s.open + [item]
  {
    if Ends(b, level, s.open, item) {
      FlatPush(s.done, Chunk(level, s.open + [item]));
    }
  }

  /** Cutting keeps every item, in order. */
  lemma {:induction false} PushAllKeeps(b: Boundary, level: nat, items: seq<Item>)
    ensures var s := PushAll(b, level, START, items); Flat(s.done) + s.open == items
  {
    if items != [] {
      var front, item := items[..|items| - 1], items[|items| - 1];
      PushAllKeeps(b, level, front);
      PushKeeps(b, level, PushAll(b, level, START, front), item);
      assert items == front + [item];
    }
  }

  /** A finished chunk has at least two items. */
  lemma {:induction false} PushAllPairs(b: Boundary, level: nat, items: seq<Item>)
    ensures forall c :: 0 <= c < |PushAll(b, level, START, items).done| ==>
              var chunk := PushAll(b, level, START, items).done[c]; |chunk.items| >= 2 && chunk.level == level
  {
    if items != [] {
      PushAllPairs(b, level, items[..|items| - 1]);
    }
  }

  /** Cutting partitions the level: the chunks hold exactly the items, in order, none empty. */
  lemma {:induction false} CutFlat(b: Boundary, level: nat, items: seq<Item>)
    ensures var chunks := Cut(b, level, items);
            && Flat(chunks) == items
            && AllFilled(chunks)
            && (forall c :: 0 <= c < |chunks| ==> chunks[c].level == level)
            && (forall c :: 0 <= c < |chunks| - 1 ==> |chunks[c].items| >= 2)
  {
    var s := PushAll(b, level, START, items);
    assert Flat(Cut(b, level, items)) == items by {
      PushAllKeeps(b, level, items);
      FlatPush(s.done, Chunk(level, s.open));
      if s.open == [] {
        assert Flat(s.done) + s.open == Flat(s.done);
      }
    }
    PushAllPairs(b, level, items);
  }

  lemma {:induction false} FlatGrows(chunks: seq<Chunk>)
    requires forall c :: 0 <= c < |chunks| ==> |chunks[c].items| >= 2
    ensures |Flat(chunks)| >= 2 * |chunks|
  {
    if chunks != [] {
      FlatGrows(chunks[..|chunks| - 1]);
    }
  }

  /** `n` items make at most `n / 2` chunks, rounded up, so every level with two or more shrinks. */
  lemma {:induction false} CutShrinks(b: Boundary, level: nat, items: seq<Item>)
    ensures 2 * |Cut(b, level, items)| <= |items| + 1
    ensures Cut(b, level, items) == [] <==> items == []
  {
    PushAllKeeps(b, level, items);
    PushAllPairs(b, level, items);
    FlatGrows(PushAll(b, level, START, items).done);
  }

  // ------------------------------------------------------------------------- what a boundary is

  /** A boundary follows item `i` of a chunk: the chunk is `FORCE` bytes by then, or the rule wants one. */
  predicate Stops(b: Boundary, level: nat, items: seq<Item>, i: nat)
    requires i < |items|
  {
    var size := Size(items[..i + 1]);
    size >= FORCE || b(level, items[i].name, size)
  }

  /** No boundary follows any item before `end`, the first item aside. */
  ghost predicate Unbroken(b: Boundary, level: nat, items: seq<Item>, end: int)
    requires end <= |items|
  {
    forall i :: 0 < i < end ==> !Stops(b, level, items, i)
  }

  /** A chunk that ends at its first boundary, the one its second item may be the earliest to have. */
  ghost predicate Closed(b: Boundary, level: nat, items: seq<Item>) {
    |items| >= 2 && Unbroken(b, level, items, |items| - 1) && Stops(b, level, items, |items| - 1)
  }

  /**
   `chunks` cut `items` at the boundaries and nowhere else: a boundary follows no item inside a
   chunk but possibly its first, and one follows every chunk but possibly the last of the level.
   */
  ghost predicate IsCut(b: Boundary, level: nat, items: seq<Item>, chunks: seq<Chunk>) {
    && Flat(chunks) == items
    && AllFilled(chunks)
    && (forall c :: 0 <= c < |chunks| ==> chunks[c].level == level)
    && (forall c :: 0 <= c < |chunks| - 1 ==> Closed(b, level, chunks[c].items))
    && (chunks != [] ==> var last := chunks[|chunks| - 1].items; Unbroken(b, level, last, |last| - 1))
  }

  lemma {:induction false} SizePush(open: seq<Item>, item: Item)
    ensures Size(open + [item]) == Size(open) + Len(item)
  {
    assert (open + [item])[..|open|] == open;
  }

  lemma {:induction false} EndsStops(b: Boundary, level: nat, open: seq<Item>, item: Item)
    ensures Ends(b, level, open, item) <==> open != [] && Stops(b, level, open + [item], |open|)
  {
    SizePush(open, item);
    assert (open + [item])[..|open| + 1] == open + [item];
  }

  lemma {:induction false} StopsPrefix(b: Boundary, level: nat, items: seq<Item>, n: nat, i: nat)
    requires i < n <= |items|
    ensures Stops(b, level, items[..n], i) == Stops(b, level, items, i)
  {
    assert items[..n][..i + 1] == items[..i + 1];
  }

  lemma {:induction false} UnbrokenPrefix(b: Boundary, level: nat, items: seq<Item>, n: nat, end: nat)
    requires end <= n <= |items|
    ensures Unbroken(b, level, items[..n], end) <==> Unbroken(b, level, items, end)
  {
    forall i | 0 <= i < n ensures Stops(b, level, items[..n], i) == Stops(b, level, items, i)
    {
      StopsPrefix(b, level, items, n, i);
    }
  }

  /** What cutting keeps: chunks finished so far end at their first boundary, and none is in the open one. */
  ghost predicate CutSoFar(b: Boundary, level: nat, s: Cutting) {
    && (forall c :: 0 <= c < |s.done| ==> s.done[c].level == level && Closed(b, level, s.done[c].items))
    && Unbroken(b, level, s.open, |s.open|)
  }

  lemma {:induction false} PushCuts(b: Boundary, level: nat, s: Cutting, item: Item)
    requires CutSoFar(b, level, s)
    ensures CutSoFar(b, level, Push(b, level, s, item))
  {
    var open := s.open + [item];
    assert open[..|s.open|] == s.open;
    EndsStops(b, level, s.open, item);
    UnbrokenPrefix(b, level, open, |s.open|, |s.open|);
    hide Stops, Ends;
  }

  lemma {:induction false} PushAllCuts(b: Boundary, level: nat, items: seq<Item>)
    ensures CutSoFar(b, level, PushAll(b, level, START, items))
  {
    hide Push, Closed, Stops;
    if items != [] {
      PushAllCuts(b, level, items[..|items| - 1]);
      PushCuts(b, level, PushAll(b, level, START, items[..|items| - 1]), items[|items| - 1]);
    }
  }

  /** Items with no boundary before the last leave one open chunk, finished if one follows the last. */
  lemma {:induction false} PushChunk(b: Boundary, level: nat, items: seq<Item>, n: nat)
    requires 0 < n <= |items| && Unbroken(b, level, items, |items| - 1)
    ensures PushAll(b, level, START, items[..n]) ==
      if n == |items| && Closed(b, level, items) then Cutting([Chunk(level, items)], []) else Cutting([], items[..n])
  {
    hide Stops, Ends;
    var front := items[..n - 1];
    assert items[..n] == front + [items[n - 1]];
    PushOne(b, level, START, front, items[n - 1]);
    PushNone(b, level);
    EndsStops(b, level, front, items[n - 1]);
    StopsPrefix(b, level, items, n, n - 1);
    if n > 1 {
      PushChunk(b, level, items, n - 1);
    }
    assert n == |items| ==> items[..n] == items;
  }

  /** Chunks that each end at their first boundary are what cutting finishes. */
  lemma {:induction false} PushClosed(b: Boundary, level: nat, chunks: seq<Chunk>)
    requires forall c :: 0 <= c < |chunks| ==> chunks[c].level == level && Closed(b, level, chunks[c].items)
    ensures PushAll(b, level, START, Flat(chunks)) == Cutting(chunks, [])
  {
    hide Stops, Push, PushAll;
    if chunks == [] {
      FlatNone();
      PushNone(b, level);
    } else {
      var front, chunk := chunks[..|chunks| - 1], chunks[|chunks| - 1];
      PushClosed(b, level, front);
      PushAllConcat(b, level, START, Flat(front), chunk.items);
      PushAllShift(b, level, front, [], chunk.items);
      PushChunk(b, level, chunk.items, |chunk.items|);
      assert chunk.items[..|chunk.items|] == chunk.items;
      assert front + [chunk] == chunks;
    }
  }

  /** Cutting a level puts a chunk's end at each boundary and nowhere else. */
  lemma {:induction false} CutCuts(b: Boundary, level: nat, items: seq<Item>)
    ensures IsCut(b, level, items, Cut(b, level, items))
  {
    hide Stops, PushAll, Flat;
    CutFlat(b, level, items);
    PushAllCuts(b, level, items);
  }

  /** The cut of a level is the only one that ends chunks at the boundaries and nowhere else. */
  lemma {:induction false} CutExactly(b: Boundary, level: nat, items: seq<Item>, chunks: seq<Chunk>)
    ensures IsCut(b, level, items, chunks) <==> chunks == Cut(b, level, items)
  {
    hide Stops, Closed, Unbroken, Push, PushAll, Cut;
    CutCuts(b, level, items);
    if IsCut(b, level, items, chunks) {
      if chunks == [] {
        FlatNone();
        CutShrinks(b, level, items);
      } else {
        CutLast(b, level, items, chunks);
      }
    }
  }

  lemma {:induction false} CutLast(b: Boundary, level: nat, items: seq<Item>, chunks: seq<Chunk>)
    requires IsCut(b, level, items, chunks) && chunks != []
    ensures chunks == Cut(b, level, items)
  {
    hide Stops, Closed, Unbroken, Push, PushAll;
    var front, last := chunks[..|chunks| - 1], chunks[|chunks| - 1];
    assert chunks == front + [last];
    assert items == Flat(front) + last.items;
    PushClosed(b, level, front);
    PushAllConcat(b, level, START, Flat(front), last.items);
    PushAllShift(b, level, front, [], last.items);
    PushChunk(b, level, last.items, |last.items|);
    assert last.items[..|last.items|] == last.items;
    assert last == Chunk(level, last.items);
  }

  /** After any prefix of the finished chunks nothing is open: cutting can resume there. */
  lemma {:induction false} DonePrefix(b: Boundary, level: nat, items: seq<Item>, c: nat)
    requires c <= |PushAll(b, level, START, items).done|
    ensures var done := PushAll(b, level, START, items).done;
            PushAll(b, level, START, Flat(done[..c])) == Cutting(done[..c], [])
  {
    if items != [] {
      var front := items[..|items| - 1];
      var s := PushAll(b, level, START, front);
      var done := PushAll(b, level, START, items).done;
      if c <= |s.done| {
        DonePrefix(b, level, front, c);
        assert done[..c] == s.done[..c];
      } else {
        assert done[..c] == done;
        PushAllKeeps(b, level, items);
        assert Flat(done) + [] == items;
        assert Flat(done) == items;
      }
    }
  }

  /** Every chunk but the last ends at a boundary, so the cut of a prefix is a prefix of the cut. */
  lemma {:induction false} CutPrefix(b: Boundary, level: nat, items: seq<Item>, c: nat)
    requires c < |Cut(b, level, items)|
    ensures var chunks := Cut(b, level, items);
            PushAll(b, level, START, Flat(chunks[..c])) == Cutting(chunks[..c], [])
  {
    hide PushAll, Flat;
    var s := PushAll(b, level, START, items);
    DonePrefix(b, level, items, c);
    assert Cut(b, level, items)[..c] == s.done[..c];
  }

  /** Cutting resumed at an old boundary reproduces the old chunks from there on. */
  lemma {:induction false} CutSuffix(b: Boundary, level: nat, items: seq<Item>, c: nat, done: seq<Chunk>)
    requires c < |Cut(b, level, items)|
    ensures var chunks := Cut(b, level, items);
            Finish(level, PushAll(b, level, Cutting(done, []), Flat(chunks[c..]))) == done + chunks[c..]
  {
    hide PushAll, Flat;
    var chunks := Cut(b, level, items);
    var s := PushAll(b, level, START, Flat(chunks[c..]));
    assert chunks == chunks[..c] + Finish(level, s) by {
      CutPrefix(b, level, items, c);
      CutFlat(b, level, items);
      FlatSplit(chunks, c);
      PushAllConcat(b, level, START, Flat(chunks[..c]), Flat(chunks[c..]));
      PushAllShift(b, level, chunks[..c], [], Flat(chunks[c..]));
    }
    assert Finish(level, s) == chunks[c..];
    PushAllShift(b, level, done, [], Flat(chunks[c..]));
  }

  /** Resuming at an old boundary also reproduces any run of old chunks short of the last. */
  lemma {:induction false} CutMiddle(b: Boundary, level: nat, items: seq<Item>, from: nat, to: nat, done: seq<Chunk>)
    requires from <= to < |Cut(b, level, items)|
    ensures var chunks := Cut(b, level, items);
            PushAll(b, level, Cutting(done, []), Flat(chunks[from..to])) == Cutting(done + chunks[from..to], [])
  {
    hide PushAll, Cut, Flat;
    var chunks := Cut(b, level, items);
    CutPrefix(b, level, items, from);
    CutPrefix(b, level, items, to);
    FlatConcat(chunks[..from], chunks[from..to]);
    assert chunks[..from] + chunks[from..to] == chunks[..to];
    PushAllConcat(b, level, START, Flat(chunks[..from]), Flat(chunks[from..to]));
    PushAllShift(b, level, chunks[..from], [], Flat(chunks[from..to]));
    PushAllShift(b, level, done, [], Flat(chunks[from..to]));
    var s := PushAll(b, level, START, Flat(chunks[from..to]));
    assert chunks[..to] == chunks[..from] + s.done;
    assert s.done == chunks[from..to];
  }

  ghost predicate Bounded(s: Cutting) {
    && Size(s.open) < FORCE
    && (forall c :: 0 <= c < |s.done| ==> Size(s.done[c].items) < FORCE + ITEM + MAX_PATH)
  }

  lemma {:induction false} PushBounded(b: Boundary, level: nat, s: Cutting, item: Item)
    requires Bounded(s) && |item.name| <= MAX_PATH
    ensures Bounded(Push(b, level, s, item))
  {
    SizePush(s.open, item);
    SizePush([], item);
    assert [] + [item] == [item];
  }

  lemma {:induction false} OpenBounded(b: Boundary, level: nat, items: seq<Item>)
    requires forall i :: 0 <= i < |items| ==> |items[i].name| <= MAX_PATH
    ensures Bounded(PushAll(b, level, START, items))
  {
    hide Push, Size;
    if items == [] {
      assert Bounded(START) by { NoneBounded(); }
    } else {
      OpenBounded(b, level, items[..|items| - 1]);
      PushBounded(b, level, PushAll(b, level, START, items[..|items| - 1]), items[|items| - 1]);
    }
  }

  lemma {:induction false} NoneBounded()
    ensures Bounded(START)
  {
  }

  /** Every emitted chunk of names within the path limit fits the decoder's bound. */
  lemma {:induction false} ChunksFit(b: Boundary, level: nat, items: seq<Item>)
    requires forall i :: 0 <= i < |items| ==> |items[i].name| <= MAX_PATH
    ensures forall chunk :: chunk in Cut(b, level, items) ==> 1 + Size(chunk.items) <= MAX_CHUNK
  {
    OpenBounded(b, level, items);
  }

  // ---------------------------------------------------------------- positions inside a level

  /** Where chunk `c` starts within its level. */
  function Offset(chunks: seq<Chunk>, c: nat): nat
    requires c <= |chunks|
  {
    |Flat(chunks[..c])|
  }

  lemma {:induction false} FlatSplit(chunks: seq<Chunk>, c: nat)
    requires c <= |chunks|
    ensures Flat(chunks) == Flat(chunks[..c]) + Flat(chunks[c..])
    ensures Offset(chunks, c) <= |Flat(chunks)|
    ensures Flat(chunks)[..Offset(chunks, c)] == Flat(chunks[..c])
    ensures Flat(chunks)[Offset(chunks, c)..] == Flat(chunks[c..])
  {
    assert chunks[..c] + chunks[c..] == chunks;
    FlatConcat(chunks[..c], chunks[c..]);
  }

  lemma {:induction false} FlatNext(chunks: seq<Chunk>, c: nat)
    requires c < |chunks|
    ensures Offset(chunks, c + 1) == Offset(chunks, c) + |chunks[c].items|
    ensures Offset(chunks, c + 1) <= |Flat(chunks)|
    ensures Flat(chunks)[Offset(chunks, c)..Offset(chunks, c + 1)] == chunks[c].items
  {
    assert chunks[..c + 1] == chunks[..c] + [chunks[c]];
    FlatPush(chunks[..c], chunks[c]);
    FlatSplit(chunks, c + 1);
    var flat := Flat(chunks);
    assert flat[..Offset(chunks, c + 1)][Offset(chunks, c)..] == flat[Offset(chunks, c)..Offset(chunks, c + 1)];
  }

  /** The end of chunk `c` within its level names the chunk. */
  lemma {:induction false} LastName(chunks: seq<Chunk>, c: nat)
    requires c < |chunks| && chunks[c].items != []
    ensures var end := Offset(chunks, c + 1); 0 < end <= |Flat(chunks)| && Flat(chunks)[end - 1].name == Last(chunks[c])
  {
    FlatNext(chunks, c);
    var end := Offset(chunks, c + 1);
    assert Flat(chunks)[Offset(chunks, c)..end][|chunks[c].items| - 1] == Flat(chunks)[end - 1];
  }

  lemma {:induction false} LastsAscend(chunks: seq<Chunk>, i: nat, j: nat)
    requires AllFilled(chunks) && Sorted(Flat(chunks)) && i < j < |chunks|
    ensures Less(Last(chunks[i]), Last(chunks[j]))
  {
    OffsetGrows(chunks, i + 1, j + 1);
    LastName(chunks, i);
    LastName(chunks, j);
  }

  /** The summaries of a sorted level are sorted. */
  lemma {:induction false} SummariesSorted(chunks: seq<Chunk>)
    requires AllFilled(chunks) && Sorted(Flat(chunks))
    ensures Sorted(Summaries(chunks))
  {
    forall i, j | 0 <= i < j < |chunks| ensures Less(Summaries(chunks)[i].name, Summaries(chunks)[j].name)
    {
      LastsAscend(chunks, i, j);
    }
  }

  lemma {:induction false} OffsetGrows(chunks: seq<Chunk>, i: nat, j: nat)
    requires AllFilled(chunks) && i <= j <= |chunks|
    ensures Offset(chunks, i) + (j - i) <= Offset(chunks, j)
    decreases j - i
  {
    if i < j {
      FlatNext(chunks, i);
      OffsetGrows(chunks, i + 1, j);
    }
  }

  lemma {:induction false} SomeMember(items: seq<Item>)
    ensures items == [] || exists x :: x in items
  {
    if items != [] {
      assert items[0] in items;
    }
  }

  /** A sorted list is determined by its members. */
  lemma {:induction false} SortedUnique(a: seq<Item>, c: seq<Item>)
    requires Sorted(a) && Sorted(c)
    requires forall x :: x in a <==> x in c
    ensures a == c
    decreases |a|
  {
    ByteOrder();
    if a == [] {
      SomeMember(c);
    } else {
      assert a[0] in c;
      assert c[0] in a;
      assert a[0] == c[0];
      var a', c' := a[1..], c[1..];
      forall x ensures x in a' <==> x in c'
      {
        if x in a' {
          var i :| 0 <= i < |a'| && a'[i] == x;
          assert a[i + 1] == x;
          assert x in c && Less(a[0].name, x.name);
          var j :| 0 <= j < |c| && c[j] == x;
          assert c'[j - 1] == x;
        }
        if x in c' {
          var i :| 0 <= i < |c'| && c'[i] == x;
          assert c[i + 1] == x;
          assert x in a && Less(c[0].name, x.name);
          var j :| 0 <= j < |a| && a[j] == x;
          assert a'[j - 1] == x;
        }
      }
      SortedUnique(a', c');
    }
  }
}
