/**
 Differences between two snapshots (src/tree.rs). Chunks present on both sides are dropped by hash
 before anything below them is read, and no difference is lost.
 */
module Diff {
  import opened Names
  import opened Chunks
  import opened Levels
  import opened Seeking
  import opened Updating
  import opened Directories
  import opened Apply

  /** A tree as the reader accepts it: each child is one level down, not empty, and filed under its last name. */
  ghost predicate Shaped(chunk: Chunk) {
    forall i :: 0 <= i < |chunk.items| ==>
      match chunk.items[i].node
      case File(_) => chunk.level == 0
      case Dir(root) => chunk.level == 0 && Shaped(root)
      case Child(child) =>
        && chunk.level > 0 && chunk.items[i] == Summary(child)
        && child.items != [] && child.level == chunk.level - 1 && Shaped(child)
  }

  ghost predicate ShapedAll(chunks: seq<Chunk>) {
    forall c :: 0 <= c < |chunks| ==> Shaped(chunks[c])
  }

  /** A name and its node before and after. */
  datatype ItemDiff = ItemDiff(name: Name, before: Option<Node>, after: Option<Node>)

  // ------------------------------------------------------------------- dropping shared chunks

  /** Where a leaf item lives. */
  lemma {:induction false} LeavesAllHas(chunks: seq<Chunk>, x: Item)
    ensures x in LeavesAll(chunks) <==> exists c :: 0 <= c < |chunks| && x in Leaves(chunks[c])
  {
    hide Leaves;
    if chunks != [] {
      var front := chunks[..|chunks| - 1];
      LeavesAllHas(front, x);
      assert forall c :: 0 <= c < |front| ==> front[c] == chunks[c];
    }
  }

  /** The chunks of a side that are not shared. */
  function Without(chunks: seq<Chunk>, shared: set<Chunk>): seq<Chunk> {
    if chunks == [] then []
    else
      var last := chunks[|chunks| - 1];
      Without(chunks[..|chunks| - 1], shared) + if last in shared then [] else [last]
  }

  lemma {:induction false} PrefixSorted(a: seq<Item>, c: seq<Item>)
    requires Sorted(a + c)
    ensures Sorted(a) && Sorted(c)
    ensures forall x, y :: x in a && y in c ==> Less(x.name, y.name)
  {
    forall i, j | 0 <= i < j < |a| ensures Less(a[i].name, a[j].name)
    {
      assert (a + c)[i] == a[i] && (a + c)[j] == a[j];
    }
    forall i, j | 0 <= i < j < |c| ensures Less(c[i].name, c[j].name)
    {
      assert (a + c)[|a| + i] == c[i] && (a + c)[|a| + j] == c[j];
    }
    forall x, y | x in a && y in c ensures Less(x.name, y.name)
    {
      var i :| 0 <= i < |a| && a[i] == x;
      var j :| 0 <= j < |c| && c[j] == y;
      assert (a + c)[i] == x && (a + c)[|a| + j] == y;
    }
  }

  lemma {:induction false} JoinSorted(a: seq<Item>, c: seq<Item>)
    requires Sorted(a) && Sorted(c)
    requires forall x, y :: x in a && y in c ==> Less(x.name, y.name)
    ensures Sorted(a + c)
  {
    forall i, j | 0 <= i < j < |a + c| ensures Less((a + c)[i].name, (a + c)[j].name)
    {
      if i < |a| && |a| <= j {
        assert a[i] in a && c[j - |a|] in c;
      }
    }
  }

  /** Dropping chunks keeps the rest sorted, and every dropped leaf's name is gone with it. */
  lemma {:induction false} WithoutSorted(chunks: seq<Chunk>, shared: set<Chunk>)
    requires Sorted(LeavesAll(chunks))
    ensures Sorted(LeavesAll(Without(chunks, shared)))
    ensures forall x :: x in LeavesAll(Without(chunks, shared)) ==> x in LeavesAll(chunks)
    ensures forall x :: x in LeavesAll(chunks) && x !in LeavesAll(Without(chunks, shared)) ==>
              exists chunk :: chunk in shared && x in Leaves(chunk)
    ensures forall x, y, chunk ::
      x in LeavesAll(Without(chunks, shared)) && chunk in shared && chunk in chunks && y in Leaves(chunk) ==>
        x.name != y.name
  {
    hide Leaves, Less, Sorted;
    if chunks != [] {
      var front, last := chunks[..|chunks| - 1], chunks[|chunks| - 1];
      PrefixSorted(LeavesAll(front), Leaves(last));
      WithoutSorted(front, shared);
      WithoutStep(front, last, shared);
      assert chunks == front + [last];
    }
  }

  lemma {:induction false} WithoutStep(front: seq<Chunk>, last: Chunk, shared: set<Chunk>)
    requires Sorted(LeavesAll(front)) && Sorted(Leaves(last)) && Sorted(LeavesAll(Without(front, shared)))
    requires forall x, y :: x in LeavesAll(front) && y in Leaves(last) ==> Less(x.name, y.name)
    requires forall x :: x in LeavesAll(Without(front, shared)) ==> x in LeavesAll(front)
    requires forall x :: x in LeavesAll(front) && x !in LeavesAll(Without(front, shared)) ==>
      exists chunk :: chunk in shared && x in Leaves(chunk)
    requires forall x, y, chunk ::
      x in LeavesAll(Without(front, shared)) && chunk in shared && chunk in front && y in Leaves(chunk) ==>
        x.name != y.name
    ensures var rest := Without(front + [last], shared);
      && Sorted(LeavesAll(rest))
      && (forall x :: x in LeavesAll(rest) ==> x in LeavesAll(front + [last]))
      && (forall x :: x in LeavesAll(front + [last]) && x !in LeavesAll(rest) ==>
        exists chunk :: chunk in shared && x in Leaves(chunk))
      && (forall x, y, chunk ::
            x in LeavesAll(rest) && chunk in shared && chunk in front + [last] && y in Leaves(chunk) ==>
              x.name != y.name)
  {
    var kept := Without(front, shared);
    assert (front + [last])[..|front + [last]| - 1] == front;
    assert Without(front + [last], shared) == if last in shared then kept else kept + [last];
    LeavesPush(front, last);
    LeavesPush(kept, last);
    if last !in shared {
      JoinSorted(LeavesAll(kept), Leaves(last));
    }
    hide Leaves, Sorted, LeavesAll, Without;
    forall x, y, chunk | x in LeavesAll(Without(front + [last], shared)) && chunk in shared && chunk in front + [last]
      && y in Leaves(chunk)
      ensures x.name != y.name
    {
      if chunk in front {
        LeavesAllHas(front, y);
        if x !in LeavesAll(kept) {
          assert Less(y.name, x.name);
        }
      }
    }
  }

  lemma {:induction false} LeavesPush(chunks: seq<Chunk>, last: Chunk)
    ensures LeavesAll(chunks + [last]) == LeavesAll(chunks) + Leaves(last)
  {
    assert (chunks + [last])[..|chunks + [last]| - 1] == chunks;
  }

  // ------------------------------------------------------------------------ expanding a level

  function Children(chunk: Chunk): seq<Chunk> {
    seq(|chunk.items|, i requires 0 <= i < |chunk.items| => if chunk.items[i].node.Child?
      then chunk.items[i].node.chunk else EMPTY)
  }

  /** Replaces every chunk of the highest level by its children. */
  function Expand(chunks: seq<Chunk>, level: nat): seq<Chunk> {
    if chunks == [] then []
    else
      var last := chunks[|chunks| - 1];
      Expand(chunks[..|chunks| - 1], level) + if last.level < level then [last] else Children(last)
  }

  ghost predicate LevelsUpTo(chunks: seq<Chunk>, level: nat) {
    forall c :: 0 <= c < |chunks| ==> chunks[c].level <= level
  }

  lemma {:induction false} ChildrenShaped(chunk: Chunk)
    requires Shaped(chunk) && chunk.level > 0
    ensures ShapedAll(Children(chunk)) && LevelsUpTo(Children(chunk), chunk.level - 1)
    ensures LeavesAll(Children(chunk)) == Leaves(chunk)
  {
    assert forall i :: 0 <= i < |chunk.items| ==> chunk.items[i].node.Child?;
    assert Summaries(Children(chunk)) == chunk.items;
    LastLeaves(chunk, Children(chunk));
  }

  lemma {:induction false} ExpandKeeps(chunks: seq<Chunk>, level: nat)
    requires ShapedAll(chunks) && level > 0 && LevelsUpTo(chunks, level)
    ensures ShapedAll(Expand(chunks, level)) && LevelsUpTo(Expand(chunks, level), level - 1)
    ensures LeavesAll(Expand(chunks, level)) == LeavesAll(chunks)
  {
    hide Shaped, Leaves, Children, LeavesAll;
    if chunks == [] {
      assert Expand(chunks, level) == chunks;
    } else {
      var front, last := chunks[..|chunks| - 1], chunks[|chunks| - 1];
      assert chunks == front + [last];
      LeavesPush(front, last);
      ExpandKeeps(front, level);
      if last.level < level {
        LeavesPush(Expand(front, level), last);
      } else {
        ChildrenShaped(last);
        LeavesConcat(Expand(front, level), Children(last));
      }
    }
  }

  // -------------------------------------------------------------------------- pairing by name

  /** The pairs that differ when two item lists are walked by name. */
  function Pairs(a: seq<Item>, c: seq<Item>): seq<ItemDiff>
    decreases |a| + |c|
  {
    if a == [] && c == [] then []
    else if a != [] && c != [] && a[0].name == c[0].name then
      (if a[0] == c[0] then [] else [ItemDiff(a[0].name, Some(a[0].node), Some(c[0].node))]) + Pairs(a[1..], c[1..])
    else if a != [] && (c == [] || Less(a[0].name, c[0].name)) then
      [ItemDiff(a[0].name, Some(a[0].node), None)] + Pairs(a[1..], c)
    else
      [ItemDiff(c[0].name, None, Some(c[0].node))] + Pairs(a, c[1..])
  }

  /** The differences named are exactly the names whose nodes differ, each with both nodes. */
  ghost predicate Exactly(a: seq<Item>, c: seq<Item>, diffs: seq<ItemDiff>) {
    && (forall d :: d in diffs ==> d.before == Entry(a, d.name) && d.after == Entry(c, d.name) && d.before != d.after)
    && (forall name :: Entry(a, name) != Entry(c, name) ==> exists d :: d in diffs && d.name == name)
  }

  lemma {:induction false} EntryAfter(head: Item, rest: seq<Item>, name: Name)
    ensures Entry([head] + rest, name) == if head.name == name then Some(head.node) else Entry(rest, name)
  {
    assert ([head] + rest)[1..] == rest;
  }

  lemma {:induction false} EntryPast(items: seq<Item>, name: Name)
    requires Above(name, items)
    ensures Entry(items, name) == None
  {
    EntryAbsent(items, name);
  }

  lemma {:induction false} PairsExact(a: seq<Item>, c: seq<Item>)
    requires Sorted(a) && Sorted(c)
    ensures Exactly(a, c, Pairs(a, c))
    decreases |a| + |c|
  {
    ByteOrder();
    if a != [] {
      assert a == [a[0]] + a[1..];
      assert Above(a[0].name, a[1..]);
    }
    if c != [] {
      assert c == [c[0]] + c[1..];
      assert Above(c[0].name, c[1..]);
    }
    hide Entry, Less;
    if a != [] && c != [] && a[0].name == c[0].name {
      PairsExact(a[1..], c[1..]);
      PairBoth(a[0], a[1..], c[0], c[1..], Pairs(a[1..], c[1..]));
    } else if a != [] && (c == [] || Less(a[0].name, c[0].name)) {
      PairsExact(a[1..], c);
      AboveFirst(a[0].name, c);
      PairLeft(a[0], a[1..], c, Pairs(a[1..], c));
    } else if c != [] {
      PairsExact(a, c[1..]);
      AboveFirst(c[0].name, a);
      PairRight(a, c[0], c[1..], Pairs(a, c[1..]));
    }
  }

  lemma {:induction false} AboveFirst(name: Name, items: seq<Item>)
    requires Sorted(items) && (items != [] ==> Less(name, items[0].name))
    ensures Above(name, items)
  {
    forall i | 0 <= i < |items| ensures Less(name, items[i].name)
    {
      if i > 0 {
        assert Less(items[0].name, items[i].name);
      }
    }
  }

  lemma {:induction false} PairBoth(x: Item, a: seq<Item>, y: Item, c: seq<Item>, rest: seq<ItemDiff>)
    requires x.name == y.name && Above(x.name, a) && Above(x.name, c) && Exactly(a, c, rest)
    ensures Exactly([x] + a, [y] + c, (if x == y then [] else [ItemDiff(x.name, Some(x.node), Some(y.node))]) + rest)
  {
    hide Entry, Above;
    EntryPast(a, x.name);
    EntryPast(c, x.name);
    forall name ensures Entry([x] + a, name) == if x.name == name then Some(x.node) else Entry(a, name)
    {
      EntryAfter(x, a, name);
    }
    forall name ensures Entry([y] + c, name) == if y.name == name then Some(y.node) else Entry(c, name)
    {
      EntryAfter(y, c, name);
    }
    var diffs := (if x == y then [] else [ItemDiff(x.name, Some(x.node), Some(y.node))]) + rest;
    forall name | Entry([x] + a, name) != Entry([y] + c, name) ensures exists d :: d in diffs && d.name == name
    {
      if name == x.name {
        assert diffs[0] in diffs;
      } else {
        var d :| d in rest && d.name == name;
        assert d in diffs;
      }
    }
  }

  lemma {:induction false} PairLeft(x: Item, a: seq<Item>, c: seq<Item>, rest: seq<ItemDiff>)
    requires Above(x.name, a) && Above(x.name, c) && Exactly(a, c, rest)
    ensures Exactly([x] + a, c, [ItemDiff(x.name, Some(x.node), None)] + rest)
  {
    hide Entry, Above;
    EntryPast(a, x.name);
    EntryPast(c, x.name);
    forall name ensures Entry([x] + a, name) == if x.name == name then Some(x.node) else Entry(a, name)
    {
      EntryAfter(x, a, name);
    }
    var diffs := [ItemDiff(x.name, Some(x.node), None)] + rest;
    forall name | Entry([x] + a, name) != Entry(c, name) ensures exists d :: d in diffs && d.name == name
    {
      if name == x.name {
        assert diffs[0] in diffs;
      } else {
        var d :| d in rest && d.name == name;
        assert d in diffs;
      }
    }
  }

  lemma {:induction false} PairRight(a: seq<Item>, y: Item, c: seq<Item>, rest: seq<ItemDiff>)
    requires Above(y.name, a) && Above(y.name, c) && Exactly(a, c, rest)
    ensures Exactly(a, [y] + c, [ItemDiff(y.name, None, Some(y.node))] + rest)
  {
    hide Entry, Above;
    EntryPast(a, y.name);
    EntryPast(c, y.name);
    forall name ensures Entry([y] + c, name) == if y.name == name then Some(y.node) else Entry(c, name)
    {
      EntryAfter(y, c, name);
    }
    var diffs := [ItemDiff(y.name, None, Some(y.node))] + rest;
    forall name | Entry(a, name) != Entry([y] + c, name) ensures exists d :: d in diffs && d.name == name
    {
      if name == y.name {
        assert diffs[0] in diffs;
      } else {
        var d :| d in rest && d.name == name;
        assert d in diffs;
      }
    }
  }

  lemma {:induction false} PairStep(a: seq<Item>, i: nat, c: seq<Item>, j: nat)
    requires i <= |a| && j <= |c| && (i < |a| || j < |c|)
    ensures Pairs(a[i..], c[j..]) ==
      if i < |a| && j < |c| && a[i].name == c[j].name then
        (if a[i] == c[j] then [] else [ItemDiff(a[i].name, Some(a[i].node), Some(c[j].node))])
          + Pairs(a[i + 1..], c[j + 1..])
      else if i < |a| && (j == |c| || Less(a[i].name, c[j].name)) then
        [ItemDiff(a[i].name, Some(a[i].node), None)] + Pairs(a[i + 1..], c[j..])
      else
        [ItemDiff(c[j].name, None, Some(c[j].node))] + Pairs(a[i..], c[j + 1..])
  {
    hide Less;
    assert i < |a| ==> a[i..][1..] == a[i + 1..];
    assert j < |c| ==> c[j..][1..] == c[j + 1..];
  }

  /** Walks both item lists by name. */
  method PairItems(a: seq<Item>, c: seq<Item>) returns (diffs: seq<ItemDiff>)
    ensures diffs == Pairs(a, c)
  {
    hide Pairs, Less;
    diffs := [];
    var i, j := 0, 0;
    assert a[0..] == a && c[0..] == c && [] + Pairs(a, c) == Pairs(a, c);
    while i < |a| || j < |c|
      invariant 0 <= i <= |a| && 0 <= j <= |c|
      invariant Pairs(a, c) == diffs + Pairs(a[i..], c[j..])
      decreases |a| - i + |c| - j
    {
      PairStep(a, i, c, j);
      ghost var i0, j0 := i, j;
      var step: seq<ItemDiff>;
      if i < |a| && j < |c| && a[i].name == c[j].name {
        step := if a[i] == c[j] then [] else [ItemDiff(a[i].name, Some(a[i].node), Some(c[j].node))];
        i, j := i + 1, j + 1;
      } else if i < |a| && (j == |c| || Less(a[i].name, c[j].name)) {
        step := [ItemDiff(a[i].name, Some(a[i].node), None)];
        i := i + 1;
      } else {
        step := [ItemDiff(c[j].name, None, Some(c[j].node))];
        j := j + 1;
      }
      assert Pairs(a[i0..], c[j0..]) == step + Pairs(a[i..], c[j..]);
      assert diffs + (step + Pairs(a[i..], c[j..])) == diffs + step + Pairs(a[i..], c[j..]);
      diffs := diffs + step;
    }
    assert a[i..] == [] && c[j..] == [];
    NoPairs();
  }

  lemma {:induction false} NoPairs()
    ensures Pairs([], []) == []
  {
  }

  // ------------------------------------------------------------------- differences of one directory

  /** What is left to compare: everything dropped was the same item on both sides. */
  ghost predicate Remains(left: seq<Item>, right: seq<Item>, a: seq<Item>, c: seq<Item>) {
    && Sorted(a) && Sorted(c)
    && (forall x :: x in a ==> x in left)
    && (forall x :: x in c ==> x in right)
    && (forall x :: x in left && x !in a ==> x in right && Unnamed(x.name, a, c))
    && (forall x :: x in right && x !in c ==> x in left && Unnamed(x.name, a, c))
  }

  ghost predicate Unnamed(name: Name, a: seq<Item>, c: seq<Item>) {
    (forall x :: x in a ==> x.name != name) && (forall x :: x in c ==> x.name != name)
  }

  /** One side's share of dropping the shared chunks. */
  lemma {:induction false} RemainsSide(left: seq<Item>, right: seq<Item>, a: seq<Chunk>, c: seq<Chunk>,
      shared: set<Chunk>)
    requires Remains(left, right, LeavesAll(a), LeavesAll(c))
    requires forall chunk :: chunk in shared ==> chunk in a && chunk in c
    ensures forall x :: x in left && x !in LeavesAll(Without(a, shared)) ==>
      x in right && Unnamed(x.name, LeavesAll(Without(a, shared)), LeavesAll(Without(c, shared)))
  {
    hide Sorted, Leaves, LeavesAll, Without;
    WithoutSorted(a, shared);
    WithoutSorted(c, shared);
    forall x | x in left && x !in LeavesAll(Without(a, shared))
      ensures x in right && Unnamed(x.name, LeavesAll(Without(a, shared)), LeavesAll(Without(c, shared)))
    {
      if x in LeavesAll(a) {
        var chunk :| chunk in shared && x in Leaves(chunk);
        LeavesAllHas(c, x);
      }
    }
  }

  lemma {:induction false} RemainsFlip(left: seq<Item>, right: seq<Item>, a: seq<Item>, c: seq<Item>)
    requires Remains(left, right, a, c)
    ensures Remains(right, left, c, a)
  {
  }

  /** Dropping shared chunks leaves every difference to be found. */
  lemma {:induction false} RemainsDrop(left: seq<Item>, right: seq<Item>, a: seq<Chunk>, c: seq<Chunk>,
      shared: set<Chunk>)
    requires Remains(left, right, LeavesAll(a), LeavesAll(c))
    requires forall chunk :: chunk in shared ==> chunk in a && chunk in c
    ensures Remains(left, right, LeavesAll(Without(a, shared)), LeavesAll(Without(c, shared)))
  {
    hide Sorted, Leaves, LeavesAll, Without;
    WithoutSorted(a, shared);
    WithoutSorted(c, shared);
    RemainsSide(left, right, a, c, shared);
    RemainsFlip(left, right, LeavesAll(a), LeavesAll(c));
    RemainsSide(right, left, c, a, shared);
  }

  /** The differences among what remains are the differences of the directories. */
  lemma {:induction false} RemainsExact(left: seq<Item>, right: seq<Item>, a: seq<Item>, c: seq<Item>,
      diffs: seq<ItemDiff>)
    requires Sorted(left) && Sorted(right) && Remains(left, right, a, c) && Exactly(a, c, diffs)
    ensures Exactly(left, right, diffs)
  {
    hide Sorted, Entry, Unnamed;
    forall name ensures (Entry(left, name) == Entry(a, name) && Entry(right, name) == Entry(c, name))
      || (Entry(a, name) == None && Entry(c, name) == None && Entry(left, name) == Entry(right, name))
    {
      RemainsEntry(left, right, a, c, name);
    }
  }

  lemma {:induction false} RemainsEntry(left: seq<Item>, right: seq<Item>, a: seq<Item>, c: seq<Item>, name: Name)
    requires Sorted(left) && Sorted(right) && Remains(left, right, a, c)
    ensures (Entry(left, name) == Entry(a, name) && Entry(right, name) == Entry(c, name))
      || (Entry(a, name) == None && Entry(c, name) == None && Entry(left, name) == Entry(right, name))
  {
    hide Sorted, Entry;
    EntryIs(left, name);
    EntryIs(right, name);
    EntryIs(a, name);
    EntryIs(c, name);
    if exists x: Item :: x.name == name && ((x in left && x !in a) || (x in right && x !in c)) {
      var x: Item :| x.name == name && ((x in left && x !in a) || (x in right && x !in c));
      assert Unnamed(name, a, c);
      EntryAbsent(a, name);
      EntryAbsent(c, name);
      assert x == Item(name, x.node) && x in left && x in right;
    } else {
      forall node ensures Entry(left, name) == Some(node) <==> Entry(a, name) == Some(node)
      {
        var x := Item(name, node);
        assert x in left <==> x in a;
      }
      OptionSame(Entry(left, name), Entry(a, name));
      forall node ensures Entry(right, name) == Some(node) <==> Entry(c, name) == Some(node)
      {
        var x := Item(name, node);
        assert x in right <==> x in c;
      }
      OptionSame(Entry(right, name), Entry(c, name));
    }
  }

  function HighestLevel(chunks: seq<Chunk>): (level: nat)
    ensures LevelsUpTo(chunks, level)
  {
    if chunks == [] then 0
    else
      var rest, last := HighestLevel(chunks[..|chunks| - 1]), chunks[|chunks| - 1].level;
      assert forall c :: 0 <= c < |chunks| - 1 ==> chunks[..|chunks| - 1][c] == chunks[c];
      if rest < last then last else rest
  }

  function Side(dir: Option<Chunk>): seq<Chunk> {
    if dir.Some? then [dir.value] else []
  }

  ghost predicate ShapedDir(dir: Option<Chunk>) {
    dir.Some? ==> Shaped(dir.value)
  }

  lemma {:induction false} SideLeaves(dir: Option<Chunk>)
    ensures LeavesAll(Side(dir)) == Items(dir)
  {
    if dir.Some? {
      LeavesPush([], dir.value);
      assert [] + [dir.value] == [dir.value];
    }
  }

  lemma {:induction false} WithoutKeeps(chunks: seq<Chunk>, shared: set<Chunk>, level: nat)
    requires ShapedAll(chunks) && LevelsUpTo(chunks, level)
    ensures ShapedAll(Without(chunks, shared)) && LevelsUpTo(Without(chunks, shared), level)
  {
    hide Shaped;
    if chunks != [] {
      WithoutKeeps(chunks[..|chunks| - 1], shared, level);
    }
  }

  lemma {:induction false} WithoutFewer(chunks: seq<Chunk>, shared: set<Chunk>)
    ensures forall x :: x in LeavesAll(Without(chunks, shared)) ==> x in LeavesAll(chunks)
  {
    hide Leaves;
    if chunks != [] {
      var front, last := chunks[..|chunks| - 1], chunks[|chunks| - 1];
      WithoutFewer(front, shared);
      LeavesPush(Without(front, shared), last);
      assert Without(front, shared) + [] == Without(front, shared);
      assert LeavesAll(chunks) == LeavesAll(front) + Leaves(last);
    }
  }

  /** Every difference concerns items the directories hold. */
  ghost predicate Drawn(left: seq<Item>, right: seq<Item>, diffs: seq<ItemDiff>) {
    forall d :: d in diffs ==>
      && (d.before.Some? ==> Item(d.name, d.before.value) in left)
      && (d.after.Some? ==> Item(d.name, d.after.value) in right)
  }

  lemma {:induction false} PairsDrawn(a: seq<Item>, c: seq<Item>)
    ensures Drawn(a, c, Pairs(a, c))
    decreases |a| + |c|
  {
    hide Less;
    if a != [] && c != [] && a[0].name == c[0].name {
      PairsDrawn(a[1..], c[1..]);
      assert a[0] == Item(a[0].name, a[0].node) && c[0] == Item(c[0].name, c[0].node);
    } else if a != [] && (c == [] || Less(a[0].name, c[0].name)) {
      PairsDrawn(a[1..], c);
      assert a[0] == Item(a[0].name, a[0].node);
    } else if c != [] {
      PairsDrawn(a, c[1..]);
      assert c[0] == Item(c[0].name, c[0].node);
    }
  }

  /**
   Items that differ between two directories. Chunks present on both sides are dropped before the
   highest remaining level is expanded.
   */
  method DiffItems(from: Option<Chunk>, to: Option<Chunk>) returns (diffs: seq<ItemDiff>)
    requires ShapedDir(from) && ShapedDir(to)
    ensures Drawn(Items(from), Items(to), diffs)
    ensures Sorted(Items(from)) && Sorted(Items(to)) ==> Exactly(Items(from), Items(to), diffs)
  {
    hide Shaped, Leaves, Items, Sorted, Without, Expand, Exactly, Remains, Drawn, LeavesAll, Pairs;
    ghost var left, right := Items(from), Items(to);
    ghost var sorted := Sorted(left) && Sorted(right);
    var a, c := Side(from), Side(to);
    SideLeaves(from);
    SideLeaves(to);
    if sorted {
      RemainsAll(left, right);
    }
    ghost var bound := HighestLevel(a + c) + 1;
    while true
      invariant ShapedAll(a) && ShapedAll(c)
      invariant forall x :: x in LeavesAll(a) ==> x in left
      invariant forall x :: x in LeavesAll(c) ==> x in right
      invariant sorted ==> Remains(left, right, LeavesAll(a), LeavesAll(c))
      invariant bound > 0 && LevelsUpTo(a, bound - 1) && LevelsUpTo(c, bound - 1)
      decreases bound
    {
      var shared := set chunk | chunk in a && chunk in c;
      if sorted {
        RemainsDrop(left, right, a, c, shared);
      }
      WithoutKeeps(a, shared, bound - 1);
      WithoutKeeps(c, shared, bound - 1);
      WithoutFewer(a, shared);
      WithoutFewer(c, shared);
      a, c := Without(a, shared), Without(c, shared);
      var level := HighestLevel(a + c);
      LevelsSplit(a, c, level);
      if level == 0 {
        break;
      }
      HighestReached(a, c, bound - 1);
      ExpandKeeps(a, level);
      ExpandKeeps(c, level);
      a, c := Expand(a, level), Expand(c, level);
      bound := level;
    }
    FlatIsLeaves(a);
    FlatIsLeaves(c);
    diffs := PairItems(Flat(a), Flat(c));
    PairsDrawn(LeavesAll(a), LeavesAll(c));
    DrawnWider(LeavesAll(a), LeavesAll(c), left, right, diffs);
    if sorted {
      assert Sorted(LeavesAll(a)) && Sorted(LeavesAll(c)) by { RemainsSorted(left, right, LeavesAll(a), LeavesAll(c)); }
      PairsExact(LeavesAll(a), LeavesAll(c));
      RemainsExact(left, right, LeavesAll(a), LeavesAll(c), diffs);
    }
  }

  lemma {:induction false} RemainsAll(left: seq<Item>, right: seq<Item>)
    requires Sorted(left) && Sorted(right)
    ensures Remains(left, right, left, right)
  {
  }

  lemma {:induction false} RemainsSorted(left: seq<Item>, right: seq<Item>, a: seq<Item>, c: seq<Item>)
    requires Remains(left, right, a, c)
    ensures Sorted(a) && Sorted(c)
  {
  }

  lemma {:induction false} DrawnWider(a: seq<Item>, c: seq<Item>, left: seq<Item>, right: seq<Item>,
      diffs: seq<ItemDiff>)
    requires Drawn(a, c, diffs)
    requires (forall x :: x in a ==> x in left) && (forall x :: x in c ==> x in right)
    ensures Drawn(left, right, diffs)
  {
  }

  lemma {:induction false} LevelsSplit(a: seq<Chunk>, c: seq<Chunk>, level: nat)
    requires LevelsUpTo(a + c, level)
    ensures LevelsUpTo(a, level) && LevelsUpTo(c, level)
  {
    assert forall i :: 0 <= i < |a| ==> (a + c)[i] == a[i];
    assert forall i :: 0 <= i < |c| ==> (a + c)[|a| + i] == c[i];
  }

  lemma {:induction false} HighestReached(a: seq<Chunk>, c: seq<Chunk>, bound: nat)
    requires LevelsUpTo(a, bound) && LevelsUpTo(c, bound)
    ensures HighestLevel(a + c) <= bound
  {
    HighestAtMost(a + c, bound);
  }

  lemma {:induction false} HighestAtMost(chunks: seq<Chunk>, bound: nat)
    requires LevelsUpTo(chunks, bound)
    ensures HighestLevel(chunks) <= bound
  {
    if chunks != [] {
      HighestAtMost(chunks[..|chunks| - 1], bound);
    }
  }

  lemma {:induction false} FlatIsLeaves(chunks: seq<Chunk>)
    requires LevelsUpTo(chunks, 0)
    ensures LeavesAll(chunks) == Flat(chunks)
  {
    LeavesFlat(chunks);
  }

  // ----------------------------------------------------------------------- whole snapshots

  /** Chunks below and including this one, subdirectories included. */
  ghost function Weight(chunk: Chunk): nat
    decreases chunk, 1, 0
  {
    1 + WeightOf(chunk, chunk.items)
  }

  ghost function WeightOf(chunk: Chunk, items: seq<Item>): nat
    requires forall i :: 0 <= i < |items| ==> items[i] in chunk.items
    decreases chunk, 0, |items|
  {
    if items == [] then 0
    else
      var last := items[|items| - 1];
      assert items[|items| - 1] in chunk.items;
      assert last in chunk.items && last < chunk;
      WeightOf(chunk, items[..|items| - 1]) +
        if last.node.Dir? then Weight(last.node.root) else if last.node.Child? then Weight(last.node.chunk) else 0
  }

  lemma {:induction false} WeightBelow(chunk: Chunk, x: Item)
    requires Shaped(chunk) && x in Leaves(chunk) && x.node.Dir?
    ensures Weight(x.node.root) < Weight(chunk) && Shaped(x.node.root)
    decreases chunk, 1, 0
  {
    if chunk.level == 0 {
      WeightAt(chunk, chunk.items, x);
    } else {
      WeightBelowOf(chunk, chunk.items, x);
    }
  }

  lemma {:induction false} WeightAt(chunk: Chunk, items: seq<Item>, x: Item)
    requires forall i :: 0 <= i < |items| ==> items[i] in chunk.items
    requires Shaped(chunk) && x in items && x.node.Dir?
    ensures Weight(x.node.root) <= WeightOf(chunk, items) && Shaped(x.node.root)
    decreases |items|
  {
    var front, last := items[..|items| - 1], items[|items| - 1];
    assert items == front + [last];
    if x != last {
      WeightAt(chunk, front, x);
    } else {
      var i :| 0 <= i < |chunk.items| && chunk.items[i] == x;
    }
  }

  lemma {:induction false} WeightBelowOf(chunk: Chunk, items: seq<Item>, x: Item)
    requires forall i :: 0 <= i < |items| ==> items[i] in chunk.items
    requires Shaped(chunk) && x in LeavesOf(chunk, items) && x.node.Dir?
    ensures Weight(x.node.root) < WeightOf(chunk, items) && Shaped(x.node.root)
    decreases chunk, 0, |items|
  {
    var front, last := items[..|items| - 1], items[|items| - 1];
    if x in LeavesOf(chunk, front) {
      WeightBelowOf(chunk, front, x);
    } else {
      var i :| 0 <= i < |chunk.items| && chunk.items[i] == last;
      WeightBelow(last.node.chunk, x);
    }
  }

  ghost function WeightDir(dir: Option<Chunk>): nat {
    if dir.Some? then Weight(dir.value) else 0
  }

  /** Every directory below is sorted. */
  ghost predicate Ordered(dir: Chunk)
    decreases Weight(dir)
  {
    && Sorted(Leaves(dir))
    && forall x :: x in Leaves(dir) && x.node.Dir? && Weight(x.node.root) < Weight(dir) ==> Ordered(x.node.root)
  }

  ghost predicate OrderedDir(dir: Option<Chunk>) {
    dir.Some? ==> Ordered(dir.value)
  }

  /** A canonical tree is shaped and ordered. */
  lemma {:induction false} CanonicalShaped(b: Boundary, dir: Chunk)
    requires Nested(b, dir)
    ensures Shaped(dir)
    decreases dir
  {
    forall i | 0 <= i < |dir.items| && !dir.items[i].node.File?
      ensures Shaped(if dir.items[i].node.Dir? then dir.items[i].node.root else dir.items[i].node.chunk)
    {
      CanonicalShaped(b, if dir.items[i].node.Dir? then dir.items[i].node.root else dir.items[i].node.chunk);
    }
  }

  lemma {:induction false} CanonicalOrdered(b: Boundary, dir: Chunk)
    requires Canonical(b, dir)
    ensures Ordered(dir)
    decreases Weight(dir)
  {
    NestedLeaves(b, dir);
    forall x | x in Leaves(dir) && x.node.Dir? && Weight(x.node.root) < Weight(dir) ensures Ordered(x.node.root)
    {
      CanonicalOrdered(b, x.node.root);
    }
  }

  ghost predicate Named(diffs: seq<ItemDiff>, name: Name) {
    exists d :: d in diffs && d.name == name
  }

  /** `out` holds, below the names in `done`, exactly the paths whose files differ, each with its file after. */
  ghost predicate DiffersIn(from: Option<Chunk>, to: Option<Chunk>, done: seq<ItemDiff>, out: Changeset) {
    && (forall p :: p in out ==> p != [] && Named(done, p[0]) && Read(from, p) != Read(to, p) && out[p] == Read(to, p))
    && (forall p :: p != [] && Named(done, p[0]) && Read(from, p) != Read(to, p) ==> p in out)
  }

  /** `out` is the pointwise difference of two snapshots. */
  ghost predicate Differs(from: Option<Chunk>, to: Option<Chunk>, out: Changeset) {
    && (forall p :: p in out <==> Read(from, p) != Read(to, p))
    && (forall p :: p in out ==> out[p] == Read(to, p))
  }

  lemma {:induction false} SeenBelow(dir: Option<Chunk>, name: Name, rest: Path)
    ensures Read(dir, [name] + rest) == Seen(Current(dir, name), rest)
  {
    if dir.Some? {
      assert ([name] + rest)[1..] == rest;
    }
  }

  /** The changes of a subdirectory, under its name. */
  function Under(name: Name, below: Changeset): (out: Changeset)
    ensures forall p :: p in out <==> p != [] && p[0] == name && p[1..] in below
    ensures forall p :: p in out ==> out[p] == below[p[1..]]
  {
    var paths := set q | q in below :: [name] + q;
    assert forall p :: p in paths <==> p != [] && p[0] == name && p[1..] in below by {
      forall p ensures p in paths <==> p != [] && p[0] == name && p[1..] in below
      {
        if p in paths {
          var q :| q in below && p == [name] + q;
          assert p[1..] == q;
        }
        if p != [] && p[0] == name && p[1..] in below {
          assert p == [name] + p[1..];
        }
      }
    }
    map p | p in paths :: below[p[1..]]
  }

  lemma {:induction false} SubdirectoryLighter(dir: Option<Chunk>, items: seq<Item>, name: Name, node: Option<Node>)
    requires ShapedDir(dir) && items == Items(dir)
    requires node.Some? ==> Item(name, node.value) in items
    ensures ShapedDir(Subdirectory(node))
    ensures Subdirectory(node).Some? ==> WeightDir(Subdirectory(node)) < WeightDir(dir)
    ensures OrderedDir(dir) ==> OrderedDir(Subdirectory(node))
  {
    hide Leaves;
    if Subdirectory(node).Some? {
      WeightBelow(dir.value, Item(name, node.value));
    }
  }

  lemma {:induction false} CurrentItems(dir: Option<Chunk>, name: Name)
    ensures Current(dir, name) == Entry(Items(dir), name)
  {
  }

  /** One differing name: its own change and the changes below it. */
  method DiffName(from: Option<Chunk>, to: Option<Chunk>, d: ItemDiff) returns (out: Changeset)
    requires ShapedDir(from) && ShapedDir(to) && Drawn(Items(from), Items(to), [d])
    ensures Proper(out)
    ensures
      OrderedDir(from) && OrderedDir(to) && d.before == Current(from, d.name) && d.after == Current(to, d.name) ==>
        DiffersIn(from, to, [d], out)
    decreases WeightDir(from) + WeightDir(to), 0
  {
    hide Shaped, Leaves, Items, Sorted, Ordered, Read, Lookup, Current, Entry;
    assert d in [d];
    SubdirectoryLighter(from, Items(from), d.name, d.before);
    SubdirectoryLighter(to, Items(to), d.name, d.after);
    var before, after := Subdirectory(d.before), Subdirectory(d.after);
    out := map[];
    if FileOf(d.before) != FileOf(d.after) {
      out := out[[d.name] := FileOf(d.after)];
    }
    ghost var own := out;
    var below: Changeset := map[];
    if before != after {
      below := DiffDir(before, after);
    }
    out := out + Under(d.name, below);
    if OrderedDir(from) && OrderedDir(to) && d.before == Current(from, d.name) && d.after == Current(to, d.name) {
      NameDiffers(from, to, d, own, below, out);
    }
  }

  lemma {:induction false} NameDiffers(from: Option<Chunk>, to: Option<Chunk>, d: ItemDiff, own: Changeset,
      below: Changeset, out: Changeset)
    requires d.before == Current(from, d.name) && d.after == Current(to, d.name)
    requires own == if FileOf(d.before) != FileOf(d.after) then map[[d.name] := FileOf(d.after)] else map[]
    requires Differs(Subdirectory(d.before), Subdirectory(d.after), below)
    requires out == own + Under(d.name, below)
    ensures DiffersIn(from, to, [d], out)
  {
    hide Read, Current, Subdirectory, FileOf, Under, Differs;
    assert forall name :: Named([d], name) <==> name == d.name by { assert d in [d]; }
    forall p | p != [] && p[0] == d.name
      ensures p in out <==> Read(from, p) != Read(to, p)
      ensures p in out ==> out[p] == Read(to, p)
    {
      assert p == [d.name] + p[1..];
      PathDiffers(from, to, d, own, below, p[1..]);
    }
  }

  lemma {:induction false} PathDiffers(from: Option<Chunk>, to: Option<Chunk>, d: ItemDiff, own: Changeset,
      below: Changeset, rest: Path)
    requires d.before == Current(from, d.name) && d.after == Current(to, d.name)
    requires own == if FileOf(d.before) != FileOf(d.after) then map[[d.name] := FileOf(d.after)] else map[]
    requires Differs(Subdirectory(d.before), Subdirectory(d.after), below)
    ensures var p, out := [d.name] + rest, own + Under(d.name, below);
      (p in out <==> Read(from, p) != Read(to, p)) && (p in out ==> out[p] == Read(to, p))
  {
    hide Read, Current, Subdirectory, FileOf, Under;
    SeenBelow(from, d.name, rest);
    SeenBelow(to, d.name, rest);
    ReadEmpty(Subdirectory(d.before));
    ReadEmpty(Subdirectory(d.after));
    var p := [d.name] + rest;
    assert p[1..] == rest && p[0] == d.name;
    if rest == [] {
      assert p == [d.name];
    } else {
      assert p != [d.name];
    }
  }

  /** The changeset from one snapshot to another. Equal subtrees and equal chunks are skipped. */
  method DiffDir(from: Option<Chunk>, to: Option<Chunk>) returns (out: Changeset)
    requires ShapedDir(from) && ShapedDir(to)
    ensures Proper(out)
    ensures OrderedDir(from) && OrderedDir(to) ==> Differs(from, to, out)
    decreases WeightDir(from) + WeightDir(to), 1
  {
    hide Shaped, Leaves, Items, Sorted, Ordered, Read, Current, Entry, DiffersIn, Drawn, Exactly;
    out := map[];
    if from == to {
      return;
    }
    var diffs := DiffItems(from, to);
    ghost var ordered := OrderedDir(from) && OrderedDir(to);
    if ordered {
      OrderedItems(from);
      OrderedItems(to);
      NothingDiffers(from, to);
    }
    for i := 0 to |diffs|
      invariant Proper(out)
      invariant ordered ==> DiffersIn(from, to, diffs[..i], out)
    {
      DrawnOne(Items(from), Items(to), diffs, i);
      var more := DiffName(from, to, diffs[i]);
      if ordered {
        ExactOne(from, to, diffs, i);
        DiffersMore(from, to, diffs[..i], diffs[i], out, more);
        assert diffs[..i + 1] == diffs[..i] + [diffs[i]];
      }
      out := out + more;
    }
    if ordered {
      assert diffs[..|diffs|] == diffs;
      AllDiffers(from, to, diffs, out);
    }
  }

  lemma {:induction false} OrderedItems(dir: Option<Chunk>)
    requires OrderedDir(dir)
    ensures Sorted(Items(dir))
  {
  }

  lemma {:induction false} NothingDiffers(from: Option<Chunk>, to: Option<Chunk>)
    ensures DiffersIn(from, to, [], map[])
  {
  }

  lemma {:induction false} DrawnOne(left: seq<Item>, right: seq<Item>, diffs: seq<ItemDiff>, i: nat)
    requires Drawn(left, right, diffs) && i < |diffs|
    ensures Drawn(left, right, [diffs[i]])
  {
    assert diffs[i] in diffs;
  }

  lemma {:induction false} ExactOne(from: Option<Chunk>, to: Option<Chunk>, diffs: seq<ItemDiff>, i: nat)
    requires Exactly(Items(from), Items(to), diffs) && i < |diffs|
    ensures diffs[i].before == Current(from, diffs[i].name) && diffs[i].after == Current(to, diffs[i].name)
  {
    assert diffs[i] in diffs;
    CurrentItems(from, diffs[i].name);
    CurrentItems(to, diffs[i].name);
  }

  lemma {:induction false} DiffersMore(from: Option<Chunk>, to: Option<Chunk>, done: seq<ItemDiff>, d: ItemDiff,
      out: Changeset, more: Changeset)
    requires DiffersIn(from, to, done, out) && DiffersIn(from, to, [d], more)
    ensures DiffersIn(from, to, done + [d], out + more)
  {
    hide Read, Named;
    forall name ensures Named(done + [d], name) <==> Named(done, name) || Named([d], name)
    {
      NamedMore(done, d, name);
    }
  }

  lemma {:induction false} NamedMore(done: seq<ItemDiff>, d: ItemDiff, name: Name)
    ensures Named(done + [d], name) <==> Named(done, name) || Named([d], name)
  {
    assert forall e :: e in done + [d] <==> e in done || e in [d];
  }

  lemma {:induction false} AllDiffers(from: Option<Chunk>, to: Option<Chunk>, diffs: seq<ItemDiff>, out: Changeset)
    requires Exactly(Items(from), Items(to), diffs)
    requires DiffersIn(from, to, diffs, out)
    ensures Differs(from, to, out)
  {
    hide Read, Items, Entry, Current;
    forall p | Read(from, p) != Read(to, p) ensures p in out
    {
      ReadEmpty(from);
      ReadEmpty(to);
      var name, rest := p[0], p[1..];
      assert p == [name] + rest;
      SeenBelow(from, name, rest);
      SeenBelow(to, name, rest);
      CurrentItems(from, name);
      CurrentItems(to, name);
      assert Named(diffs, name);
    }
  }
}
