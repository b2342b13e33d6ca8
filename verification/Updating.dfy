/**
 Incremental update of one directory (src/tree.rs): only the chunks an edit touches are re-cut,
 and the result is the root that `Build` gives for the edited items.
 */
module Updating {
  import opened Names
  import opened Chunks
  import opened Levels
  import opened Seeking

  type Changes = map<Name, Option<Item>>

  /** `out` turns the summaries of `prior` into the summaries of `now`. */
  ghost predicate Reflects(out: Changes, prior: seq<Chunk>, now: seq<Chunk>) {
    forall x: Item :: x in Summaries(now) <==> (if x.name in out then out[x.name] == Some(x) else x in Summaries(prior))
  }

  /** `out` extends `before` by removing the chunks `gone` and then adding the items `added`. */
  ghost predicate Extends(before: Changes, out: Changes, gone: seq<Chunk>, added: seq<Item>) {
    && (forall x :: x in added ==> x.name in out && out[x.name] == Some(x))
    && (forall c :: 0 <= c < |gone| ==> Last(gone[c]) in out)
    && (forall n :: n in before ==> n in out)
    && (forall n :: n in out ==>
          || (exists x :: x in added && x.name == n)
          || (out[n] == None && exists c :: 0 <= c < |gone| && Last(gone[c]) == n)
          || (n in before && out[n] == before[n]))
  }

  /** Names already dealt with before chunk `s` end at the chunk before it. */
  ghost predicate Behind(chunks: seq<Chunk>, s: nat, n: Name)
    requires s <= |chunks|
  {
    s > 0 && AtMost(n, Last(chunks[s - 1]))
  }

  /** Every recorded item is filed under its own name. */
  ghost predicate NamesKept(changes: Changes) {
    forall n :: n in changes && changes[n].Some? ==> changes[n].value.name == n
  }

  lemma {:induction false} ExtendsNames(before: Changes, out: Changes, gone: seq<Chunk>, added: seq<Item>)
    requires NamesKept(before) && Extends(before, out, gone, added)
    ensures NamesKept(out)
  {
  }

  lemma {:induction false} SummariesConcat(a: seq<Chunk>, c: seq<Chunk>)
    ensures Summaries(a + c) == Summaries(a) + Summaries(c)
  {
  }

  /** The names behind chunk `s` are exactly those of the chunks before it. */
  lemma {:induction false} BehindSplit(chunks: seq<Chunk>, s: nat)
    requires Sorted(Summaries(chunks)) && s <= |chunks|
    ensures forall c :: 0 <= c < |chunks| ==> (Behind(chunks, s, Last(chunks[c])) <==> c < s)
  {
    var all := Summaries(chunks);
    forall c | 0 <= c < |chunks| ensures Behind(chunks, s, Last(chunks[c])) <==> c < s
    {
      if 0 < s {
        assert c < s - 1 ==> Less(all[c].name, all[s - 1].name);
        assert s <= c ==> Less(all[s - 1].name, all[c].name);
      }
    }
  }

  /** One name at a time: what a group's changes do to the settled items `kept` and to its own. */
  lemma {:induction false} ReflectsOne(before: Changes, out: Changes, prior: seq<Item>, gone: seq<Item>,
      now: seq<Item>, added: seq<Item>, x: Item, low: bool)
    requires x in now <==> (if x.name in before then before[x.name] == Some(x) else x in prior)
    requires if low then x !in gone && x !in added else x !in prior && x !in now && x.name !in before
    requires x in added ==> x.name in out && out[x.name] == Some(x)
    requires x in gone ==> x.name in out
    requires low && x.name in before ==> x.name in out
    requires x.name in out ==>
          || (!low && exists y :: y in added && y.name == x.name)
          || (!low && out[x.name] == None)
          || (x.name in before && out[x.name] == before[x.name])
    requires forall y :: y in added && y.name == x.name ==> x.name in out && out[x.name] == Some(y)
    ensures (x in now || x in added) <==> (if x.name in out then out[x.name] == Some(x) else x in prior || x in gone)
  {
  }

  /** As `ReflectsOne`, for every item; `low` holds the settled names. */
  lemma {:induction false} ReflectsAll(before: Changes, out: Changes, prior: seq<Item>, gone: seq<Item>,
      now: seq<Item>, added: seq<Item>, low: iset<Name>)
    requires forall x: Item :: x in now <==> (if x.name in before then before[x.name] == Some(x) else x in prior)
    requires forall x :: x in prior || x in now ==> x.name in low
    requires forall x :: x in gone || x in added ==> x.name !in low
    requires forall n :: n in before ==> n in low && n in out
    requires forall x :: x in gone ==> x.name in out
    requires forall x :: x in added ==> x.name in out && out[x.name] == Some(x)
    requires forall n :: n in out ==>
          || (n !in low && ((exists x :: x in added && x.name == n) || out[n] == None))
          || (n in before && out[n] == before[n])
    ensures forall x: Item :: (x in now || x in added) <==>
      (if x.name in out then out[x.name] == Some(x) else x in prior || x in gone)
  {
    forall x: Item ensures (x in now || x in added) <==>
      (if x.name in out then out[x.name] == Some(x) else x in prior || x in gone)
    {
      ReflectsOne(before, out, prior, gone, now, added, x, x.name in low);
    }
  }

  ghost function BehindNames(chunks: seq<Chunk>, s: nat): iset<Name>
    requires s <= |chunks|
  {
    iset n | Behind(chunks, s, n)
  }

  lemma {:induction false} SummaryNames(chunks: seq<Chunk>, s: nat, e: nat)
    requires s <= e <= |chunks| && Sorted(Summaries(chunks))
    ensures forall x :: x in Summaries(chunks[..s]) ==> x.name in BehindNames(chunks, s)
    ensures forall x :: x in Summaries(chunks[s..e]) ==> x.name !in BehindNames(chunks, s)
    ensures forall c :: 0 <= c < e - s ==> Last(chunks[s..e][c]) !in BehindNames(chunks, s)
    ensures forall x :: x in Summaries(chunks[s..e]) ==> exists c :: 0 <= c < e - s && Last(chunks[s..e][c]) == x.name
    ensures Summaries(chunks[..e]) == Summaries(chunks[..s]) + Summaries(chunks[s..e])
  {
    BehindSplit(chunks, s);
    hide Behind, Sorted, Last;
    assert chunks[..s] + chunks[s..e] == chunks[..e];
    SummariesConcat(chunks[..s], chunks[s..e]);
  }

  lemma {:induction false} ReflectsGroup(before: Changes, out: Changes, chunks: seq<Chunk>, s: nat, e: nat,
      now: seq<Chunk>, group: seq<Chunk>)
    requires s <= e <= |chunks| && Sorted(Summaries(chunks)) && Sorted(Summaries(group))
    requires Reflects(before, chunks[..s], now)
    requires Extends(before, out, chunks[s..e], Summaries(group))
    requires forall n :: n in before ==> Behind(chunks, s, n)
    requires forall x :: x in Summaries(now) ==> Behind(chunks, s, x.name)
    requires forall x :: x in Summaries(group) ==> !Behind(chunks, s, x.name)
    ensures Reflects(out, chunks[..e], now + group)
  {
    var low := BehindNames(chunks, s);
    SummaryNames(chunks, s, e);
    SummariesConcat(now, group);
    hide Behind, Sorted, Last, Summaries;
    ReflectsAll(before, out, Summaries(chunks[..s]), Summaries(chunks[s..e]), Summaries(now), Summaries(group), low);
  }

  lemma {:induction false} ReflectsSkip(out: Changes, chunks: seq<Chunk>, k: nat, s: nat, now: seq<Chunk>)
    requires k <= s <= |chunks| && Sorted(Summaries(chunks))
    requires Reflects(out, chunks[..k], now)
    requires forall n :: n in out ==> Behind(chunks, k, n)
    ensures Reflects(out, chunks[..s], now + chunks[k..s])
  {
    SummaryNames(chunks, k, s);
    SummariesConcat(now, chunks[k..s]);
    hide Behind, Sorted, Last, Summaries;
    assert forall x :: x in Summaries(chunks[k..s]) ==> x.name !in out;
  }

  // ------------------------------------------------------------------------- merging one chunk

  /** The next merged element is item `i`: it comes before every remaining edit. */
  ghost predicate TakesItem(items: seq<Item>, i: nat, edits: seq<Edit>, next: nat) {
    i < |items| && (next < |edits| ==> Less(items[i].name, edits[next].name))
  }

  /** The next merged element is edit `next`: it comes no later than every remaining item. */
  ghost predicate TakesEdit(items: seq<Item>, i: nat, edits: seq<Edit>, next: nat) {
    next < |edits| && (i < |items| ==> AtMost(edits[next].name, items[i].name))
  }

  lemma {:induction false} TakeItem(items: seq<Item>, i: nat, edits: seq<Edit>, next: nat)
    requires next <= |edits| && TakesItem(items, i, edits, next)
    ensures Edited(items[i..], edits[next..]) == [items[i]] + Edited(items[i + 1..], edits[next..])
  {
    if next < |edits| {
      LessTotal(items[i].name, edits[next].name);
    }
    assert items[i..][1..] == items[i + 1..];
    assert items[i..] == [items[i]] + items[i + 1..];
  }

  lemma {:induction false} TakeEdit(items: seq<Item>, i: nat, edits: seq<Edit>, next: nat)
    requires i <= |items| && TakesEdit(items, i, edits, next)
    ensures var j := if i < |items| && edits[next].name == items[i].name then i + 1 else i;
            Edited(items[i..], edits[next..]) == Placed(edits[next]) + Edited(items[j..], edits[next + 1..])
  {
    assert edits[next..][1..] == edits[next + 1..];
    if i < |items| {
      assert items[i..][1..] == items[i + 1..];
    } else {
      assert items[i..] == [];
    }
  }

  /** Merging takes a run of items that all come before every remaining edit. */
  lemma {:induction false} TakeRun(items: seq<Item>, i: nat, j: nat, edits: seq<Edit>, next: nat)
    requires i <= j <= |items| && next <= |edits|
    requires next < |edits| ==> forall k :: i <= k < j ==> Less(items[k].name, edits[next].name)
    ensures Edited(items[i..], edits[next..]) == items[i..j] + Edited(items[j..], edits[next..])
    decreases j - i
  {
    hide Edited, Rank;
    if i < j {
      TakeItem(items, i, edits, next);
      TakeRun(items, i + 1, j, edits, next);
      assert items[i..j] == [items[i]] + items[i + 1..j];
    }
  }

  function Listed(item: Option<Item>): seq<Item> {
    if item.Some? then [item.value] else []
  }

  /** One step of the merge: `item` is placed and the positions move from (i, next) to (i', next'). */
  ghost predicate Steps(items: seq<Item>, i: nat, edits: seq<Edit>, next: nat, item: Option<Item>, i': nat, next': nat)
  {
    || (TakesItem(items, i, edits, next) && item == Some(items[i]) && i' == i + 1 && next' == next)
    || (TakesEdit(items, i, edits, next) && item == edits[next].item && next' == next + 1
          && i' == if i < |items| && edits[next].name == items[i].name then i + 1 else i)
  }

  lemma {:induction false} StepMerges(items: seq<Item>, i: nat, edits: seq<Edit>, next: nat, item: Option<Item>,
      i': nat, next': nat)
    requires i <= |items| && next <= |edits| && Steps(items, i, edits, next, item, i', next')
    ensures i' <= |items| && next' <= |edits|
    ensures Edited(items[i..], edits[next..]) == Listed(item) + Edited(items[i'..], edits[next'..])
  {
    if TakesItem(items, i, edits, next) && item == Some(items[i]) && i' == i + 1 && next' == next {
      TakeItem(items, i, edits, next);
    } else {
      TakeEdit(items, i, edits, next);
    }
  }

  /** Chooses the next item or edit inside a chunk, up to the chunk's end. */
  method MergeStep(ghost items: seq<Item>, ghost at: nat, chunk: Chunk, i: nat, rightmost: bool, edits: seq<Edit>,
      next: nat)
    returns (done: bool, item: Option<Item>, i': nat, next': nat)
    requires Within(chunk, items, at) && i <= |chunk.items| && next <= |edits|
    requires rightmost ==> at + |chunk.items| == |items|
    requires forall e :: 0 <= e < |edits| && edits[e].item.Some? ==> edits[e].item.value.name == edits[e].name
    ensures done <==> i == |chunk.items| && (next == |edits| || (!rightmost && Less(Last(chunk), edits[next].name)))
    ensures !done ==> i' <= |chunk.items| && i' + next' > i + next && i <= i' && next <= next'
    ensures !done ==> Steps(items, at + i, edits, next, item, at + i', next')
    ensures !done && !rightmost && item.Some? ==> AtMost(item.value.name, Last(chunk))
  {
    done, item, i', next' := false, None, i, next;
    var edit := if next < |edits| && (rightmost || AtMost(edits[next].name, Last(chunk))) then Some(edits[next])
      else None;
    if next < |edits| {
      LessTotal(edits[next].name, Last(chunk));
    }
    if i == |chunk.items| && edit == None {
      done := true;
    } else if i < |chunk.items| && edit.Some? && AtMost(edit.value.name, chunk.items[i].name) {
      EditNotAfter(edit.value.name, chunk, items, at, i);
      i' := if edit.value.name == chunk.items[i].name then i + 1 else i;
      next', item := next + 1, edit.value.item;
    } else if i < |chunk.items| {
      EditNotAfter(chunk.items[i].name, chunk, items, at, i);
      if next < |edits| {
        ItemBefore(edits[next].name, chunk, items, at, i);
      }
      i', item := i + 1, Some(chunk.items[i]);
    } else {
      if at + i < |items| {
        EditBeforeNext(edit.value.name, chunk, items, at);
      }
      next', item := next + 1, edit.value.item;
    }
  }

  ghost predicate Within(chunk: Chunk, items: seq<Item>, at: nat) {
    && Sorted(items) && chunk.items != [] && at + |chunk.items| <= |items|
    && forall m :: 0 <= m < |chunk.items| ==> chunk.items[m] == items[at + m]
  }

  lemma {:induction false} EditNotAfter(name: Name, chunk: Chunk, items: seq<Item>, at: nat, i: nat)
    requires Within(chunk, items, at) && i < |chunk.items|
    requires AtMost(name, chunk.items[i].name)
    ensures AtMost(name, items[at + i].name) && (name == items[at + i].name <==> name == chunk.items[i].name)
    ensures AtMost(name, Last(chunk)) && AtMost(chunk.items[i].name, Last(chunk))
  {
    if i < |chunk.items| - 1 {
      assert Less(items[at + i].name, items[at + |chunk.items| - 1].name);
      if name != chunk.items[i].name {
        LessTransitive(name, chunk.items[i].name, Last(chunk));
      }
    }
  }

  lemma {:induction false} ItemBefore(name: Name, chunk: Chunk, items: seq<Item>, at: nat, i: nat)
    requires Within(chunk, items, at) && i < |chunk.items|
    requires !AtMost(name, chunk.items[i].name) || Less(Last(chunk), name)
    ensures Less(items[at + i].name, name)
  {
    LessTotal(name, chunk.items[i].name);
    if i < |chunk.items| - 1 && Less(Last(chunk), name) {
      assert Less(items[at + i].name, items[at + |chunk.items| - 1].name);
      LessTransitive(chunk.items[i].name, Last(chunk), name);
    }
  }

  lemma {:induction false} EditBeforeNext(name: Name, chunk: Chunk, items: seq<Item>, at: nat)
    requires Within(chunk, items, at) && at + |chunk.items| < |items|
    requires AtMost(name, Last(chunk))
    ensures Less(name, items[at + |chunk.items|].name)
  {
    var end := at + |chunk.items|;
    assert Less(items[end - 1].name, items[end].name);
    if name != Last(chunk) {
      LessTransitive(name, Last(chunk), items[end].name);
    }
  }

  /**
   `merged` has been pushed: finished chunks `base + group`, summarised from `group` on in `added`, and `open`
   not yet ended.
   */
  ghost predicate Pushed(b: Boundary, level: nat, merged: seq<Item>, base: seq<Chunk>, group: seq<Chunk>,
      added: seq<Item>, open: seq<Item>)
  {
    && added == Summaries(group)
    && PushAll(b, level, START, merged) == Cutting(base + group, open)
  }

  method PushMerged(b: Boundary, cut: Chunker, item: Option<Item>, added: seq<Item>, ghost merged: seq<Item>,
      ghost base: seq<Chunk>, ghost group: seq<Chunk>)
    returns (added': seq<Item>, ghost group': seq<Chunk>)
    requires Pushed(b, cut.level, merged, base, group, added, cut.items) && cut.Valid()
    modifies cut
    ensures Pushed(b, cut.level, merged + Listed(item), base, group', added', cut.items) && cut.Valid()
  {
    added', group' := added, group;
    if item.Some? {
      PushOne(b, cut.level, START, merged, item.value);
      ghost var full := Chunk(cut.level, cut.items + [item.value]);
      assert base + (group + [full]) == base + group + [full];
      var finished := cut.Push(b, item.value);
      if finished.Some? {
        added' := added + [Summary(finished.value)];
        group' := group + [finished.value];
      }
    } else {
      assert merged + Listed(item) == merged;
    }
  }

  /** Every name merged after the first `from` is at most `end`. */
  ghost predicate EndsBy(merged: seq<Item>, from: nat, end: Name) {
    forall i :: from <= i < |merged| ==> AtMost(merged[i].name, end)
  }

  /** `merged` is the part of `target` before item `i` and edit `next`. */
  ghost predicate Merges(target: seq<Item>, merged: seq<Item>, items: seq<Item>, i: nat, edits: seq<Edit>, next: nat) {
    i <= |items| && next <= |edits| && target == merged + Edited(items[i..], edits[next..])
  }

  lemma {:induction false} MergesStep(target: seq<Item>, merged: seq<Item>, items: seq<Item>, i: nat,
      edits: seq<Edit>, next: nat, item: Option<Item>, i': nat, next': nat)
    requires Merges(target, merged, items, i, edits, next)
    requires Steps(items, i, edits, next, item, i', next')
    ensures Merges(target, merged + Listed(item), items, i', edits, next')
  {
    StepMerges(items, i, edits, next, item, i', next');
    var rest := Edited(items[i'..], edits[next'..]);
    assert merged + (Listed(item) + rest) == (merged + Listed(item)) + rest;
  }

  /** Merges and pushes one item or edit, or finds that the chunk is done. */
  method MergeOne(ghost target: seq<Item>, ghost items: seq<Item>, ghost at: nat, b: Boundary, chunk: Chunk, i: nat,
      rightmost: bool, edits: seq<Edit>, next: nat, cut: Chunker,
                  added: seq<Item>, ghost merged: seq<Item>, ghost base: seq<Chunk>, ghost group: seq<Chunk>)
    returns (done: bool, i': nat, next': nat, added': seq<Item>, ghost merged': seq<Item>, ghost group': seq<Chunk>)
    requires Within(chunk, items, at) && EditsSorted(edits) && i <= |chunk.items| && next <= |edits|
    requires rightmost ==> at + |chunk.items| == |items|
    requires Pushed(b, cut.level, merged, base, group, added, cut.items) && cut.Valid()
    requires Merges(target, merged, items, at + i, edits, next)
    modifies cut
    ensures Pushed(b, cut.level, merged', base, group', added', cut.items) && cut.Valid()
    ensures i' <= |chunk.items| && next <= next' <= |edits|
    ensures Merges(target, merged', items, at + i', edits, next')
    ensures !done ==> i' + next' > i + next
    ensures done ==>
      i' == |chunk.items| && next' == next && (next == |edits| || (!rightmost && Less(Last(chunk), edits[next].name)))
    ensures merged <= merged' && (!rightmost ==> EndsBy(merged', |merged|, Last(chunk)))
  {
    hide Edited, PushAll, Sorted, Rank;
    var item;
    done, item, i', next' := MergeStep(items, at, chunk, i, rightmost, edits, next);
    merged' := merged;
    if done {
      i', next', added', group' := i, next, added, group;
    } else {
      MergesStep(target, merged, items, at + i, edits, next, item, at + i', next');
      added', group' := PushMerged(b, cut, item, added, merged, base, group);
      merged' := merged + Listed(item);
    }
  }

  /** Merges the edits that fall in one chunk into its items and cuts them. */
  method MergeChunk(ghost target: seq<Item>, ghost items: seq<Item>, ghost at: nat, b: Boundary, chunk: Chunk,
      rightmost: bool, edits: seq<Edit>, start: nat, cut: Chunker, added: seq<Item>,
                    ghost merged: seq<Item>, ghost base: seq<Chunk>, ghost group: seq<Chunk>)
    returns (next: nat, added': seq<Item>, ghost merged': seq<Item>, ghost group': seq<Chunk>)
    requires Within(chunk, items, at) && EditsSorted(edits) && start <= |edits|
    requires rightmost ==> at + |chunk.items| == |items|
    requires Pushed(b, cut.level, merged, base, group, added, cut.items) && cut.Valid()
    requires Merges(target, merged, items, at, edits, start)
    modifies cut
    ensures start <= next <= |edits| && Pushed(b, cut.level, merged', base, group', added', cut.items) && cut.Valid()
    ensures Merges(target, merged', items, at + |chunk.items|, edits, next)
    ensures if rightmost then next == |edits| else next < |edits| ==> Less(Last(chunk), edits[next].name)
    ensures merged <= merged' && (!rightmost ==> EndsBy(merged', |merged|, Last(chunk)))
  {
    hide Edited, PushAll, Less, Sorted, EditsSorted, Within, Merges;
    var i, done := 0, false;
    next, added', merged', group' := start, added, merged, group;
    while !done
      invariant 0 <= i <= |chunk.items| && start <= next <= |edits|
      invariant Pushed(b, cut.level, merged', base, group', added', cut.items) && cut.Valid()
      invariant Merges(target, merged', items, at + i, edits, next)
      invariant merged <= merged' && (!rightmost ==> EndsBy(merged', |merged|, Last(chunk)))
      invariant done ==> i == |chunk.items| && (next == |edits| || (!rightmost && Less(Last(chunk), edits[next].name)))
      decreases !done, |chunk.items| - i + |edits| - next
    {
      ghost var merged0 := merged';
      done, i, next, added', merged', group' :=
        MergeOne(target, items, at, b, chunk, i, rightmost, edits, next, cut, added', merged', base, group');
      assert forall m :: |merged| <= m < |merged0| ==> merged'[m] == merged0[m];
    }
  }

  // ------------------------------------------------------------------------- re-cutting a group

  ghost predicate AllBehind(chunks: seq<Chunk>, k: nat, items: seq<Item>)
    requires k <= |chunks|
  {
    forall i :: 0 <= i < |items| ==> Behind(chunks, k, items[i].name)
  }

  /** The level's old chunks: sorted, none empty, and canonical. */
  ghost predicate IsLevel(b: Boundary, level: nat, chunks: seq<Chunk>) {
    && AllFilled(chunks) && Sorted(Flat(chunks)) && chunks != []
    && chunks == Cut(b, level, Flat(chunks))
  }

  /** Everything before chunk `k` and edit `next` is merged, cut into `base` at a boundary, and recorded in `out`. */
  ghost predicate Settled(b: Boundary, level: nat, target: seq<Item>, chunks: seq<Chunk>, edits: seq<Edit>,
                          k: nat, next: nat, merged: seq<Item>, base: seq<Chunk>, out: Changes)
  {
    && k < |chunks| && Merges(target, merged, Flat(chunks), Offset(chunks, k), edits, next)
    && PushAll(b, level, START, merged) == Cutting(base, [])
    && Reflects(out, chunks[..k], base)
    && (forall n :: n in out ==> Behind(chunks, k, n))
    && AllBehind(chunks, k, merged)
    && (k > 0 && next < |edits| ==> Less(Last(chunks[k - 1]), edits[next].name))
    && NamesKept(out)
  }

  lemma {:induction false} BehindLater(chunks: seq<Chunk>, k: nat, e: nat, n: Name)
    requires AllFilled(chunks) && Sorted(Flat(chunks)) && k <= e <= |chunks| && Behind(chunks, k, n)
    ensures Behind(chunks, e, n)
  {
    if k < e {
      LastsAscend(chunks, k - 1, e - 1);
      if n != Last(chunks[k - 1]) {
        LessTransitive(n, Last(chunks[k - 1]), Last(chunks[e - 1]));
      }
    }
  }

  /** The chunks finished so far end with merged names. */
  lemma {:induction false} FinishedNames(b: Boundary, level: nat, merged: seq<Item>, c: nat)
    requires c < |PushAll(b, level, START, merged).done|
    ensures exists i :: 0 <= i < |merged| && merged[i].name == Last(PushAll(b, level, START, merged).done[c])
  {
    var s := PushAll(b, level, START, merged);
    PushAllKeeps(b, level, merged);
    PushAllPairs(b, level, merged);
    LastName(s.done, c);
    var end := Offset(s.done, c + 1);
    assert merged[end - 1] == Flat(s.done)[end - 1];
  }

  /** Seeking the next edit never goes back before the settled chunks. */
  lemma {:induction false} SoughtAhead(chunks: seq<Chunk>, k: nat, s: nat, name: Name)
    requires AllFilled(chunks) && Sorted(Flat(chunks)) && k < |chunks|
    requires k > 0 ==> Less(Last(chunks[k - 1]), name)
    requires IsSought(chunks, s, name, false)
    ensures k <= s
  {
    if s < k - 1 {
      LastsAscend(chunks, s, k - 1);
      LessTransitive(Last(chunks[s]), Last(chunks[k - 1]), name);
    }
  }

  lemma {:induction false} FlatSlice(chunks: seq<Chunk>, k: nat, s: nat)
    requires AllFilled(chunks) && k <= s <= |chunks|
    ensures Offset(chunks, k) <= Offset(chunks, s) <= |Flat(chunks)|
    ensures Flat(chunks)[Offset(chunks, k)..Offset(chunks, s)] == Flat(chunks[k..s])
  {
    OffsetGrows(chunks, k, s);
    FlatSplit(chunks, s);
    var left := chunks[..s];
    FlatSplit(left, k);
    assert left[..k] == chunks[..k] && left[k..] == chunks[k..s];
    var items, i, j := Flat(chunks), Offset(chunks, k), Offset(chunks, s);
    assert items[i..j] == items[..j][i..];
  }

  lemma {:induction false} MergesAhead(target: seq<Item>, chunks: seq<Chunk>, edits: seq<Edit>, k: nat, next: nat,
      merged: seq<Item>, s: nat)
    requires AllFilled(chunks) && Sorted(Flat(chunks)) && k <= s < |chunks|
    requires Merges(target, merged, Flat(chunks), Offset(chunks, k), edits, next)
    requires next < |edits| && IsSought(chunks, s, edits[next].name, false)
    ensures Merges(target, merged + Flat(chunks[k..s]), Flat(chunks), Offset(chunks, s), edits, next)
  {
    hide Flat, Sorted, Edited, Rank, IsSought, AllFilled;
    FlatSlice(chunks, k, s);
    var items, i, j := Flat(chunks), Offset(chunks, k), Offset(chunks, s);
    PassedRun(chunks, k, s, edits[next].name);
    TakeRun(items, i, j, edits, next);
    var rest := Edited(items[j..], edits[next..]);
    assert merged + (items[i..j] + rest) == merged + items[i..j] + rest;
  }

  /** Every item before the sought chunk is below the name. */
  lemma {:induction false} PassedRun(chunks: seq<Chunk>, k: nat, s: nat, name: Name)
    requires AllFilled(chunks) && Sorted(Flat(chunks)) && k <= s < |chunks| && IsSought(chunks, s, name, false)
    ensures Offset(chunks, s) <= |Flat(chunks)|
    ensures forall m :: Offset(chunks, k) <= m < Offset(chunks, s) ==> Less(Flat(chunks)[m].name, name)
  {
    hide Flat, Sorted, Rank, Last, AllFilled;
    FlatSplit(chunks, s);
    assert chunks[..0] == [];
    FlatNone();
    forall m | Offset(chunks, k) <= m < Offset(chunks, s) ensures Less(Flat(chunks)[m].name, name)
    {
      PassedBefore(chunks, s - 1, m, name, false);
    }
  }

  lemma {:induction false} BehindAhead(chunks: seq<Chunk>, k: nat, merged: seq<Item>, s: nat)
    requires AllFilled(chunks) && Sorted(Flat(chunks)) && k <= s <= |chunks|
    requires AllBehind(chunks, k, merged)
    ensures AllBehind(chunks, s, merged + Flat(chunks[k..s]))
  {
    hide Flat, Rank;
    FlatSlice(chunks, k, s);
    var items, i, j := Flat(chunks), Offset(chunks, k), Offset(chunks, s);
    forall m | 0 <= m < |merged| ensures Behind(chunks, s, merged[m].name)
    {
      BehindLater(chunks, k, s, merged[m].name);
    }
    forall m | i <= m < j ensures Behind(chunks, s, items[m].name)
    {
      assert s > 0 by { assert chunks[..0] == []; }
      LastName(chunks, s - 1);
      assert m == j - 1 || Less(items[m].name, items[j - 1].name);
    }
    assert forall m :: |merged| <= m < |merged + Flat(chunks[k..s])| ==>
      (merged + Flat(chunks[k..s]))[m] == items[i + m - |merged|];
  }

  /** Chunks before the next edit's are kept as they are. */
  lemma {:induction false} SettleAhead(b: Boundary, level: nat, target: seq<Item>, chunks: seq<Chunk>, edits: seq<Edit>,
                      k: nat, next: nat, merged: seq<Item>, base: seq<Chunk>, out: Changes, s: nat)
    requires IsLevel(b, level, chunks) && k <= s
    requires Settled(b, level, target, chunks, edits, k, next, merged, base, out)
    requires next < |edits| && IsSought(chunks, s, edits[next].name, false)
    ensures Settled(b, level, target, chunks, edits, s, next, merged + Flat(chunks[k..s]), base + chunks[k..s], out)
  {
    MergesAhead(target, chunks, edits, k, next, merged, s);
    BehindAhead(chunks, k, merged, s);
    PushAllConcat(b, level, START, merged, Flat(chunks[k..s]));
    CutMiddle(b, level, Flat(chunks), k, s, base);
    SummariesSorted(chunks);
    ReflectsSkip(out, chunks, k, s, base);
    forall n | n in out ensures Behind(chunks, s, n)
    {
      BehindLater(chunks, k, s, n);
    }
    assert s > 0 ==> Passed(Last(chunks[s - 1]), edits[next].name, false);
  }

  lemma {:induction false} SortedSlice(target: seq<Item>, pre: seq<Item>, mid: seq<Item>, post: seq<Item>)
    requires Sorted(target) && pre + mid + post <= target
    ensures |pre| <= |target| && Sorted(mid) && mid <= target[|pre|..]
  {
    var n := |pre|;
    assert forall i :: 0 <= i < |mid| ==> mid[i] == (pre + mid + post)[n + i] == target[n + i];
  }

  /** A re-cut group is sorted and lies wholly past the settled chunks. */
  lemma {:induction false} GroupPast(target: seq<Item>, chunks: seq<Chunk>, edits: seq<Edit>, s: nat, start: nat,
                            merged: seq<Item>, merged': seq<Item>, base: seq<Chunk>, group: seq<Chunk>, open: seq<Item>)
    requires AllFilled(chunks) && Sorted(Flat(chunks)) && EditsSorted(edits) && Sorted(target) && s < |chunks|
    requires Merges(target, merged, Flat(chunks), Offset(chunks, s), edits, start)
    requires s > 0 && start < |edits| ==> Less(Last(chunks[s - 1]), edits[start].name)
    requires merged <= merged' <= target
    requires Flat(base) == merged && Flat(base + group) + open == merged' && AllFilled(group)
    ensures Sorted(Summaries(group))
    ensures forall x :: x in Summaries(group) ==> !Behind(chunks, s, x.name)
  {
    FlatConcat(base, group);
    SortedSlice(target, merged, Flat(group), open);
    SummariesSorted(group);
    if s > 0 {
      var rest, edits' := Flat(chunks)[Offset(chunks, s)..], edits[start..];
      RestAbove(chunks, edits, s, start);
      EditedAbove(rest, edits', Last(chunks[s - 1]));
      assert target[|merged|..] == Edited(rest, edits');
      SummariesAbove(group, Last(chunks[s - 1]));
    }
  }

  lemma {:induction false} SummariesAbove(group: seq<Chunk>, name: Name)
    requires AllFilled(group) && Above(name, Flat(group))
    ensures forall x :: x in Summaries(group) ==> !AtMost(x.name, name)
  {
    forall c | 0 <= c < |group| ensures !AtMost(Last(group[c]), name)
    {
      LastName(group, c);
      assert Less(name, Flat(group)[Offset(group, c + 1) - 1].name);
    }
  }

  lemma {:induction false} RestAbove(chunks: seq<Chunk>, edits: seq<Edit>, s: nat, start: nat)
    requires AllFilled(chunks) && Sorted(Flat(chunks)) && EditsSorted(edits) && 0 < s <= |chunks| && start <= |edits|
    requires start < |edits| ==> Less(Last(chunks[s - 1]), edits[start].name)
    ensures Offset(chunks, s) <= |Flat(chunks)|
    ensures var rest := Flat(chunks)[Offset(chunks, s)..]; Sorted(rest) && Above(Last(chunks[s - 1]), rest)
    ensures EditsSorted(edits[start..])
    ensures forall i :: 0 <= i < |edits[start..]| ==> Less(Last(chunks[s - 1]), edits[start..][i].name)
  {
    LastName(chunks, s - 1);
    forall i | start <= i < |edits| ensures Less(Last(chunks[s - 1]), edits[i].name)
    {
      if start < i {
        LessTransitive(Last(chunks[s - 1]), edits[start].name, edits[i].name);
      }
    }
  }

  /** Where chunk `k`'s items sit in its level. */
  lemma {:induction false} ChunkWithin(chunks: seq<Chunk>, k: nat)
    requires AllFilled(chunks) && Sorted(Flat(chunks)) && k < |chunks|
    ensures Within(chunks[k], Flat(chunks), Offset(chunks, k))
    ensures Offset(chunks, k + 1) == Offset(chunks, k) + |chunks[k].items|
    ensures k == |chunks| - 1 ==> Offset(chunks, k + 1) == |Flat(chunks)|
  {
    FlatNext(chunks, k);
    LastOffset(chunks, k);
    forall m | 0 <= m < |chunks[k].items| ensures chunks[k].items[m] == Flat(chunks)[Offset(chunks, k) + m]
    {
      ItemAt(chunks, k, m);
    }
  }

  method AddAll(before: Changes, added: seq<Item>) returns (out: Changes)
    requires Sorted(added)
    ensures forall x :: x in added ==> x.name in out && out[x.name] == Some(x)
    ensures forall n :: n in before ==> n in out
    ensures forall n :: n in out ==> (exists x :: x in added && x.name == n) || (n in before && out[n] == before[n])
  {
    ByteOrder();
    out := before;
    for i := 0 to |added|
      invariant forall m :: 0 <= m < i ==> added[m].name in out && out[added[m].name] == Some(added[m])
      invariant forall n :: n in before ==> n in out
      invariant forall n :: n in out ==>
        (exists m :: 0 <= m < i && added[m].name == n) || (n in before && out[n] == before[n])
    {
      out := out[added[i].name := Some(added[i])];
    }
  }

  /** The removals of a group: its old chunks' last names, over what was recorded before. */
  ghost predicate Removes(before: Changes, out: Changes, gone: seq<Chunk>) {
    && (forall c :: 0 <= c < |gone| ==> Last(gone[c]) in out)
    && (forall n :: n in before ==> n in out)
    && (forall n :: n in out ==>
          || (out[n] == None && exists c :: 0 <= c < |gone| && Last(gone[c]) == n)
          || (n in before && out[n] == before[n]))
  }

  lemma {:induction false} NextChunk(chunks: seq<Chunk>, k: nat, c: nat)
    requires AllFilled(chunks) && Sorted(Flat(chunks)) && k < |chunks| - 1
    requires IsSought(chunks, c, Last(chunks[k]), true) && !Passed(Last(chunks[c]), Last(chunks[k]), true)
    ensures c == k + 1
  {
    if c > k + 1 {
      assert Passed(Last(chunks[k + 1]), Last(chunks[k]), true);
    }
    if k != c {
      LastsAscend(chunks, if k < c then k else c, if k < c then c else k);
    }
    LastsAscend(chunks, k, k + 1);
    ByteOrder();
  }

  lemma {:induction false} NextExists(chunks: seq<Chunk>, k: nat)
    requires AllFilled(chunks) && Sorted(Flat(chunks)) && k < |chunks| - 1
    ensures !AllPassed(chunks, Last(chunks[k]))
  {
    LastsAscend(chunks, k, k + 1);
    LessTotal(Last(chunks[k]), Last(chunks[k + 1]));
  }

  lemma {:induction false} BehindNext(chunks: seq<Chunk>, k: nat, merged: seq<Item>, merged': seq<Item>)
    requires AllFilled(chunks) && Sorted(Flat(chunks)) && k < |chunks|
    requires AllBehind(chunks, k, merged) && merged <= merged' && EndsBy(merged', |merged|, Last(chunks[k]))
    ensures AllBehind(chunks, k + 1, merged')
  {
    forall i | 0 <= i < |merged'| ensures Behind(chunks, k + 1, merged'[i].name)
    {
      if i < |merged| {
        assert merged'[i] == merged[i];
        BehindLater(chunks, k, k + 1, merged[i].name);
      }
    }
  }

  /** The recorded changes of a finished group turn the old summaries into the new. */
  lemma {:induction false} GroupReflects(b: Boundary, level: nat, target: seq<Item>, chunks: seq<Chunk>,
      edits: seq<Edit>,
                                s: nat, start: nat, e: nat, merged: seq<Item>, merged': seq<Item>, base: seq<Chunk>,
                                  group: seq<Chunk>, open: seq<Item>,
                                before: Changes, out: Changes)
    requires IsLevel(b, level, chunks) && EditsSorted(edits) && target == Edited(Flat(chunks), edits)
    requires Settled(b, level, target, chunks, edits, s, start, merged, base, before)
    requires s < e <= |chunks| && merged <= merged' <= target
    requires Flat(base + group) + open == merged' && AllFilled(group)
    requires Extends(before, out, chunks[s..e], Summaries(group))
    ensures Reflects(out, chunks[..e], base + group)
  {
    hide Flat, Rank, Edited, PushAll, Cut;
    EditedSorted(Flat(chunks), edits);
    PushAllKeeps(b, level, merged);
    assert Flat(base) + [] == Flat(base);
    GroupPast(target, chunks, edits, s, start, merged, merged', base, group, open);
    SummariesSorted(chunks);
    forall c | 0 <= c < |base| ensures Behind(chunks, s, Last(base[c]))
    {
      FinishedNames(b, level, merged, c);
    }
    ReflectsGroup(before, out, chunks, s, e, base, group);
  }

  /** What re-cutting a group has done so far, up to chunk `k`. */
  ghost predicate Recutting(b: Boundary, level: nat, open: seq<Item>, target: seq<Item>, chunks: seq<Chunk>,
      edits: seq<Edit>, s: nat, k: nat, next: nat,
                            before: Changes, out: Changes, merged: seq<Item>, merged': seq<Item>, base: seq<Chunk>,
                              group: seq<Chunk>, added: seq<Item>)
  {
    && s <= k <= |chunks|
    && Pushed(b, level, merged', base, group, added, open)
    && Merges(target, merged', Flat(chunks), Offset(chunks, k), edits, next)
    && merged <= merged' && Removes(before, out, chunks[s..k])
  }

  /** Re-cuts one more chunk of a group. */
  method RecutChunk(b: Boundary, ghost target: seq<Item>, ghost chunks: seq<Chunk>, edits: seq<Edit>, chunk: Chunk,
      rightmost: bool, cut: Chunker,
                    ghost s: nat, ghost k: nat, next: nat, ghost before: Changes, out: Changes,
                    ghost merged: seq<Item>, ghost merged': seq<Item>, ghost base: seq<Chunk>,
                      ghost group: seq<Chunk>, added: seq<Item>)
    returns (next2: nat, out2: Changes, ghost merged2: seq<Item>, ghost group2: seq<Chunk>, added2: seq<Item>)
    requires AllFilled(chunks) && Sorted(Flat(chunks)) && EditsSorted(edits)
    requires k < |chunks| && chunk == chunks[k] && (rightmost <==> k == |chunks| - 1)
    requires Recutting(b, cut.level, cut.items, target, chunks, edits, s, k, next, before, out, merged, merged', base,
      group, added) && cut.Valid()
    requires AllBehind(chunks, k, merged')
    modifies cut
    ensures Recutting(b, cut.level, cut.items, target, chunks, edits, s, k + 1, next2, before, out2, merged, merged2,
      base, group2, added2) && cut.Valid()
    ensures next <= next2 <= |edits|
    ensures if rightmost then next2 == |edits| else next2 < |edits| ==> Less(Last(chunk), edits[next2].name)
    ensures !rightmost ==> AllBehind(chunks, k + 1, merged2)
  {
    hide Edited, PushAll, Sorted, Rank, Flat;
    out2 := out[Last(chunk) := None];
    assert chunks[s..k + 1] == chunks[s..k] + [chunk];
    RemovesNext(before, out, chunks[s..k], chunk);
    ChunkWithin(chunks, k);
    next2, added2, merged2, group2 :=
      MergeChunk(target, Flat(chunks), Offset(chunks, k), b, chunk, rightmost, edits, next, cut, added, merged', base,
      group);
    assert Merges(target, merged2, Flat(chunks), Offset(chunks, k + 1), edits, next2);
    assert Removes(before, out2, chunks[s..k + 1]);
    assert merged <= merged2;
    if !rightmost {
      BehindNext(chunks, k, merged', merged2);
    }
  }

  lemma {:induction false} RemovesNext(before: Changes, out: Changes, gone: seq<Chunk>, chunk: Chunk)
    requires Removes(before, out, gone)
    ensures Removes(before, out[Last(chunk) := None], gone + [chunk])
  {
    var gone' := gone + [chunk];
    assert gone'[|gone|] == chunk;
    assert forall c :: 0 <= c < |gone| ==> gone'[c] == gone[c];
  }

  /** The chunk that follows chunk `k` of a level. */
  method Following(ghost tower: seq<seq<Chunk>>, root: Chunk, level: nat, ghost chunks: seq<Chunk>, chunk: Chunk,
      ghost k: nat)
    returns (next: Chunk, rightmost: bool)
    requires IsTower(tower, root) && level <= root.level && chunks == tower[level]
    requires AllFilled(chunks) && Sorted(Flat(chunks)) && k < |chunks| - 1 && chunk == chunks[k]
    ensures next == chunks[k + 1] && (rightmost <==> k + 1 == |chunks| - 1)
  {
    NextExists(chunks, k);
    var following, c := Seek(tower, root, level, Last(chunk), true);
    NextChunk(chunks, k, c);
    next, rightmost := following.value.0, following.value.1;
  }

  /** Re-cuts chunk after chunk until a new boundary meets an old one, or to the end of the level. */
  method RecutRun(ghost tower: seq<seq<Chunk>>, root: Chunk, b: Boundary, ghost chunks: seq<Chunk>, edits: seq<Edit>,
      ghost target: seq<Item>, cut: Chunker,
                  first: Chunk, atEnd: bool, ghost s: nat, start: nat, before: Changes, ghost merged: seq<Item>,
                    ghost base: seq<Chunk>)
    returns (next: nat, out: Changes, added: seq<Item>, ghost e: nat, ghost merged': seq<Item>, ghost group: seq<Chunk>)
    requires IsTower(tower, root) && cut.level < root.level && chunks == tower[cut.level]
    requires AllFilled(chunks) && Sorted(Flat(chunks)) && EditsSorted(edits)
    requires s < |chunks| && first == chunks[s] && (atEnd <==> s == |chunks| - 1)
    requires Recutting(b, cut.level, cut.items, target, chunks, edits, s, s, start, before, before, merged, merged,
      base, [], []) && cut.Valid()
    requires AllBehind(chunks, s, merged)
    requires start < |edits| && (!atEnd ==> AtMost(edits[start].name, Last(first)))
    modifies cut
    ensures start < next <= |edits| && s < e <= |chunks|
    ensures Recutting(b, cut.level, cut.items, target, chunks, edits, s, e, next, before, out, merged, merged', base,
      group, added) && cut.Valid()
    ensures
      if e == |chunks| then next == |edits|
      else
        && cut.items == [] && AllBehind(chunks, e, merged')
        && (next < |edits| ==> Less(Last(chunks[e - 1]), edits[next].name))
  {
    hide Recutting, AllBehind, IsTower, Sorted, EditsSorted, Flat, Rank;
    var chunk, rightmost := first, atEnd;
    next, out, added, merged', group := start, before, [], merged, [];
    e := s;
    while true
      invariant s <= e < |chunks| && chunk == chunks[e] && (rightmost <==> e == |chunks| - 1)
      invariant start <= next <= |edits| && (e > s ==> next > start)
      invariant Recutting(b, cut.level, cut.items, target, chunks, edits, s, e, next, before, out, merged, merged',
        base, group, added) && cut.Valid()
      invariant AllBehind(chunks, e, merged')
      decreases |chunks| - e
    {
      next, out, merged', group, added :=
        RecutChunk(b, target, chunks, edits, chunk, rightmost, cut, s, e, next, before, out, merged, merged', base,
          group, added);
      e := e + 1;
      if rightmost || cut.items == [] {
        return;
      }
      chunk, rightmost := Following(tower, root, cut.level, chunks, chunk, e - 1);
    }
  }

  lemma {:induction false} RestEmpty(target: seq<Item>, merged: seq<Item>, items: seq<Item>, edits: seq<Edit>)
    requires Merges(target, merged, items, |items|, edits, |edits|)
    ensures target == merged
  {
    assert items[|items|..] == [] && edits[|edits|..] == [];
  }

  lemma {:induction false} MergesPrefix(target: seq<Item>, merged: seq<Item>, items: seq<Item>, i: nat,
      edits: seq<Edit>, next: nat)
    requires Merges(target, merged, items, i, edits, next)
    ensures merged <= target
  {
  }

  /** Removals and additions of one group, together. */
  lemma {:induction false} RemoveThenAdd(before: Changes, removed: Changes, out: Changes, gone: seq<Chunk>,
      added: seq<Item>)
    requires Removes(before, removed, gone)
    requires forall x :: x in added ==> x.name in out && out[x.name] == Some(x)
    requires forall n :: n in removed ==> n in out
    requires forall n :: n in out ==> (exists x :: x in added && x.name == n) || (n in removed && out[n] == removed[n])
    ensures Extends(before, out, gone, added)
  {
  }

  lemma {:induction false} ExtendsBehind(chunks: seq<Chunk>, s: nat, e: nat, before: Changes, out: Changes,
      group: seq<Chunk>)
    requires AllFilled(chunks) && Sorted(Flat(chunks)) && s <= e <= |chunks|
    requires Extends(before, out, chunks[s..e], Summaries(group))
    requires forall n :: n in before ==> Behind(chunks, s, n)
    requires forall c :: 0 <= c < |group| ==> Behind(chunks, e, Last(group[c]))
    ensures forall n :: n in out ==> Behind(chunks, e, n)
  {
    hide Flat, Sorted, Less, Summaries;
    forall c | 0 <= c < e - s ensures Behind(chunks, e, Last(chunks[s..e][c]))
    {
      if s + c < e - 1 {
        LastsAscend(chunks, s + c, e - 1);
      }
    }
    forall n | n in out ensures Behind(chunks, e, n)
    {
      if exists x :: x in Summaries(group) && x.name == n {
        var x :| x in Summaries(group) && x.name == n;
        var c :| 0 <= c < |group| && Summaries(group)[c] == x;
        assert Behind(chunks, e, Last(group[c]));
      } else if n in before && out[n] == before[n] {
        BehindLater(chunks, s, e, n);
      }
    }
  }

  function Finished(level: nat, group: seq<Chunk>, open: seq<Item>): seq<Chunk> {
    if open == [] then group else group + [Chunk(level, open)]
  }

  lemma {:induction false} FinishedSummaries(level: nat, group: seq<Chunk>, open: seq<Item>)
    ensures Summaries(Finished(level, group, open)) == Summaries(group) + if open == [] then []
      else [Summary(Chunk(level, open))]
  {
  }

  /** Finishing a group keeps everything merged, in chunks none of which is empty. */
  lemma {:induction false} FinishKeeps(b: Boundary, level: nat, merged: seq<Item>, base: seq<Chunk>,
      group: seq<Chunk>, open: seq<Item>)
    requires PushAll(b, level, START, merged) == Cutting(base + group, open)
    ensures Flat(base + Finished(level, group, open)) + [] == merged && AllFilled(Finished(level, group, open))
    ensures base + Finished(level, group, open) == Cut(b, level, merged)
  {
    hide Flat, PushAll;
    var group' := Finished(level, group, open);
    assert base + group' == Cut(b, level, merged) by {
      assert base + (group + [Chunk(level, open)]) == base + group + [Chunk(level, open)];
    }
    CutFlat(b, level, merged);
    forall c | 0 <= c < |group'| ensures group'[c].items != []
    {
      assert (base + group')[|base| + c] == group'[c];
    }
  }

  /** A group that ended at an old boundary leaves the level settled there. */
  lemma {:induction false} SettleGroup(b: Boundary, level: nat, target: seq<Item>, chunks: seq<Chunk>, edits: seq<Edit>,
                              s: nat, start: nat, e: nat, next: nat, merged: seq<Item>, merged': seq<Item>,
                                base: seq<Chunk>, group: seq<Chunk>,
                              before: Changes, out: Changes)
    requires IsLevel(b, level, chunks) && EditsSorted(edits) && target == Edited(Flat(chunks), edits)
    requires Settled(b, level, target, chunks, edits, s, start, merged, base, before)
    requires s < e < |chunks| && merged <= merged'
    requires Merges(target, merged', Flat(chunks), Offset(chunks, e), edits, next)
    requires PushAll(b, level, START, merged') == Cutting(base + group, [])
    requires Extends(before, out, chunks[s..e], Summaries(group))
    requires AllBehind(chunks, e, merged') && (next < |edits| ==> Less(Last(chunks[e - 1]), edits[next].name))
    ensures Settled(b, level, target, chunks, edits, e, next, merged', base + group, out)
  {
    hide Flat, Rank, Edited, PushAll, Cut, Merges, Extends, Reflects, NamesKept, AllBehind, Sorted, EditsSorted,
      Summaries;
    FinishKeeps(b, level, merged', base, group, []);
    MergesPrefix(target, merged', Flat(chunks), Offset(chunks, e), edits, next);
    GroupReflects(b, level, target, chunks, edits, s, start, e, merged, merged', base, group, [], before, out);
    GroupBehind(b, level, chunks, e, merged', base, group);
    ExtendsBehind(chunks, s, e, before, out, group);
    ExtendsNames(before, out, chunks[s..e], Summaries(group));
  }

  lemma {:induction false} GroupBehind(b: Boundary, level: nat, chunks: seq<Chunk>, e: nat, merged: seq<Item>,
      base: seq<Chunk>, group: seq<Chunk>)
    requires PushAll(b, level, START, merged) == Cutting(base + group, []) && e <= |chunks|
      && AllBehind(chunks, e, merged)
    ensures forall c :: 0 <= c < |group| ==> Behind(chunks, e, Last(group[c]))
  {
    hide PushAll, Behind;
    forall c | 0 <= c < |group| ensures Behind(chunks, e, Last(group[c]))
    {
      assert (base + group)[|base| + c] == group[c];
      FinishedNames(b, level, merged, |base| + c);
    }
  }

  /** A group that reached the end of the level completes its cut. */
  lemma {:induction false} CompleteGroup(b: Boundary, level: nat, target: seq<Item>, chunks: seq<Chunk>,
      edits: seq<Edit>,
                                s: nat, start: nat, e: nat, next: nat, merged: seq<Item>, merged': seq<Item>,
                                  base: seq<Chunk>, group: seq<Chunk>, open: seq<Item>,
                                before: Changes, out: Changes)
    requires IsLevel(b, level, chunks) && EditsSorted(edits) && target == Edited(Flat(chunks), edits)
    requires Settled(b, level, target, chunks, edits, s, start, merged, base, before)
    requires s < e == |chunks| && merged <= merged' && next == |edits|
    requires Merges(target, merged', Flat(chunks), Offset(chunks, e), edits, next)
    requires PushAll(b, level, START, merged') == Cutting(base + group, open)
    requires Extends(before, out, chunks[s..e], Summaries(Finished(level, group, open)))
    ensures base + Finished(level, group, open) == Cut(b, level, target)
    ensures Reflects(out, chunks, base + Finished(level, group, open)) && NamesKept(out)
  {
    hide Flat, Rank, Edited, PushAll, Merges;
    assert chunks[..|chunks|] == chunks;
    RestEmpty(target, merged', Flat(chunks), edits);
    FinishKeeps(b, level, merged', base, group, open);
    GroupReflects(b, level, target, chunks, edits, s, start, e, merged, merged', base, Finished(level, group, open),
      [], before, out);
    ExtendsNames(before, out, chunks[s..e], Summaries(Finished(level, group, open)));
  }

  /** Either way a group ends. */
  lemma {:induction false} EndGroup(b: Boundary, level: nat, target: seq<Item>, chunks: seq<Chunk>, edits: seq<Edit>,
                           s: nat, start: nat, e: nat, next: nat, merged: seq<Item>, merged': seq<Item>,
                             base: seq<Chunk>, group: seq<Chunk>, open: seq<Item>,
                           before: Changes, out: Changes)
    requires IsLevel(b, level, chunks) && EditsSorted(edits) && target == Edited(Flat(chunks), edits)
    requires Settled(b, level, target, chunks, edits, s, start, merged, base, before)
    requires s < e <= |chunks| && merged <= merged' && next <= |edits|
    requires Merges(target, merged', Flat(chunks), Offset(chunks, e), edits, next)
    requires PushAll(b, level, START, merged') == Cutting(base + group, open)
    requires Extends(before, out, chunks[s..e], Summaries(Finished(level, group, open)))
    requires
      if e == |chunks| then next == |edits|
      else
        && open == [] && AllBehind(chunks, e, merged')
        && (next < |edits| ==> Less(Last(chunks[e - 1]), edits[next].name))
    ensures var base' := base + Finished(level, group, open);
      && (e < |chunks| ==> Settled(b, level, target, chunks, edits, e, next, merged', base', out))
      && (e == |chunks| ==> base' == Cut(b, level, target) && Reflects(out, chunks, base') && NamesKept(out))
  {
    hide Flat, Sorted, Less, Edited, PushAll, Merges, EditsSorted, Reflects, Extends, Cut, Settled, AllBehind,
      IsLevel, NamesKept;
    if e < |chunks| {
      SettleGroup(b, level, target, chunks, edits, s, start, e, next, merged, merged', base, group, before, out);
    } else {
      CompleteGroup(b, level, target, chunks, edits, s, start, e, next, merged, merged', base, group, open, before,
        out);
    }
  }

  lemma {:induction false} GroupSorted(b: Boundary, level: nat, target: seq<Item>, chunks: seq<Chunk>, edits: seq<Edit>,
                              s: nat, start: nat, e: nat, next: nat, merged: seq<Item>, merged': seq<Item>,
                                base: seq<Chunk>, group: seq<Chunk>, open: seq<Item>, before: Changes)
    requires IsLevel(b, level, chunks) && EditsSorted(edits) && target == Edited(Flat(chunks), edits)
    requires Settled(b, level, target, chunks, edits, s, start, merged, base, before)
    requires s < e <= |chunks| && merged <= merged'
    requires Merges(target, merged', Flat(chunks), Offset(chunks, e), edits, next)
    requires PushAll(b, level, START, merged') == Cutting(base + group, open)
    ensures Sorted(Summaries(Finished(level, group, open)))
  {
    hide Flat, Rank, Edited, PushAll, Cut, Merges;
    EditedSorted(Flat(chunks), edits);
    FinishKeeps(b, level, merged', base, group, open);
    PushAllKeeps(b, level, merged);
    assert Flat(base) + [] == Flat(base);
    MergesPrefix(target, merged', Flat(chunks), Offset(chunks, e), edits, next);
    GroupPast(target, chunks, edits, s, start, merged, merged', base, Finished(level, group, open), []);
  }

  lemma {:induction false} StartRecutting(b: Boundary, level: nat, target: seq<Item>, chunks: seq<Chunk>,
      edits: seq<Edit>,
                                 s: nat, start: nat, before: Changes, merged: seq<Item>, base: seq<Chunk>)
    requires Settled(b, level, target, chunks, edits, s, start, merged, base, before)
    ensures Recutting(b, level, [], target, chunks, edits, s, s, start, before, before, merged, merged, base, [], [])
  {
    assert base + [] == base;
    assert Summaries([]) == [];
  }

  /**
   Re-cuts from chunk `s`, continuing past each edit until a new boundary meets an old one, or to
   the end of the level.
   */
  method Recut(ghost tower: seq<seq<Chunk>>, root: Chunk, b: Boundary, level: nat, ghost chunks: seq<Chunk>,
      edits: seq<Edit>, ghost target: seq<Item>,
               first: Chunk, atEnd: bool, ghost s: nat, start: nat, before: Changes, ghost merged: seq<Item>,
                 ghost base: seq<Chunk>)
    returns (next: nat, out: Changes, ghost e: nat, ghost merged': seq<Item>, ghost base': seq<Chunk>)
    requires IsTower(tower, root) && level < root.level && chunks == tower[level]
    requires IsLevel(b, level, chunks) && EditsSorted(edits)
    requires target == Edited(Flat(chunks), edits)
    requires Settled(b, level, target, chunks, edits, s, start, merged, base, before)
    requires first == chunks[s] && (atEnd <==> s == |chunks| - 1)
    requires start < |edits| && (!atEnd ==> AtMost(edits[start].name, Last(first)))
    ensures start < next <= |edits| && s < e <= |chunks|
    ensures e < |chunks| ==> Settled(b, level, target, chunks, edits, e, next, merged', base', out)
    ensures e == |chunks| ==>
      next == |edits| && base' == Cut(b, level, target) && Reflects(out, chunks, base') && NamesKept(out)
  {
    assert s < |chunks| && AllFilled(chunks) && Sorted(Flat(chunks)) && AllBehind(chunks, s, merged);
    assert base + [] == base;
    StartRecutting(b, level, target, chunks, edits, s, start, before, merged, base);
    hide IsTower, Flat, Sorted, Less, Edited, PushAll, Merges, EditsSorted, Reflects, Extends, Cut, Settled,
      AllBehind, Last, IsLevel, NamesKept, AllFilled, Removes, Finished, Summaries, Summary;
    var cut := new Chunker(level);
    var removed, added;
    ghost var group;
    next, removed, added, e, merged', group :=
      RecutRun(tower, root, b, chunks, edits, target, cut, first, atEnd, s, start, before, merged, base);
    ghost var open := cut.items;
    GroupSorted(b, level, target, chunks, edits, s, start, e, next, merged, merged', base, group, open, before);
    var rest := cut.Finish();
    FinishedSummaries(level, group, open);
    if rest.Some? {
      added := added + [Summary(rest.value)];
    }
    out := AddAll(removed, added);
    RemoveThenAdd(before, removed, out, chunks[s..e], added);
    base' := base + Finished(level, group, open);
    EndGroup(b, level, target, chunks, edits, s, start, e, next, merged, merged', base, group, open, before, out);
  }

  /**
   Re-cuts the chunks at `level` that `edits` touch. The changes it returns turn the old level's
   summaries into the summaries of the edited level, cut from scratch.
   */
  method UpdateLevel(ghost tower: seq<seq<Chunk>>, root: Chunk, b: Boundary, level: nat, edits: seq<Edit>)
    returns (out: Changes)
    requires IsTower(tower, root) && level < root.level && IsLevel(b, level, tower[level]) && EditsSorted(edits)
    ensures Reflects(out, tower[level], Cut(b, level, Edited(Flat(tower[level]), edits))) && NamesKept(out)
  {
    ghost var chunks, target := tower[level], Edited(Flat(tower[level]), edits);
    hide IsTower, Flat, Sorted, Rank, Edited, PushAll, Merges, EditsSorted, Reflects, Cut;
    out := map[];
    var next := 0;
    ghost var k: nat, merged: seq<Item>, base: seq<Chunk> := 0, [], [];
    StartSettled(b, level, target, chunks, edits);
    while next < |edits|
      invariant 0 <= next <= |edits| && k <= |chunks|
      invariant k < |chunks| ==> Settled(b, level, target, chunks, edits, k, next, merged, base, out)
      invariant k == |chunks| ==>
        next == |edits| && base == Cut(b, level, target) && Reflects(out, chunks, base) && NamesKept(out)
    {
      var found, s := Seek(tower, root, level, edits[next].name, false);
      SoughtAhead(chunks, k, s, edits[next].name);
      SettleAhead(b, level, target, chunks, edits, k, next, merged, base, out, s);
      merged, base := merged + Flat(chunks[k..s]), base + chunks[k..s];
      LessTotal(edits[next].name, Last(chunks[s]));
      next, out, k, merged, base :=
        Recut(tower, root, b, level, chunks, edits, target, found.value.0, found.value.1, s, next, out, merged, base);
    }
    if k < |chunks| {
      RestKept(b, level, target, chunks, edits, k, merged, base, out);
    }
  }

  lemma {:induction false} StartSettled(b: Boundary, level: nat, target: seq<Item>, chunks: seq<Chunk>,
      edits: seq<Edit>)
    requires IsLevel(b, level, chunks) && target == Edited(Flat(chunks), edits)
    ensures Settled(b, level, target, chunks, edits, 0, 0, [], [], map[])
  {
    hide Edited, Flat, Cut, Sorted, PushAll;
    assert PushAll(b, level, START, []) == START by { PushNone(b, level); }
    assert Offset(chunks, 0) == 0 by { FlatNone(); assert chunks[..0] == []; }
    assert chunks[..0] == [];
    assert Flat(chunks)[0..] == Flat(chunks) && edits[0..] == edits;
    assert [] + target == target;
    assert Summaries([]) == [];
  }

  /** With no edit left, the rest of the level is as it was. */
  lemma {:induction false} RestKept(b: Boundary, level: nat, target: seq<Item>, chunks: seq<Chunk>, edits: seq<Edit>,
      k: nat, merged: seq<Item>, base: seq<Chunk>, out: Changes)
    requires IsLevel(b, level, chunks)
    requires Settled(b, level, target, chunks, edits, k, |edits|, merged, base, out)
    ensures Cut(b, level, target) == base + chunks[k..]
    ensures Reflects(out, chunks, base + chunks[k..])
  {
    hide Flat, PushAll, Rank, Reflects;
    var items := Flat(chunks);
    assert edits[|edits|..] == [];
    assert target == merged + items[Offset(chunks, k)..];
    FlatSplit(chunks, k);
    PushAllConcat(b, level, START, merged, Flat(chunks[k..]));
    CutSuffix(b, level, items, k, base);
    SummariesSorted(chunks);
    ReflectsSkip(out, chunks, k, |chunks|, base);
    assert chunks[k..|chunks|] == chunks[k..] && chunks[..|chunks|] == chunks;
  }

  // ------------------------------------------------------------------------- the whole directory

  /** The sorted edits that a map of changes stands for. */
  ghost predicate Lists(edits: seq<Edit>, changes: Changes) {
    && (forall i, j :: 0 <= i < j < |edits| ==> Less(edits[i].name, edits[j].name))
    && (forall i :: 0 <= i < |edits| ==> edits[i].name in changes && changes[edits[i].name] == edits[i].item)
    && (forall n :: n in changes ==> exists i :: 0 <= i < |edits| && edits[i].name == n)
  }

  /** The changes outside `rest` are listed, and all come before `rest`. */
  ghost predicate ListsAllBut(edits: seq<Edit>, changes: Changes, rest: set<Name>) {
    && (forall i, j :: 0 <= i < j < |edits| ==> Less(edits[i].name, edits[j].name))
    && (forall i, n :: 0 <= i < |edits| && n in rest ==> Less(edits[i].name, n))
    && (forall i :: 0 <= i < |edits| ==> edits[i].name in changes && changes[edits[i].name] == edits[i].item)
    && (forall n :: n in changes && n !in rest ==> exists i :: 0 <= i < |edits| && edits[i].name == n)
  }

  lemma {:induction false} ListsOneMore(edits: seq<Edit>, changes: Changes, rest: set<Name>, n: Name)
    requires ListsAllBut(edits, changes, rest) && n in rest && n in changes
    requires forall m :: m in rest ==> AtMost(n, m)
    ensures ListsAllBut(edits + [Edit(n, changes[n])], changes, rest - {n})
  {
    hide Less;
    var edits', rest' := edits + [Edit(n, changes[n])], rest - {n};
    assert edits'[|edits|].name == n;
    forall m | m in changes && m !in rest' ensures exists i :: 0 <= i < |edits'| && edits'[i].name == m
    {
      if m != n {
        var i :| 0 <= i < |edits| && edits[i].name == m;
        assert edits'[i].name == m;
      }
    }
    forall m | m in rest' ensures Less(n, m)
    {
      assert AtMost(n, m);
    }
  }

  /** Collects changes in name order. */
  method Collect(changes: Changes) returns (edits: seq<Edit>)
    ensures Lists(edits, changes)
  {
    edits := [];
    var rest := changes.Keys;
    while rest != {}
      invariant rest <= changes.Keys && ListsAllBut(edits, changes, rest)
      decreases |rest|
    {
      hide ListsAllBut, Less;
      ghost var _ := FirstExists(rest);
      var n :| n in rest && forall m :: m in rest ==> AtMost(n, m);
      ListsOneMore(edits, changes, rest, n);
      edits := edits + [Edit(n, changes[n])];
      rest := rest - {n};
    }
  }

  /** Merging the listed changes into a level's summaries gives the new summaries. */
  lemma {:induction false} ReflectedEdits(changes: Changes, edits: seq<Edit>, prior: seq<Chunk>, now: seq<Chunk>)
    requires Lists(edits, changes) && Reflects(changes, prior, now)
    requires Sorted(Summaries(prior)) && Sorted(Summaries(now))
    requires NamesKept(changes)
    ensures EditsSorted(edits)
    ensures Edited(Summaries(prior), edits) == Summaries(now)
  {
    hide Edited, Rank, Summaries;
    EditedSorted(Summaries(prior), edits);
    forall x ensures x in Edited(Summaries(prior), edits) <==> x in Summaries(now)
    {
      EditedHolds(Summaries(prior), edits, x);
      if x.name in changes {
        var i :| 0 <= i < |edits| && edits[i].name == x.name;
        assert Holds(Summaries(prior), edits, x) <==> edits[i].item == Some(x);
      }
    }
    SortedUnique(Edited(Summaries(prior), edits), Summaries(now));
  }

  /** Merges sorted edits into the items of the root chunk. */
  method MergeRoot(items: seq<Item>, edits: seq<Edit>) returns (merged: seq<Item>)
    requires Sorted(items) && EditsSorted(edits)
    ensures merged == Edited(items, edits)
  {
    hide Edited, Rank;
    merged := [];
    var i, next := 0, 0;
    assert items[0..] == items && edits[0..] == edits && [] + Edited(items, edits) == Edited(items, edits);
    while i < |items| || next < |edits|
      invariant 0 <= i <= |items| && 0 <= next <= |edits|
      invariant Merges(Edited(items, edits), merged, items, i, edits, next)
      decreases |items| - i + |edits| - next
    {
      if next < |edits| && (i == |items| || AtMost(edits[next].name, items[i].name)) {
        var item, i' := edits[next].item, if i < |items| && edits[next].name == items[i].name then i + 1 else i;
        MergesStep(Edited(items, edits), merged, items, i, edits, next, item, i', next + 1);
        merged, i, next := merged + Listed(item), i', next + 1;
      } else {
        if next < |edits| {
          LessTotal(edits[next].name, items[i].name);
        }
        MergesStep(Edited(items, edits), merged, items, i, edits, next, Some(items[i]), i + 1, next);
        merged, i := merged + [items[i]], i + 1;
      }
    }
    RestEmpty(Edited(items, edits), merged, items, edits);
  }

  lemma {:induction false} PushNext(b: Boundary, level: nat, items: seq<Item>, i: nat)
    requires i < |items|
    ensures PushAll(b, level, START, items[..i + 1]) == Push(b, level, PushAll(b, level, START, items[..i]), items[i])
  {
    hide PushAll, Push;
    PushOne(b, level, START, items[..i], items[i]);
    assert items[..i] + [items[i]] == items[..i + 1];
  }

  /** Cuts a complete level with a chunker. */
  method CutLevel(b: Boundary, level: nat, items: seq<Item>) returns (chunks: seq<Chunk>)
    ensures chunks == Cut(b, level, items)
    ensures IsCut(b, level, items, chunks)
  {
    hide IsCut, PushAll, Stops, Size;
    CutCuts(b, level, items);
    PushNone(b, level);
    var cut := new Chunker(level);
    chunks := [];
    for i := 0 to |items|
      invariant cut.Valid() && cut.level == level && fresh(cut)
      invariant PushAll(b, level, START, items[..i]) == Cutting(chunks, cut.items)
    {
      PushNext(b, level, items, i);
      var done := cut.Push(b, items[i]);
      if done.Some? {
        chunks := chunks + [done.value];
      }
    }
    assert items[..|items|] == items;
    var rest := cut.Finish();
    if rest.Some? {
      chunks := chunks + [rest.value];
    }
  }

  /** Cuts a complete level and builds upward until one chunk remains. */
  method BuildLevel(b: Boundary, level: nat, items: seq<Item>) returns (root: Result<Option<Chunk>>)
    ensures root == Build(b, level, items)
    ensures level == 0 ==> TopsPyramid(b, items, root)
    decreases MAX_LEVEL + 1 - level
  {
    hide Cut, IsCut, TopsPyramid;
    BuildTops(b, level, items);
    BuildStepUp(b, level, items);
    if level > MAX_LEVEL {
      return Err(TooHigh);
    }
    var chunks := CutLevel(b, level, items);
    if |chunks| > 1 {
      root := BuildLevel(b, level + 1, Summaries(chunks));
    } else if chunks == [] {
      root := Ok(None);
    } else {
      var top := chunks[0];
      while top.level > 0 && |top.items| == 1 && top.items[0].node.Child?
        invariant Shrink(top) == Shrink(chunks[0])
        decreases top
      {
        top := top.items[0].node.chunk;
      }
      root := Ok(Some(top));
    }
  }

  lemma {:induction false} BuildTops(b: Boundary, level: nat, items: seq<Item>)
    ensures level == 0 ==> TopsPyramid(b, items, Build(b, level, items))
  {
    hide Build, TopsPyramid;
    BuildExactly(b, items, Build(b, 0, items));
  }

  lemma {:induction false} BuildStepUp(b: Boundary, level: nat, items: seq<Item>)
    ensures Build(b, level, items) == if level > MAX_LEVEL then Err(TooHigh) else
              var chunks := Cut(b, level, items);
              if |chunks| > 1 then Build(b, level + 1, Summaries(chunks))
              else if chunks == [] then Ok(None) else Ok(Some(Shrink(chunks[0])))
  {
  }

  /** A directory that builds to nothing holds nothing. */
  lemma {:induction false} BuildNone(b: Boundary, items: seq<Item>)
    requires Build(b, 0, items) == Ok(None)
    ensures items == []
  {
    hide Cut, Build, LevelItems, LevelChunks;
    var top := BuildTop(b, items, 0);
    BuildStops(b, items, top);
    LevelFlat(b, items, top);
    assert LevelItems(b, items, top) == [];
    LevelZero(b, items);
    if top > 0 {
      LevelStep(b, items, top - 1);
    }
  }

  lemma {:induction false} LevelStands(b: Boundary, items: seq<Item>, root: Chunk, level: nat)
    requires Sorted(items) && IsRoot(b, items, root) && level < root.level
    ensures IsLevel(b, level, LevelChunks(b, items, level))
    ensures Flat(LevelChunks(b, items, level)) == LevelItems(b, items, level)
  {
    hide Cut, Build, LevelItems, LevelChunks, Flat;
    RootPlace(b, items, root);
    assert |LevelChunks(b, items, level)| > 1;
    LevelFlat(b, items, level);
    LevelSorted(b, items, level);
    LevelStep(b, items, level);
  }

  /** The changes of one level are the edits of the next. */
  lemma {:induction false} NextLevel(b: Boundary, items: seq<Item>, target: seq<Item>, level: nat, changes: seq<Edit>,
      out: Changes, next: seq<Edit>)
    requires Sorted(items) && Sorted(target)
    requires Edited(LevelItems(b, items, level), changes) == LevelItems(b, target, level)
    requires Reflects(out, LevelChunks(b, items, level), Cut(b, level, Edited(LevelItems(b, items, level), changes)))
    requires NamesKept(out) && Lists(next, out)
    ensures EditsSorted(next)
    ensures Edited(LevelItems(b, items, level + 1), next) == LevelItems(b, target, level + 1)
  {
    hide Cut, LevelItems, LevelChunks, Edited, Reflects, Lists, Rank;
    LevelStep(b, items, level);
    LevelStep(b, target, level);
    LevelSorted(b, items, level + 1);
    LevelSorted(b, target, level + 1);
    ReflectedEdits(out, next, LevelChunks(b, items, level), LevelChunks(b, target, level));
  }

  /** How a directory is kept: no root while it is empty, or the empty leaf for an empty World. */
  ghost predicate Stored(b: Boundary, items: seq<Item>, dir: Option<Chunk>) {
    Build(b, 0, items) == Ok(dir) || (items == [] && dir == Some(Chunk(0, [])))
  }

  /** The items of a new directory: the edits that place something. */
  method NewItems(edits: seq<Edit>) returns (items: seq<Item>)
    requires EditsSorted(edits)
    ensures items == Edited([], edits)
  {
    items := [];
    assert [] + Edited([], edits) == Edited([], edits) && edits[0..] == edits;
    for next := 0 to |edits|
      invariant Edited([], edits) == items + Edited([], edits[next..])
    {
      assert edits[next..][1..] == edits[next + 1..];
      assert items + (Placed(edits[next]) + Edited([], edits[next + 1..])) ==
        items + Placed(edits[next]) + Edited([], edits[next + 1..]);
      items := items + Placed(edits[next]);
    }
  }

  /** Updates a nonempty directory level by level, then re-cuts its root. */
  method UpdateRoot(b: Boundary, ghost items: seq<Item>, root: Chunk, edits: seq<Edit>)
    returns (updated: Result<Option<Chunk>>)
    requires Sorted(items) && EditsSorted(edits) && IsRoot(b, items, root)
    ensures updated == Build(b, 0, Edited(items, edits))
  {
    hide Cut, Build, Flat, LevelItems, LevelChunks, Edited, IsTower, IsLevel, Reflects, Lists, Rank, Sorted,
      EditsSorted;
    TowerStands(b, items, root);
    RootPlace(b, items, root);
    ghost var tower := Tower(b, items, root.level);
    ghost var target := Edited(items, edits);
    EditedSorted(items, edits);
    var changes := edits;
    LevelZero(b, items);
    LevelZero(b, target);
    for level := 0 to root.level
      invariant EditsSorted(changes)
      invariant Edited(LevelItems(b, items, level), changes) == LevelItems(b, target, level)
    {
      LevelStands(b, items, root, level);
      var out := UpdateLevel(tower, root, b, level, changes);
      var next := Collect(out);
      NextLevel(b, items, target, level, changes, out, next);
      changes := next;
    }
    LevelSorted(b, items, root.level);
    var merged := MergeRoot(root.items, changes);
    BuildFromAny(b, target, root.level);
    updated := BuildLevel(b, root.level, merged);
  }

  /**
   Applies sorted edits to one directory, re-cutting only the chunks around each edit. The result is
   the root a build from scratch gives for the edited items, so roots do not depend on edit order.
   */
  method Update(b: Boundary, ghost items: seq<Item>, dir: Option<Chunk>, edits: seq<Edit>)
    returns (root: Result<Option<Chunk>>)
    requires Sorted(items) && EditsSorted(edits) && Stored(b, items, dir)
    ensures root == Build(b, 0, Edited(items, edits))
  {
    hide Cut, Edited, Sorted, EditsSorted;
    if dir == None || dir.value.items == [] {
      assert items == [] by {
        if dir == None {
          BuildNone(b, items);
        } else if Build(b, 0, items) == Ok(dir) {
          RootPlace(b, items, dir.value);
        }
      }
      var placed := NewItems(edits);
      root := BuildLevel(b, 0, placed);
    } else {
      root := UpdateRoot(b, items, dir.value, edits);
    }
  }
}
