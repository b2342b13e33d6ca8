/** The encoding of one tree chunk (src/tree.rs): canonical, bounded, and read back exactly. */
module Codec {
  import opened Names
  import opened Chunks
  import opened Seeking
  import opened Paths

  type Bytes = seq<Byte>

  const ID: nat := 32
  const CHILD: Byte := 0
  const DIR: Byte := 4

  /** An item as stored: its tag, name and object ID. */
  datatype Stored = Stored(tag: Byte, name: Name, id: Bytes)

  datatype Page = Page(level: nat, items: seq<Stored>)

  /** The low sixteen bits of a length, big-endian. */
  function BigEndian(n: nat): (bytes: Bytes)
    ensures |bytes| == 2
  {
    [n / 256 % 256, n % 256]
  }

  function FromBigEndian(high: nat, low: nat): nat {
    256 * high + low
  }

  function EncodeItem(x: Stored): Bytes {
    [x.tag] + BigEndian(|x.name|) + x.name + x.id
  }

  function EncodeItems(items: seq<Stored>): Bytes {
    if items == [] then [] else EncodeItem(items[0]) + EncodeItems(items[1..])
  }

  function Encode(page: Page): Bytes
    requires page.level < 256
  {
    [page.level] + EncodeItems(page.items)
  }

  /** An item a chunk of this level may hold. */
  predicate ValidItem(level: nat, x: Stored) {
    ValidName(x.name) && |x.name| < 0x1_0000 && |x.id| == ID && (level == 0 <==> x.tag != CHILD) && x.tag <= DIR
  }

  ghost predicate Ascending(items: seq<Stored>) {
    forall i :: 0 < i < |items| ==> Less(items[i - 1].name, items[i].name)
  }

  ghost predicate ValidPage(page: Page) {
    && page.level <= MAX_LEVEL && (forall i :: 0 <= i < |page.items| ==> ValidItem(page.level, page.items[i]))
      && Ascending(page.items)
    && |Encode(page)| <= MAX_CHUNK && (page.level > 0 ==> page.items != [])
  }

  /** Encoded bytes of items: the size the Chunker counts. */
  function StoredSize(items: seq<Stored>): nat {
    if items == [] then 0 else ITEM + |items[0].name| + StoredSize(items[1..])
  }

  lemma {:induction false} EncodedSize(level: nat, items: seq<Stored>)
    requires level < 256 && forall i :: 0 <= i < |items| ==> |items[i].id| == ID
    ensures |Encode(Page(level, items))| == 1 + StoredSize(items)
  {
    if items != [] {
      EncodedSize(level, items[1..]);
    }
  }

  lemma {:induction false} EncodeMore(items: seq<Stored>, x: Stored)
    ensures EncodeItems(items + [x]) == EncodeItems(items) + EncodeItem(x)
  {
    if items == [] {
      assert items + [x] == [x] && [x][1..] == [];
    } else {
      EncodeMore(items[1..], x);
      assert (items + [x])[1..] == items[1..] + [x];
    }
  }

  datatype Read = Item(item: Stored, rest: Bytes) | Truncated | Short

  /** The first item of some bytes. */
  function ReadItem(bytes: Bytes): Read {
    if |bytes| < 3 then Short
    else
      var length := FromBigEndian(bytes[1], bytes[2]);
      if |bytes| - 3 < length + ID then Truncated
      else Read.Item(Stored(bytes[0], bytes[3..3 + length], bytes[3 + length..3 + length + ID]),
        bytes[3 + length + ID..])
  }

  lemma {:induction false} BigEndianReads(n: nat)
    requires n < 0x1_0000
    ensures FromBigEndian(BigEndian(n)[0], BigEndian(n)[1]) == n
  {
  }

  /** Reading what was encoded gives the item and the bytes after it. */
  lemma {:induction false} ItemReads(x: Stored, rest: Bytes)
    requires |x.name| < 0x1_0000 && |x.id| == ID
    ensures ReadItem(EncodeItem(x) + rest) == Read.Item(x, rest)
  {
    var n := |x.name|;
    var all := EncodeItem(x) + rest;
    BigEndianReads(n);
    assert all[1] == BigEndian(n)[0] && all[2] == BigEndian(n)[1];
    assert all[3..3 + n] == x.name && all[3 + n..3 + n + ID] == x.id && all[3 + n + ID..] == rest;
  }

  /** What reads as an item is its one spelling. */
  lemma {:induction false} ItemSpells(bytes: Bytes)
    ensures var r := ReadItem(bytes); r.Item? ==>
      bytes == EncodeItem(r.item) + r.rest && |r.item.name| < 0x1_0000 && |r.item.id| == ID
  {
    var r := ReadItem(bytes);
    if r.Item? {
      var n := FromBigEndian(bytes[1], bytes[2]);
      assert BigEndian(n) == [bytes[1], bytes[2]];
      assert bytes ==
        [bytes[0]] + [bytes[1], bytes[2]] + bytes[3..3 + n] + bytes[3 + n..3 + n + ID] + bytes[3 + n + ID..];
    }
  }

  /** Any valid page these bytes spell begins with the items read so far and goes on with the rest. */
  ghost predicate Consumed(bytes: Bytes, level: nat, items: seq<Stored>, rest: Bytes) {
    && bytes == [level] + EncodeItems(items) + rest
    && (forall page :: ValidPage(page) && Encode(page) == bytes ==>
      page.level == level && items <= page.items && rest == EncodeItems(page.items[|items|..]))
  }

  lemma {:induction false} NothingConsumed(bytes: Bytes)
    requires bytes != []
    ensures Consumed(bytes, bytes[0], [], bytes[1..])
  {
    assert bytes == [bytes[0]] + [] + bytes[1..];
    forall page | ValidPage(page) && Encode(page) == bytes
      ensures page.level == bytes[0] && bytes[1..] == EncodeItems(page.items[0..])
    {
      assert page.items[0..] == page.items;
      assert Encode(page)[0] == page.level && Encode(page)[1..] == EncodeItems(page.items);
    }
  }

  lemma {:induction false} ConsumedMore(bytes: Bytes, level: nat, items: seq<Stored>, rest: Bytes)
    requires Consumed(bytes, level, items, rest) && ReadItem(rest).Item?
    ensures Consumed(bytes, level, items + [ReadItem(rest).item], ReadItem(rest).rest)
  {
    hide EncodeItem, ReadItem, Encode;
    var r := ReadItem(rest);
    ItemSpells(rest);
    ReadShrinks(rest);
    EncodeMore(items, r.item);
    assert bytes == [level] + EncodeItems(items + [r.item]) + r.rest;
    forall page | ValidPage(page) && Encode(page) == bytes
      ensures page.level == level && items + [r.item] <= page.items
        && r.rest == EncodeItems(page.items[|items + [r.item]|..])
    {
      NextItem(page, items, rest);
    }
  }

  lemma {:induction false} NextItem(page: Page, items: seq<Stored>, rest: Bytes)
    requires ValidPage(page) && items <= page.items && rest == EncodeItems(page.items[|items|..])
    ensures rest == [] <==> |items| == |page.items|
    ensures rest != [] ==> ReadItem(rest) == Read.Item(page.items[|items|], EncodeItems(page.items[|items| + 1..]))
    ensures |items| < |page.items| ==>
      items + [page.items[|items|]] <= page.items && ValidItem(page.level, page.items[|items|])
    ensures 0 < |items| < |page.items| ==> Less(items[|items| - 1].name, page.items[|items|].name)
  {
    hide ReadItem;
    var more := page.items[|items|..];
    if |items| < |page.items| {
      var x := page.items[|items|];
      assert more[0] == x && more[1..] == page.items[|items| + 1..];
      assert ValidItem(page.level, x);
      ItemReads(x, EncodeItems(more[1..]));
      assert items + [x] == page.items[..|items| + 1];
      if |items| > 0 {
        assert items[|items| - 1] == page.items[|items| - 1];
      }
    }
  }

  /** Why these bytes are no page. */
  lemma {:induction false} NotAPage(bytes: Bytes, level: nat, items: seq<Stored>, rest: Bytes)
    requires Consumed(bytes, level, items, rest)
    requires rest != []
    requires !ReadItem(rest).Item? || !ValidItem(level, ReadItem(rest).item)
      || (items != [] && !Less(items[|items| - 1].name, ReadItem(rest).item.name))
    ensures forall page :: ValidPage(page) ==> Encode(page) != bytes
  {
    hide EncodeItem, ReadItem, Encode, EncodeItems, ValidItem;
    forall page | ValidPage(page) ensures Encode(page) != bytes
    {
      if Encode(page) == bytes {
        NextItem(page, items, rest);
      }
    }
  }

  /**
   Parses one chunk, accepting the canonical encoding alone: a page is read exactly when the bytes
   are its encoding and it is valid.
   */
  method Decode(bytes: Bytes) returns (page: Option<Page>)
    ensures forall c :: page == Some(c) <==> ValidPage(c) && Encode(c) == bytes
  {
    hide EncodeItems, EncodeItem, ReadItem, ValidName, Consumed;
    if |bytes| > MAX_CHUNK {
      return None;
    }
    if bytes == [] {
      return None;
    }
    var level := bytes[0];
    if level > MAX_LEVEL {
      return None;
    }
    var items: seq<Stored> := [];
    var rest := bytes[1..];
    NothingConsumed(bytes);
    while true
      invariant Consumed(bytes, level, items, rest)
      invariant (forall i :: 0 <= i < |items| ==> ValidItem(level, items[i])) && Ascending(items)
      decreases |rest|
    {
      var r := ReadItem(rest);
      if r.Short? {
        break;
      }
      if rest == [] || r.Truncated? || !ValidItem(level, r.item)
        || (items != [] && !Less(items[|items| - 1].name, r.item.name)) {
        ShortOnly(rest);
        NotAPage(bytes, level, items, rest);
        return None;
      }
      ConsumedMore(bytes, level, items, rest);
      ReadShrinks(rest);
      items := items + [r.item];
      rest := r.rest;
    }
    if rest != [] {
      NotAPage(bytes, level, items, rest);
      return None;
    }
    ConsumedAll(bytes, level, items);
    if level > 0 && items == [] {
      return None;
    }
    return Some(Page(level, items));
  }

  lemma {:induction false} ShortOnly(rest: Bytes)
    ensures !ReadItem(rest).Short? ==> rest != []
  {
  }

  lemma {:induction false} ReadShrinks(rest: Bytes)
    ensures ReadItem(rest).Item? ==> |ReadItem(rest).rest| < |rest|
  {
  }

  /** When every byte is consumed, the items read are the page. */
  lemma {:induction false} ConsumedAll(bytes: Bytes, level: nat, items: seq<Stored>)
    requires Consumed(bytes, level, items, []) && level < 256
    ensures Encode(Page(level, items)) == bytes
    ensures forall page :: ValidPage(page) && Encode(page) == bytes ==> page == Page(level, items)
  {
    hide EncodeItem, EncodeItems;
    assert [level] + EncodeItems(items) + [] == Encode(Page(level, items));
    forall page | ValidPage(page) && Encode(page) == bytes ensures page == Page(level, items)
    {
      NextItem(page, items, []);
    }
  }

  // ------------------------------------------------------------------------ emitted chunks

  lemma {:induction false} SizeFirst(items: seq<Chunks.Item>)
    requires items != []
    ensures Size(items) == Len(items[0]) + Size(items[1..])
  {
    if |items| == 1 {
      assert items[..0] == [] && items[1..] == [];
    } else {
      SizeFirst(items[..|items| - 1]);
      assert items[1..][..|items| - 2] == items[..|items| - 1][1..];
    }
  }

  /** How a chunk's items are stored: under their names, with a tag for the level and an ID. */
  ghost predicate Stores(level: nat, items: seq<Chunks.Item>, stored: seq<Stored>) {
    |stored| == |items| && forall i :: 0 <= i < |items| ==>
      stored[i].name == items[i].name && ValidItem(level, stored[i])
  }

  lemma {:induction false} StoredSizeIs(level: nat, items: seq<Chunks.Item>, stored: seq<Stored>)
    requires Stores(level, items, stored)
    ensures StoredSize(stored) == Size(items)
  {
    hide ValidItem;
    if items != [] {
      SizeFirst(items);
      StoredSizeIs(level, items[1..], stored[1..]);
    }
  }

  /**
   Every chunk cut from sorted items with repository names encodes to bytes that decode to it: the decoder's
   bound holds for all of them.
   */
  lemma {:induction false} EmittedDecodes(b: Boundary, level: nat, items: seq<Chunks.Item>, c: nat, stored: seq<Stored>)
    requires level <= MAX_LEVEL && Sorted(items) && forall i :: 0 <= i < |items| ==> |items[i].name| <= MAX_PATH
    requires c < |Cut(b, level, items)| && Stores(level, Cut(b, level, items)[c].items, stored)
    ensures ValidPage(Page(level, stored)) && |Encode(Page(level, stored))| <= MAX_CHUNK
  {
    hide Cut, Flat, ValidName, Size, StoredSize, Encode;
    var chunks := Cut(b, level, items);
    CutFlat(b, level, items);
    ChunksFit(b, level, items);
    ChunkSorted(chunks, c);
    assert chunks[c] in chunks;
    StoredSizeIs(level, chunks[c].items, stored);
    EncodedSize(level, stored);
    assert stored != [];
  }
}
