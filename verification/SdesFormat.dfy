/** The contents of an SDES packet (section 6.5 of RFC 3550) and where they lie in a buffer.

    `ChunksAt` is the grammar: it says which chunks a buffer holds from an offset to its end.
    The bytes that pad a chunk to a 32-bit boundary are not constrained, as the code never
    looks at them. `EncodeChunk` is the one encoding that the compound packet builder writes. */
module SdesFormat {
  import opened Wire

  const ITEM_HEADER := 2
  const ID_PRIVATE: Byte := 8

  datatype Item = Item(id: Byte, data: Text)
  datatype Chunk = Chunk(ssrc: U32, items: seq<Item>)

  function ItemSize(item: Item): nat {
    ITEM_HEADER + |item.data|
  }

  function ItemsSize(items: seq<Item>): nat {
    if items == [] then 0 else ItemSize(items[0]) + ItemsSize(items[1..])
  }

  /** SSRC, items, the zero byte that ends them, and padding to a 32-bit boundary. */
  function ChunkSize(c: Chunk): (n: nat)
    ensures n % 4 == 0 && n >= 8
  {
    4 + Align4(ItemsSize(c.items) + 1)
  }

  function ChunksSize(cs: seq<Chunk>): nat {
    if cs == [] then 0 else ChunkSize(cs[0]) + ChunksSize(cs[1..])
  }

  lemma {:induction false} ChunksSizeAligned(cs: seq<Chunk>)
    ensures ChunksSize(cs) % 4 == 0
  {
    if cs != [] {
      ChunksSizeAligned(cs[1..]);
      Mod4Sum(ChunkSize(cs[0]), ChunksSize(cs[1..]));
    }
  }

  lemma {:induction false} ItemsSizeAppend(a: seq<Item>, b: seq<Item>)
    ensures ItemsSize(a + b) == ItemsSize(a) + ItemsSize(b)
  {
    if a == [] {
      assert a + b == b;
    } else {
      assert (a + b)[0] == a[0] && (a + b)[1..] == a[1..] + b;
      ItemsSizeAppend(a[1..], b);
    }
  }

  lemma {:induction false} ChunksSizeAppend(a: seq<Chunk>, b: seq<Chunk>)
    ensures ChunksSize(a + b) == ChunksSize(a) + ChunksSize(b)
  {
    if a == [] {
      assert a + b == b;
    } else {
      assert (a + b)[0] == a[0] && (a + b)[1..] == a[1..] + b;
      ChunksSizeAppend(a[1..], b);
    }
  }

  /** The parts of a PRIV item; empty when the prefix length does not fit the item. */
  predicate PrivProper(d: Text) {
    d != [] && d[0] <= |d| - 1
  }

  function PrivPrefix(d: Text): seq<Byte> {
    if PrivProper(d) then d[1..1 + d[0]] else []
  }

  function PrivValue(d: Text): seq<Byte> {
    if PrivProper(d) then d[1 + d[0]..] else []
  }

  /** Where the parts of a PRIV item that starts at `at` lie. */
  lemma PrivBytes(d: seq<Byte>, at: nat, item: Item)
    requires ItemAt(d, at, item) && item.data != []
    ensures PrivProper(item.data) <==> d[at + ITEM_HEADER] <= d[at + 1] - 1
    ensures PrivProper(item.data) ==>
      var value := at + ITEM_HEADER + 1 + d[at + ITEM_HEADER];
      && d[at + ITEM_HEADER + 1..value] == PrivPrefix(item.data)
      && d[value..at + ITEM_HEADER + d[at + 1]] == PrivValue(item.data)
  {
    var o := at + ITEM_HEADER;
    var v := item.data;
    assert d[o] == d[o..o + |v|][0] == v[0];
    if PrivProper(v) {
      SliceOfSlice(d, o, o + |v|, 1, 1 + v[0]);
      SliceOfSlice(d, o, o + |v|, 1 + v[0], |v|);
      assert v[1 + v[0]..|v|] == v[1 + v[0]..];
    }
  }

  /** The data of the PRIV item that AddSDESPrivateItem makes, read back. */
  lemma PrivRoundTrip(prefix: Text, value: Text)
    requires |prefix| + 1 + |value| <= 255
    ensures PrivPrefix([|prefix|] + prefix + value) == prefix
    ensures PrivValue([|prefix|] + prefix + value) == value
  {
    var d: Text := [|prefix|] + prefix + value;
    assert d[0] == |prefix|;
    assert d[1..1 + |prefix|] == prefix && d[1 + |prefix|..] == value;
  }

  lemma ItemsSizeOne(item: Item)
    ensures ItemsSize([item]) == ItemSize(item)
  {
    assert [item][1..] == [];
  }

  lemma ChunksSizePush(cs: seq<Chunk>, k: nat)
    requires k < |cs|
    ensures ChunksSize(cs[..k + 1]) == ChunksSize(cs[..k]) + ChunkSize(cs[k])
  {
    assert cs[..k + 1] == cs[..k] + [cs[k]];
    ChunksSizeAppend(cs[..k], [cs[k]]);
    assert [cs[k]][1..] == [];
  }

  // ----- the grammar -----

  predicate ItemAt(d: seq<Byte>, o: nat, item: Item) {
    && o + ItemSize(item) <= |d|
    && item.id != 0 && d[o] == item.id && d[o + 1] == |item.data|
    && d[o + ITEM_HEADER..o + ItemSize(item)] == item.data
  }

  /** The item list `items`, with the zero byte that ends it, starts at `o`. */
  predicate ItemsAt(d: seq<Byte>, o: nat, items: seq<Item>)
    decreases |items|
  {
    if items == [] then o < |d| && d[o] == 0
    else ItemAt(d, o, items[0]) && ItemsAt(d, o + ItemSize(items[0]), items[1..])
  }

  predicate ChunkAt(d: seq<Byte>, o: nat, c: Chunk) {
    && o + ChunkSize(c) <= |d|
    && U32At(d, o) == c.ssrc
    && ItemsAt(d, o + 4, c.items)
  }

  /** The chunks `cs` fill the buffer from `o` to its end. */
  predicate ChunksAt(d: seq<Byte>, o: nat, cs: seq<Chunk>)
    decreases |cs|
  {
    if cs == [] then o == |d|
    else ChunkAt(d, o, cs[0]) && ChunksAt(d, o + ChunkSize(cs[0]), cs[1..])
  }

  lemma {:induction false} ItemsAtUnique(d: seq<Byte>, o: nat, a: seq<Item>, b: seq<Item>)
    requires ItemsAt(d, o, a) && ItemsAt(d, o, b)
    ensures a == b
    decreases |a|
  {
    if a != [] && b != [] {
      assert a[0].data == b[0].data;
      ItemsAtUnique(d, o + ItemSize(a[0]), a[1..], b[1..]);
      assert a == [a[0]] + a[1..] && b == [b[0]] + b[1..];
    }
  }

  /** A buffer holds at most one list of chunks. */
  lemma {:induction false} ChunksAtUnique(d: seq<Byte>, o: nat, a: seq<Chunk>, b: seq<Chunk>)
    requires ChunksAt(d, o, a) && ChunksAt(d, o, b)
    ensures a == b
    decreases |a|
  {
    if a != [] && b != [] {
      ItemsAtUnique(d, o + 4, a[0].items, b[0].items);
      ChunksAtUnique(d, o + ChunkSize(a[0]), a[1..], b[1..]);
      assert a == [a[0]] + a[1..] && b == [b[0]] + b[1..];
    }
  }

  /** The item list is wholly inside the buffer, terminator included. */
  lemma {:induction false} ItemsAtInside(d: seq<Byte>, o: nat, items: seq<Item>)
    requires ItemsAt(d, o, items)
    ensures o + ItemsSize(items) < |d| && d[o + ItemsSize(items)] == 0
    decreases |items|
  {
    if items != [] {
      ItemsAtInside(d, o + ItemSize(items[0]), items[1..]);
    }
  }

  /** Chunk `k` of the list lies where the chunks before it end. */
  lemma {:induction false} ChunksAtIndex(d: seq<Byte>, o: nat, cs: seq<Chunk>, k: nat)
    requires ChunksAt(d, o, cs) && k < |cs|
    ensures ChunkAt(d, o + ChunksSize(cs[..k]), cs[k])
    ensures ChunksAt(d, o + ChunksSize(cs[..k]), cs[k..])
    decreases k
  {
    if k > 0 {
      ChunksAtIndex(d, o + ChunkSize(cs[0]), cs[1..], k - 1);
      assert cs[..k][1..] == cs[1..][..k - 1];
      assert cs[1..][k - 1..] == cs[k..];
    }
  }

  lemma {:induction false} ItemsAtIndex(d: seq<Byte>, o: nat, items: seq<Item>, k: nat)
    requires ItemsAt(d, o, items) && k <= |items|
    ensures ItemsAt(d, o + ItemsSize(items[..k]), items[k..])
    decreases k
  {
    if k > 0 {
      ItemsAtIndex(d, o + ItemSize(items[0]), items[1..], k - 1);
      assert items[..k][1..] == items[1..][..k - 1];
      assert items[1..][k - 1..] == items[k..];
    } else {
      assert items[0..] == items;
    }
  }


  /** Stepping over item `k` leads to item `k + 1`, or to the zero byte if there is none. */
  lemma ItemsAtStep(d: seq<Byte>, o: nat, items: seq<Item>, k: nat)
    requires ItemsAt(d, o, items) && k < |items|
    ensures ItemAt(d, o + ItemsSize(items[..k]), items[k])
    ensures ItemsSize(items[..k + 1]) == ItemsSize(items[..k]) + ItemSize(items[k])
    ensures o + ItemsSize(items[..k + 1]) < |d|
    ensures d[o + ItemsSize(items[..k + 1])] == 0 <==> k + 1 == |items|
  {
    ItemsAtIndex(d, o, items, k);
    ItemsAtIndex(d, o, items, k + 1);
    assert items[..k + 1] == items[..k] + [items[k]];
    ItemsSizeAppend(items[..k], [items[k]]);
    assert [items[k]][1..] == [];
    ItemsAtInside(d, o + ItemsSize(items[..k + 1]), items[k + 1..]);
  }

  /** Likewise for the first item. */
  lemma ItemsAtStart(d: seq<Byte>, o: nat, items: seq<Item>)
    requires ItemsAt(d, o, items)
    ensures o < |d| && (d[o] == 0 <==> items == [])
    ensures items[..0] == [] && ItemsSize(items[..0]) == 0
  {
  }

  // ----- the encoding -----

  function EncodeItem(item: Item): (b: seq<Byte>)
    ensures |b| == ItemSize(item)
  {
    [item.id, |item.data|] + item.data
  }

  function EncodeItems(items: seq<Item>): (b: seq<Byte>)
    ensures |b| == ItemsSize(items)
  {
    if items == [] then [] else EncodeItem(items[0]) + EncodeItems(items[1..])
  }

  function EncodeChunk(c: Chunk): (b: seq<Byte>)
    ensures |b| == ChunkSize(c)
  {
    Net32(c.ssrc) + EncodeItems(c.items) + Zeros(ChunkSize(c) - 4 - ItemsSize(c.items))
  }

  function EncodeChunks(cs: seq<Chunk>): (b: seq<Byte>)
    ensures |b| == ChunksSize(cs)
  {
    if cs == [] then [] else EncodeChunk(cs[0]) + EncodeChunks(cs[1..])
  }

  predicate ItemsProper(items: seq<Item>) {
    forall i :: 0 <= i < |items| ==> items[i].id != 0
  }

  predicate ChunksProper(cs: seq<Chunk>) {
    forall i :: 0 <= i < |cs| ==> ItemsProper(cs[i].items)
  }

  lemma {:induction false} EncodedItemsAt(pre: seq<Byte>, items: seq<Item>, post: seq<Byte>)
    requires ItemsProper(items) && post != [] && post[0] == 0
    ensures ItemsAt(pre + EncodeItems(items) + post, |pre|, items)
    decreases |items|
  {
    var d := pre + EncodeItems(items) + post;
    if items != [] {
      var e := EncodeItem(items[0]);
      EncodedItemsAt(pre + e, items[1..], post);
      assert d == (pre + e) + EncodeItems(items[1..]) + post;
      assert d[|pre|..|pre| + |e|] == e;
      assert d[|pre|] == e[0] && d[|pre| + 1] == e[1];
      assert d[|pre| + ITEM_HEADER..|pre| + |e|] == e[ITEM_HEADER..];
    }
  }

  lemma FiveParts(pre: seq<Byte>, a: seq<Byte>, b: seq<Byte>, c: seq<Byte>, post: seq<Byte>)
    ensures pre + (a + b + c) + post == (pre + a) + b + (c + post)
    ensures (pre + (a + b + c) + post)[|pre|..|pre| + |a|] == a
  {
  }

  lemma EncodedChunkAt(pre: seq<Byte>, c: Chunk, post: seq<Byte>)
    requires ItemsProper(c.items)
    ensures ChunkAt(pre + EncodeChunk(c) + post, |pre|, c)
  {
    var d := pre + EncodeChunk(c) + post;
    var tail := Zeros(ChunkSize(c) - 4 - ItemsSize(c.items)) + post;
    EncodedItemsAt(pre + Net32(c.ssrc), c.items, tail);
    FiveParts(pre, Net32(c.ssrc), EncodeItems(c.items), Zeros(ChunkSize(c) - 4 - ItemsSize(c.items)), post);
    Net32RoundTrip(d, |pre|, c.ssrc);
  }

  /** What the builder encodes, the grammar reads back. */
  lemma {:induction false} EncodedChunksAt(pre: seq<Byte>, cs: seq<Chunk>)
    requires ChunksProper(cs)
    ensures ChunksAt(pre + EncodeChunks(cs), |pre|, cs)
    decreases |cs|
  {
    if cs == [] {
      assert pre + EncodeChunks(cs) == pre;
    } else {
      var e, rest := EncodeChunk(cs[0]), EncodeChunks(cs[1..]);
      EncodedChunkAt(pre, cs[0], rest);
      EncodedChunksAt(pre + e, cs[1..]);
      Associates(pre, e, rest);
      ChunksAtCons(pre + e + rest, |pre|, cs[0], cs[1..]);
      assert [cs[0]] + cs[1..] == cs;
    }
  }

  lemma ChunksAtCons(d: seq<Byte>, o: nat, c: Chunk, cs: seq<Chunk>)
    requires ChunkAt(d, o, c) && ChunksAt(d, o + ChunkSize(c), cs)
    ensures ChunksAt(d, o, [c] + cs)
  {
    assert ([c] + cs)[1..] == cs;
  }

  lemma {:induction false} EncodeItemsAppend(a: seq<Item>, b: seq<Item>)
    ensures EncodeItems(a + b) == EncodeItems(a) + EncodeItems(b)
  {
    if a == [] {
      assert a + b == b;
    } else {
      assert (a + b)[0] == a[0] && (a + b)[1..] == a[1..] + b;
      EncodeItemsAppend(a[1..], b);
    }
  }

  lemma {:induction false} EncodeChunksAppend(a: seq<Chunk>, b: seq<Chunk>)
    ensures EncodeChunks(a + b) == EncodeChunks(a) + EncodeChunks(b)
  {
    if a == [] {
      assert a + b == b;
    } else {
      assert (a + b)[0] == a[0] && (a + b)[1..] == a[1..] + b;
      EncodeChunksAppend(a[1..], b);
    }
  }

  lemma EncodeItemsPush(items: seq<Item>, k: nat)
    requires k < |items|
    ensures EncodeItems(items[..k + 1]) == EncodeItems(items[..k]) + EncodeItem(items[k])
  {
    assert items[..k + 1] == items[..k] + [items[k]];
    EncodeItemsAppend(items[..k], [items[k]]);
    assert [items[k]][1..] == [];
  }

  lemma EncodeChunksPush(cs: seq<Chunk>, a: nat, k: nat)
    requires a <= k < |cs|
    ensures EncodeChunks(cs[a..k + 1]) == EncodeChunks(cs[a..k]) + EncodeChunk(cs[k])
  {
    assert cs[a..k + 1] == cs[a..k] + [cs[k]];
    EncodeChunksAppend(cs[a..k], [cs[k]]);
    assert [cs[k]][1..] == [];
  }
}
