/** RTCPSDESPacket: the validating constructor and the chunk and item cursors.

    The cursors do no bounds checks of their own. Here every byte they read is proved to
    lie before the padding, because the constructor has set `knownformat`. Pointers into the
    packet are offsets; offset 0, where the header is, stands for the null pointer. */
module SdesParser {
  import opened Wire
  import opened SdesFormat

  datatype ItemType = NoItem | CNAME | NAME | EMAIL | PHONE | LOC | TOOL | NOTE | PRIV | UnknownItem

  /** The type the accessor reports for an item identifier. */
  function TypeOfId(id: Byte): ItemType {
    match id
    case 0 => NoItem
    case 1 => CNAME
    case 2 => NAME
    case 3 => EMAIL
    case 4 => PHONE
    case 5 => LOC
    case 6 => TOOL
    case 7 => NOTE
    case 8 => PRIV
    case _ => UnknownItem
  }

  // ----- what the constructor checks, without building the chunks -----

  /** Where the zero byte that ends the item list starting at `o` is. */
  function ItemsEnd(d: seq<Byte>, o: nat): (r: Option<nat>)
    ensures r.Some? ==> o <= r.value < |d|
    decreases |d| - o
  {
    if o >= |d| then None
    else if d[o] == 0 then Some(o)
    else if o + ITEM_HEADER > |d| || o + ITEM_HEADER + d[o + 1] > |d| then None
    else ItemsEnd(d, o + ITEM_HEADER + d[o + 1])
  }

  /** `n` chunks fill the buffer from `o` to its end. */
  predicate ChunksFit(d: seq<Byte>, o: nat, n: nat)
    decreases n
  {
    if n == 0 then o == |d|
    else
      && o + 8 <= |d|
      && ItemsEnd(d, o + 4).Some?
      && Align4(ItemsEnd(d, o + 4).value + 1) <= |d|
      && ChunksFit(d, Align4(ItemsEnd(d, o + 4).value + 1), n - 1)
  }

  lemma {:induction false} ItemsEndComplete(d: seq<Byte>, o: nat, items: seq<Item>)
    requires ItemsAt(d, o, items)
    ensures ItemsEnd(d, o) == Some(o + ItemsSize(items))
    decreases |items|
  {
    if items != [] {
      ItemsEndComplete(d, o + ItemSize(items[0]), items[1..]);
    }
  }

  lemma {:induction false} ItemsEndSound(d: seq<Byte>, o: nat) returns (items: seq<Item>)
    requires ItemsEnd(d, o).Some?
    ensures ItemsAt(d, o, items) && ItemsEnd(d, o) == Some(o + ItemsSize(items))
    decreases |d| - o
  {
    if d[o] == 0 {
      items := [];
    } else {
      var item := Item(d[o], d[o + ITEM_HEADER..o + ITEM_HEADER + d[o + 1]]);
      var rest := ItemsEndSound(d, o + ItemSize(item));
      items := [item] + rest;
      assert items[1..] == rest;
    }
  }

  lemma {:induction false} ChunksFitComplete(d: seq<Byte>, o: nat, cs: seq<Chunk>)
    requires o % 4 == 0 && ChunksAt(d, o, cs)
    ensures ChunksFit(d, o, |cs|)
    decreases |cs|
  {
    if cs != [] {
      ItemsEndComplete(d, o + 4, cs[0].items);
      AlignShift(o + 4, ItemsSize(cs[0].items) + 1);
      ChunksFitComplete(d, o + ChunkSize(cs[0]), cs[1..]);
    }
  }

  lemma {:induction false} ChunksFitSound(d: seq<Byte>, o: nat, n: nat) returns (cs: seq<Chunk>)
    requires o % 4 == 0 && ChunksFit(d, o, n)
    ensures |cs| == n && ChunksAt(d, o, cs)
    decreases n
  {
    if n == 0 {
      cs := [];
    } else {
      var items := ItemsEndSound(d, o + 4);
      var c := Chunk(U32At(d, o), items);
      AlignShift(o + 4, ItemsSize(items) + 1);
      assert ChunkAt(d, o, c);
      var rest := ChunksFitSound(d, o + ChunkSize(c), n - 1);
      ChunksAtCons(d, o, c, rest);
      cs := [c] + rest;
    }
  }

  // ----- the packet -----

  /** The packet without its padding, when the padding is in order. */
  function Body(p: seq<Byte>): (b: seq<Byte>)
    requires HEADER_SIZE <= |p| && UnpaddedLength(p).Some?
  {
    p[..UnpaddedLength(p).value]
  }

  /** The packet holds as many chunks as its header says and nothing else. */
  ghost predicate WellFormed(p: seq<Byte>) {
    && HEADER_SIZE <= |p|
    && UnpaddedLength(p).Some?
    && exists cs :: |cs| == Count(p) && ChunksAt(Body(p), HEADER_SIZE, cs)
  }

  lemma WellFormedFits(p: seq<Byte>)
    requires HEADER_SIZE <= |p| && UnpaddedLength(p).Some?
    ensures WellFormed(p) <==> ChunksFit(Body(p), HEADER_SIZE, Count(p))
  {
    if ChunksFit(Body(p), HEADER_SIZE, Count(p)) {
      var cs := ChunksFitSound(Body(p), HEADER_SIZE, Count(p));
    }
    if WellFormed(p) {
      var cs :| |cs| == Count(p) && ChunksAt(Body(p), HEADER_SIZE, cs);
      ChunksFitComplete(Body(p), HEADER_SIZE, cs);
    }
  }

  /** The chunks of a well-formed packet; there is only one such list. */
  ghost function ChunksOf(p: seq<Byte>): (cs: seq<Chunk>)
    requires WellFormed(p)
    ensures |cs| == Count(p) && ChunksAt(Body(p), HEADER_SIZE, cs)
  {
    var cs :| |cs| == Count(p) && ChunksAt(Body(p), HEADER_SIZE, cs);
    cs
  }

  /** The bytes of item `k` of a list that starts at `o`, read from a packet `p` whose unpadded
      part is `d`. If the list is empty, the byte at `o` is the zero that ends it. */
  lemma ItemBytes(p: seq<Byte>, d: seq<Byte>, o: nat, items: seq<Item>, k: nat)
    requires d <= p && ItemsAt(d, o, items) && (k < |items| || k == 0)
    ensures
      var at := o + ItemsSize(items[..k]);
      && at < |d|
      && (p[at] == 0 <==> items == [])
      && (k < |items| ==>
            && at + ItemSize(items[k]) <= |d|
            && ItemAt(p, at, items[k]))
  {
    ItemsAtStart(d, o, items);
    if k < |items| {
      ItemsAtStep(d, o, items, k);
      var at := o + ItemsSize(items[..k]);
      SliceOfPrefix(p, |d|, at + ITEM_HEADER, at + ItemSize(items[k]));
      assert d == p[..|d|];
    }
  }

  class SDESPacket {
    const data: seq<Byte>
    const knownformat: bool
    // the packet without its padding, and the chunks in it, if it is well formed
    ghost const body: seq<Byte>
    ghost const chunks: seq<Chunk>
    var currentchunk: nat
    var curchunknum: nat
    var itemoffset: nat
    // where the cursors are in the list of chunks
    ghost var chunkpos: nat
    ghost var itempos: nat

    ghost predicate HasCurrent()
      reads this
    {
      knownformat && currentchunk != 0
    }

    /** The three cursor fields denote chunk `chunkpos` and its item `itempos`; when that chunk
        has no items, the item cursor is at the zero byte that ends the list. */
    ghost predicate Placed()
      reads this
    {
      && chunkpos < |chunks|
      && curchunknum == chunkpos + 1
      && currentchunk == HEADER_SIZE + ChunksSize(chunks[..chunkpos])
      && (itempos < |chunks[chunkpos].items| || itempos == 0)
      && itemoffset == 4 + ItemsSize(chunks[chunkpos].items[..itempos])
    }

    /** What the constructor establishes for good. */
    ghost predicate Parsed() {
      && HEADER_SIZE <= |data|
      && (knownformat <==> WellFormed(data))
      && (knownformat ==>
            && body == Body(data) && body <= data
            && |chunks| == Count(data) && ChunksAt(body, HEADER_SIZE, chunks))
    }

    ghost predicate Valid()
      reads this
    {
      && Parsed()
      && (HasCurrent() ==> Placed())
    }

    constructor (packet: seq<Byte>)
      requires HEADER_SIZE <= |packet|
      ensures Valid() && data == packet && currentchunk == 0
    {
      var known := Validate(packet);
      data := packet;
      knownformat := known;
      currentchunk, curchunknum, itemoffset := 0, 0, 0;
      chunkpos, itempos := 0, 0;
      body := if known then Body(packet) else [];
      chunks := if known then ChunksOf(packet) else [];
    }

    /** The checks of the constructor: the remaining length falls as chunks and items are passed. */
    static method Validate(data: seq<Byte>) returns (knownformat: bool)
      requires HEADER_SIZE <= |data|
      ensures knownformat <==> WellFormed(data)
    {
      var len: nat := |data|;
      if PaddingBit(data) {
        var padcount := data[|data| - 1];
        if padcount % 4 != 0 { return false; }
        if padcount >= len { return false; }
        len := len - padcount;
      }
      WellFormedFits(data);
      if Count(data) == 0 {
        knownformat := len == HEADER_SIZE;
      } else {
        knownformat := ValidateChunks(data[..len], Count(data));
      }
    }

    /** The outer loop of the constructor, over the packet without its padding. */
    static method ValidateChunks(body: seq<Byte>, count: nat) returns (knownformat: bool)
      requires count > 0
      ensures knownformat <==> ChunksFit(body, HEADER_SIZE, count)
    {
      var ssrccount := count;
      if |body| < HEADER_SIZE {
        return false;
      }
      var len: nat := |body| - HEADER_SIZE;
      var chunk: nat := HEADER_SIZE;
      while ssrccount > 0 && len > 0
        invariant chunk % 4 == 0 && chunk + len == |body|
        invariant ChunksFit(body, HEADER_SIZE, count) <==> ChunksFit(body, chunk, ssrccount)
      {
        if len < 8 { return false; }
        var fits, chunkoffset := ValidateChunk(body, chunk, len);
        if !fits { return false; }
        len := len - chunkoffset;
        ssrccount := ssrccount - 1;
        chunk := chunk + chunkoffset;
      }
      if len > 0 { return false; }
      if ssrccount > 0 { return false; }
      return true;
    }

    /** The inner loop of the constructor: passes the items of the chunk at `chunk` and its end. */
    static method ValidateChunk(body: seq<Byte>, chunk: nat, total: nat) returns (fits: bool, chunkoffset: nat)
      requires 8 <= total && chunk + total == |body| && chunk % 4 == 0
      ensures fits <==>
        && ItemsEnd(body, chunk + 4).Some?
        && Align4(ItemsEnd(body, chunk + 4).value + 1) <= |body|
      ensures fits ==> chunk + chunkoffset == Align4(ItemsEnd(body, chunk + 4).value + 1)
    {
      ghost var end := ItemsEnd(body, chunk + 4);
      var len: nat := total - 4;
      chunkoffset := 4;
      var done := false;
      while !done
        invariant 4 <= chunkoffset && chunkoffset + len == total
        invariant !done ==> ItemsEnd(body, chunk + chunkoffset) == end
        invariant done ==> end.Some? && chunk + chunkoffset == Align4(end.value + 1)
        decreases !done, len
      {
        if len < 1 { return false, chunkoffset; }
        var at := chunk + chunkoffset;
        if body[at] == 0 {
          len := len - 1;
          chunkoffset := chunkoffset + 1;
          var r := chunkoffset % 4;
          AlignShift(chunk, chunkoffset);
          if r != 0 {
            var addoffset := 4 - r;
            if addoffset > len { return false, chunkoffset; }
            len := len - addoffset;
            chunkoffset := chunkoffset + addoffset;
          }
          done := true;
        } else {
          if len < ITEM_HEADER { return false, chunkoffset; }
          len := len - ITEM_HEADER;
          chunkoffset := chunkoffset + ITEM_HEADER;
          var itemlen := body[at + 1];
          if itemlen > len { return false, chunkoffset; }
          len := len - itemlen;
          chunkoffset := chunkoffset + itemlen;
        }
      }
      return true, chunkoffset;
    }

    // ----- cursors -----

    /** A byte the cursors read: inside the packet and before its padding. */
    function ReadByte(o: nat): Byte
      requires o < |body| && body <= data
    {
      data[o]
    }

    function GetChunkCount(): (n: nat)
      requires Parsed()
      ensures n == if knownformat then |chunks| else 0
    {
      if !knownformat then 0 else Count(data)
    }

    method GotoFirstChunk() returns (found: bool)
      requires Parsed()
      modifies this
      ensures Valid() && HasCurrent() == found
      ensures found <==> knownformat && |chunks| > 0
      ensures found ==> chunkpos == 0 && itempos == 0
    {
      if GetChunkCount() == 0 {
        currentchunk := 0;
        return false;
      }
      currentchunk := HEADER_SIZE;
      curchunknum := 1;
      itemoffset := 4;
      chunkpos, itempos := 0, 0;
      return true;
    }

    ghost predicate HasItem()
      requires Valid()
      reads this
    {
      HasCurrent() && itempos < |chunks[chunkpos].items|
    }

    ghost function CurrentItem(): Item
      requires Valid() && HasItem()
      reads this
    {
      chunks[chunkpos].items[itempos]
    }

    /** The chunk the cursor is at lies where the grammar puts it. */
    lemma CursorPlace()
      requires Valid() && HasCurrent()
      ensures ChunkAt(body, currentchunk, chunks[chunkpos])
    {
      ChunksAtIndex(body, HEADER_SIZE, chunks, chunkpos);
    }

    /** The byte at the cursor is an item's identifier, or the zero that ends an empty list. */
    lemma CursorByte()
      requires Valid() && HasCurrent()
      ensures
        var at := currentchunk + itemoffset;
        && at < |body|
        && (data[at] == 0 <==> !HasItem())
        && (HasItem() ==> at + ItemSize(CurrentItem()) <= |body| && ItemAt(data, at, CurrentItem()))
    {
      CursorPlace();
      ItemBytes(data, body, currentchunk + 4, chunks[chunkpos].items, itempos);
    }

    /** What follows the current item is the next one, or the zero byte if it is the last. */
    lemma CursorStep()
      requires Valid() && HasItem()
      ensures
        var items := chunks[chunkpos].items;
        var next := itemoffset + ItemSize(items[itempos]);
        && next == 4 + ItemsSize(items[..itempos + 1])
        && currentchunk + next < |body|
        && (ReadByte(currentchunk + next) == 0 <==> itempos + 1 == |items|)
    {
      CursorPlace();
      ItemsAtStep(body, currentchunk + 4, chunks[chunkpos].items, itempos);
    }

    lemma CursorHere()
      requires Valid() && HasCurrent()
      ensures currentchunk + itemoffset < |body| && (ReadByte(currentchunk + itemoffset) == 0 <==> !HasItem())
    {
      CursorByte();
    }

    /** Where the bytes of the current item say the next one is. */
    lemma CursorNext()
      requires Valid() && HasItem()
      ensures
        var items, at := chunks[chunkpos].items, currentchunk + itemoffset;
        && at + 1 < |body|
        && var next := itemoffset + ITEM_HEADER + ReadByte(at + 1);
        && next == 4 + ItemsSize(items[..itempos + 1]) && currentchunk + next < |body|
        && (ReadByte(currentchunk + next) == 0 <==> itempos + 1 == |items|)
    {
      CursorByte();
      CursorStep();
    }

    /** The loop of GotoNextChunk: the distance from a chunk to the one after it. */
    method SkipChunk(at: nat, ghost chunk: Chunk) returns (offset: nat)
      requires body <= data && ChunkAt(body, at, chunk)
      ensures offset == ChunkSize(chunk)
    {
      ghost var items := chunk.items;
      ghost var passed := 0;
      offset := 4;
      ItemsAtStart(body, at + 4, items);
      while ReadByte(at + offset) != 0
        invariant passed <= |items|
        invariant offset == 4 + ItemsSize(items[..passed])
        invariant at + offset < |body|
        invariant body[at + offset] == 0 <==> passed == |items|
        decreases |items| - passed
      {
        ItemsAtStep(body, at + 4, items, passed);
        offset := offset + ITEM_HEADER + ReadByte(at + offset + 1);
        passed := passed + 1;
      }
      assert items[..passed] == items;
      offset := offset + 1;
      if offset % 4 != 0 {
        offset := offset + (4 - offset % 4);
      }
    }

    method GotoNextChunk() returns (found: bool)
      requires Valid()
      modifies this
      ensures Valid()
      ensures found <==> old(HasCurrent()) && old(chunkpos) + 1 < |chunks|
      ensures found ==> HasCurrent() && chunkpos == old(chunkpos) + 1 && itempos == 0
      ensures !found ==> unchanged(this)
    {
      if !knownformat { return false; }
      if currentchunk == 0 { return false; }
      if curchunknum == GetChunkCount() { return false; }
      CursorPlace();
      ChunksSizePush(chunks, chunkpos);
      var offset := SkipChunk(currentchunk, chunks[chunkpos]);
      currentchunk := currentchunk + offset;
      curchunknum := curchunknum + 1;
      itemoffset := 4;
      chunkpos, itempos := chunkpos + 1, 0;
      return true;
    }

    method GetChunkSSRC() returns (ssrc: U32)
      requires Valid()
      ensures ssrc == if HasCurrent() then chunks[chunkpos].ssrc else 0
    {
      if !knownformat { return 0; }
      if currentchunk == 0 { return 0; }
      CursorPlace();
      assert U32At(body, currentchunk) == U32At(data, currentchunk);
      return U32At(data, currentchunk);
    }

    method GotoFirstItem() returns (found: bool)
      requires Valid()
      modifies this`itemoffset, this`itempos
      ensures Valid()
      ensures found <==> HasCurrent() && chunks[chunkpos].items != []
      ensures HasCurrent() ==> itempos == 0
    {
      if !knownformat { return false; }
      if currentchunk == 0 { return false; }
      itemoffset := 4;
      itempos := 0;
      CursorByte();
      if ReadByte(currentchunk + itemoffset) == 0 { return false; }
      return true;
    }

    method GotoNextItem() returns (found: bool)
      requires Valid()
      modifies this`itemoffset, this`itempos
      ensures Valid()
      ensures found <==> HasCurrent() && old(itempos) + 1 < |chunks[chunkpos].items|
      ensures found ==> itempos == old(itempos) + 1
      ensures !found ==> unchanged(this)
    {
      if !knownformat { return false; }
      if currentchunk == 0 { return false; }
      CursorHere();
      if ReadByte(currentchunk + itemoffset) == 0 { return false; }
      CursorNext();
      var offset := itemoffset;
      offset := offset + ITEM_HEADER;
      offset := offset + ReadByte(currentchunk + itemoffset + 1);
      if ReadByte(currentchunk + offset) == 0 { return false; }
      itemoffset := offset;
      itempos := itempos + 1;
      return true;
    }

    method GetItemType() returns (t: ItemType)
      requires Valid()
      ensures t == if HasItem() then TypeOfId(CurrentItem().id) else NoItem
      ensures HasItem() <==> t != NoItem
    {
      if !knownformat { return NoItem; }
      if currentchunk == 0 { return NoItem; }
      CursorByte();
      return TypeOfId(ReadByte(currentchunk + itemoffset));
    }

    method GetItemLength() returns (length: nat)
      requires Valid()
      ensures length == if HasItem() then |CurrentItem().data| else 0
    {
      if !knownformat { return 0; }
      if currentchunk == 0 { return 0; }
      CursorByte();
      if ReadByte(currentchunk + itemoffset) == 0 { return 0; }
      return ReadByte(currentchunk + itemoffset + 1);
    }

    /** The bytes GetItemData points at, for as long as GetItemLength says. */
    method GetItemData() returns (value: seq<Byte>)
      requires Valid()
      ensures value == if HasItem() then CurrentItem().data else []
    {
      if !knownformat { return []; }
      if currentchunk == 0 { return []; }
      CursorByte();
      if ReadByte(currentchunk + itemoffset) == 0 { return []; }
      var start := currentchunk + itemoffset + ITEM_HEADER;
      var length := ReadByte(currentchunk + itemoffset + 1);
      value := data[start..start + length];
    }

    // ----- PRIV items: a length byte, a prefix and a value inside the item's data -----

    /** The checks the four PRIV accessors share, and where the prefix and the value start. */
    static method LocatePRIV(data: seq<Byte>, at: nat, ghost item: Item)
      returns (found: bool, prefix: nat, value: nat, end: nat)
      requires ItemAt(data, at, item)
      ensures found <==> PrivProper(item.data)
      ensures found ==> prefix <= value <= end <= |data|
      ensures found ==> data[prefix..value] == PrivPrefix(item.data) && data[value..end] == PrivValue(item.data)
    {
      prefix, value, end := 0, 0, 0;
      var length := data[at + 1];
      if length == 0 { return false, 0, 0, 0; }
      PrivBytes(data, at, item);
      var prefixlength := data[at + ITEM_HEADER];
      if prefixlength > length - 1 { return false, 0, 0, 0; }
      prefix := at + ITEM_HEADER + 1;
      value := prefix + prefixlength;
      end := at + ITEM_HEADER + length;
      return true, prefix, value, end;
    }

    method GetPRIVPrefix() returns (bytes: seq<Byte>)
      requires Valid()
      ensures bytes == if HasItem() && CurrentItem().id == ID_PRIVATE
                       then PrivPrefix(CurrentItem().data) else []
    {
      if !knownformat { return []; }
      if currentchunk == 0 { return []; }
      CursorByte();
      if ReadByte(currentchunk + itemoffset) != ID_PRIVATE { return []; }
      var found, prefix, value, end := LocatePRIV(data, currentchunk + itemoffset, CurrentItem());
      return if found then data[prefix..value] else [];
    }

    method GetPRIVValue() returns (bytes: seq<Byte>)
      requires Valid()
      ensures bytes == if HasItem() && CurrentItem().id == ID_PRIVATE
                       then PrivValue(CurrentItem().data) else []
    {
      if !knownformat { return []; }
      if currentchunk == 0 { return []; }
      CursorByte();
      if ReadByte(currentchunk + itemoffset) != ID_PRIVATE { return []; }
      var found, prefix, value, end := LocatePRIV(data, currentchunk + itemoffset, CurrentItem());
      return if found then data[value..end] else [];
    }
  }

  // ----- a full walk -----

  /** What a client learns of an item and of a chunk. */
  datatype ItemView = Normal(t: ItemType, text: seq<Byte>) | Private(prefix: seq<Byte>, text: seq<Byte>)

  datatype ChunkView = ChunkView(ssrc: U32, items: seq<ItemView>)

  function ViewItem(item: Item): ItemView {
    if item.id == ID_PRIVATE then Private(PrivPrefix(item.data), PrivValue(item.data))
    else Normal(TypeOfId(item.id), item.data)
  }

  function ViewItems(items: seq<Item>): (v: seq<ItemView>)
    ensures |v| == |items|
  {
    seq(|items|, i requires 0 <= i < |items| => ViewItem(items[i]))
  }

  function ViewChunks(cs: seq<Chunk>): (v: seq<ChunkView>)
    ensures |v| == |cs|
  {
    seq(|cs|, i requires 0 <= i < |cs| => ChunkView(cs[i].ssrc, ViewItems(cs[i].items)))
  }

  /** The item identifiers of section 6.5 of RFC 3550; every other one is unknown. */
  lemma TypeTable(id: Byte)
    ensures TypeOfId(id)
      == if id < 9 then [NoItem, CNAME, NAME, EMAIL, PHONE, LOC, TOOL, NOTE, PRIV][id] else UnknownItem
  {
  }

  /** What is seen of item `j` of chunk `i`: the source, the type and the text, or for a private item the
      part its first byte measures and the rest. */
  lemma ViewAt(cs: seq<Chunk>, i: nat, j: nat)
    requires i < |cs| && j < |cs[i].items|
    ensures |ViewChunks(cs)| == |cs| && ViewChunks(cs)[i].ssrc == cs[i].ssrc
    ensures |ViewChunks(cs)[i].items| == |cs[i].items|
    ensures
      var item, v := cs[i].items[j], ViewChunks(cs)[i].items[j];
      if item.id != 8 then v == Normal(TypeOfId(item.id), item.data)
      else if item.data != [] && item.data[0] < |item.data| then
        v == Private(item.data[1..1 + item.data[0]], item.data[1 + item.data[0]..])
      else v == Private([], [])
  {
  }

  lemma ViewChunksPush(cs: seq<Chunk>, k: nat)
    requires k < |cs|
    ensures ViewChunks(cs[..k + 1]) == ViewChunks(cs[..k]) + [ChunkView(cs[k].ssrc, ViewItems(cs[k].items))]
  {
  }

  /** The loop with which RTPSources reads an SDES packet sees every chunk and every item, once
      and in order, and nothing in a packet that is not well formed. */
  method Walk(p: SDESPacket) returns (seen: seq<ChunkView>)
    requires p.Parsed()
    modifies p
    ensures p.Valid()
    ensures seen == if p.knownformat then ViewChunks(p.chunks) else []
  {
    seen := [];
    var more := p.GotoFirstChunk();
    while more
      invariant p.Valid() && (more ==> p.HasCurrent() && p.chunkpos == |seen|)
      invariant p.knownformat ==> |seen| <= |p.chunks| && seen == ViewChunks(p.chunks[..|seen|])
      invariant !more ==> |seen| == if p.knownformat then |p.chunks| else 0
      decreases more, if p.knownformat then |p.chunks| - |seen| else 0
    {
      var ssrc := p.GetChunkSSRC();
      var items := WalkItems(p);
      ViewChunksPush(p.chunks, |seen|);
      seen := seen + [ChunkView(ssrc, items)];
      more := p.GotoNextChunk();
    }
    if p.knownformat {
      assert p.chunks[..|seen|] == p.chunks;
    }
  }

  /** The current item; the parts of a private item have accessors of their own. */
  method ReadItem(p: SDESPacket) returns (view: ItemView)
    requires p.Valid() && p.HasItem()
    ensures view == ViewItem(p.CurrentItem())
  {
    var t := p.GetItemType();
    if t != PRIV {
      var text := p.GetItemData();
      view := Normal(t, text);
    } else {
      var prefix := p.GetPRIVPrefix();
      var text := p.GetPRIVValue();
      view := Private(prefix, text);
    }
  }

  lemma ViewItemsPush(items: seq<Item>, k: nat)
    requires k < |items|
    ensures ViewItems(items[..k + 1]) == ViewItems(items[..k]) + [ViewItem(items[k])]
  {
  }

  method WalkItems(p: SDESPacket) returns (items: seq<ItemView>)
    requires p.Valid() && p.HasCurrent()
    modifies p
    ensures p.Valid() && p.HasCurrent() && p.chunkpos == old(p.chunkpos)
    ensures items == ViewItems(p.chunks[p.chunkpos].items)
  {
    items := [];
    var more := p.GotoFirstItem();
    ghost var all := p.chunks[p.chunkpos].items;
    while more
      invariant p.Valid() && p.HasCurrent() && p.chunkpos == old(p.chunkpos)
      invariant |items| <= |all| && items == ViewItems(all[..|items|])
      invariant if more then p.itempos == |items| < |all| else |items| == |all|
      decreases more, |all| - |items|
    {
      var view := ReadItem(p);
      ViewItemsPush(all, |items|);
      items := items + [view];
      more := p.GotoNextItem();
    }
    assert all[..|items|] == all;
  }
}
