/** The Report, SDESSource and SDES classes inside RTCPCompoundPacketBuilder: they keep encoded
    pieces and predict sizes. Each carries, as ghost fields, what its pieces encode. */
module BuilderParts {
  import opened Wire
  import opened SdesFormat
  import opened ReportFormat
  import opened BuilderModel
  import opened PacketSizes

  function ItemBuffers(items: seq<Item>): (bs: seq<seq<Byte>>)
    ensures |bs| == |items| && forall i :: 0 <= i < |bs| ==> bs[i] == EncodeItem(items[i])
  {
    seq(|items|, i requires 0 <= i < |items| => EncodeItem(items[i]))
  }

  /** The Report class: the header that was started and the encoded blocks. */
  class Report {
    var isSR: bool
    var headerdata: seq<Byte>
    var headerlength: nat
    var reportblocks: seq<seq<Byte>>
    ghost var sender: Sender
    ghost var blocks: seq<ReportBlock>

    ghost predicate Valid()
      reads this
    {
      && headerdata == HeaderData(sender) && headerlength == |headerdata|
      && isSR == sender.SR?
      && (sender.NoReport? ==> blocks == [])
      && reportblocks == BlockBuffers(blocks)
    }

    constructor ()
      ensures Valid() && sender == NoReport
    {
      isSR := false;
      headerdata := [];
      headerlength := 0;
      reportblocks := [];
      sender, blocks := NoReport, [];
    }

    method Clear()
      modifies this
      ensures Valid() && sender == NoReport && blocks == []
    {
      reportblocks := [];
      isSR := false;
      headerdata := [];
      headerlength := 0;
      sender, blocks := NoReport, [];
    }

    function NeededBytes(): (x: nat)
      requires Valid()
      reads this
      ensures x == ReportSize(sender, |blocks|)
    {
      var n := |reportblocks|;
      if n == 0 then
        if headerlength == 0 then 0 else HEADER_SIZE + headerlength
      else
        var d := n / 31;
        var r := n % 31;
        n * 24 + (if r != 0 then d + 1 else d) * 8 + (if isSR then SENDER_INFO_SIZE else 0)
    }

    function NeededBytesWithExtraReportBlock(): (x: nat)
      requires Valid()
      reads this
      ensures x == if sender.NoReport? then 32 else ReportSize(sender, |blocks| + 1)
    {
      var n := |reportblocks| + 1;
      var d := n / 31;
      var r := n % 31;
      n * 24 + (if r != 0 then d + 1 else d) * 8 + (if isSR then SENDER_INFO_SIZE else 0)
    }
  }

  /** The SDESSource class: one chunk, its items already encoded. */
  class SDESSource {
    var ssrc: U32
    var items: seq<seq<Byte>>
    var totalitemsize: nat
    ghost var chunk: Chunk

    ghost predicate Valid()
      reads this
    {
      && ssrc == chunk.ssrc
      && ItemsProper(chunk.items)
      && items == ItemBuffers(chunk.items)
      && totalitemsize == ItemsSize(chunk.items)
    }

    constructor (s: U32)
      ensures Valid() && chunk == Chunk(s, [])
    {
      ssrc := s;
      items := [];
      totalitemsize := 0;
      chunk := Chunk(s, []);
    }

    function NeededBytes(): (n: nat)
      requires Valid()
      reads this
      ensures n == ChunkSize(chunk)
    {
      var x := totalitemsize + 1;
      var r := x % 4;
      (if r != 0 then x + (4 - r) else x) + 4
    }

    function NeededBytesWithExtraItem(itemdatalength: nat): (n: nat)
      requires Valid()
      reads this
      ensures n == 4 + Align4(ItemsSize(chunk.items) + ITEM_HEADER + itemdatalength + 1)
    {
      var x := totalitemsize + ITEM_HEADER + itemdatalength + 1;
      var r := x % 4;
      (if r != 0 then x + (4 - r) else x) + 4
    }

    method AddItem(buf: seq<Byte>, ghost item: Item)
      requires Valid() && item.id != 0 && buf == EncodeItem(item)
      modifies this
      ensures Valid() && chunk == old(chunk).(items := old(chunk).items + [item])
    {
      totalitemsize := totalitemsize + |buf|;
      items := items + [buf];
      ItemsSizeAppend(chunk.items, [item]);
      ItemsSizeOne(item);
      chunk := chunk.(items := chunk.items + [item]);
    }
  }

  /** The SDES class: the chunks so far; `sdesit` is the current one, always the last. */
  class SDES {
    var sdessources: seq<SDESSource>
    var sdesit: nat
    ghost var chunks: seq<Chunk>

    ghost predicate Valid()
      reads this, sdessources
    {
      && (sdessources != [] ==> sdesit == |sdessources| - 1)
      && |chunks| == |sdessources|
      && (forall i, j :: 0 <= i < j < |sdessources| ==> sdessources[i] != sdessources[j])
      && (forall i :: 0 <= i < |sdessources| ==> sdessources[i].Valid() && sdessources[i].chunk == chunks[i])
    }

    constructor ()
      ensures Valid() && sdessources == []
    {
      sdessources := [];
      sdesit := 0;
      chunks := [];
    }

    method Clear()
      modifies this
      ensures Valid() && sdessources == [] && chunks == []
    {
      sdessources := [];
      chunks := [];
    }

    method AddSSRC(ssrc: U32)
      requires Valid()
      modifies this
      ensures Valid() && chunks == old(chunks) + [Chunk(ssrc, [])]
      ensures exists s :: fresh(s) && sdessources == old(sdessources) + [s]
    {
      var s := new SDESSource(ssrc);
      sdessources := sdessources + [s];
      sdesit := |sdessources| - 1;
      chunks := chunks + [Chunk(ssrc, [])];
    }

    method AddItem(buf: seq<Byte>, ghost item: Item)
      requires Valid() && sdessources != [] && item.id != 0 && buf == EncodeItem(item)
      modifies this, sdessources
      ensures Valid() && sdessources == old(sdessources)
      ensures chunks == WithItem(old(chunks), item)
    {
      sdessources[sdesit].AddItem(buf, item);
      chunks := WithItem(chunks, item);
    }

    method NeededBytes() returns (x: nat)
      requires Valid()
      ensures x == SdesSize(chunks)
    {
      x := 0;
      if |sdessources| == 0 { return 0; }
      x := SumNeededBytes(|sdessources|);
      assert chunks[..|chunks|] == chunks;
      var n := |sdessources|;
      var d := n / 31;
      var r := n % 31;
      if r != 0 { d := d + 1; }
      x := x + d * HEADER_SIZE;
    }

    /** The accumulator loop over the sources before `end`. */
    method SumNeededBytes(end: nat) returns (x: nat)
      requires Valid() && end <= |sdessources|
      ensures x == ChunksSize(chunks[..end])
    {
      x := 0;
      var it := 0;
      while it < end
        invariant it <= end && x == ChunksSize(chunks[..it])
      {
        x := x + sdessources[it].NeededBytes();
        ChunksSizePush(chunks, it);
        it := it + 1;
      }
    }

    method NeededBytesWithExtraItem(itemdatalength: nat) returns (x: nat)
      requires Valid() && itemdatalength <= 255
      ensures chunks == [] ==> x == 0
      ensures chunks != [] ==>
        forall item: Item :: |item.data| == itemdatalength ==> x == SdesSize(WithItem(chunks, item))
    {
      x := 0;
      if |sdessources| == 0 { return 0; }
      x := SumNeededBytes(sdesit);
      x := x + sdessources[sdesit].NeededBytesWithExtraItem(itemdatalength);
      var n := |sdessources|;
      var d := n / 31;
      var r := n % 31;
      if r != 0 { d := d + 1; }
      x := x + d * HEADER_SIZE;
      forall item: Item | |item.data| == itemdatalength
        ensures x == SdesSize(WithItem(chunks, item))
      {
        WithItemSize(chunks, item);
      }
    }

    /** The predictor answers 0 when there are no sources yet. */
    method NeededBytesWithExtraSource() returns (x: nat)
      requires Valid()
      ensures chunks == [] ==> x == 0
      ensures chunks != [] ==> forall ssrc :: x == SdesSize(chunks + [Chunk(ssrc, [])])
    {
      x := 0;
      if |sdessources| == 0 { return 0; }
      x := SumNeededBytes(|sdessources|);
      assert chunks[..|chunks|] == chunks;
      x := x + 4 * 2;
      var n := |sdessources| + 1;
      var d := n / 31;
      var r := n % 31;
      if r != 0 { d := d + 1; }
      x := x + d * HEADER_SIZE;
      forall ssrc
        ensures x == SdesSize(chunks + [Chunk(ssrc, [])])
      {
        WithSourceSize(chunks, ssrc);
      }
    }
  }
}
