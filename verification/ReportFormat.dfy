/** Sender and receiver reports (section 6.4 of RFC 3550): RTCPSRPacket, RTCPRRPacket and the
    encoding that the compound packet builder writes. */
module ReportFormat {
  import opened Wire

  type I32 = x: int | -0x8000_0000 <= x < 0x8000_0000

  datatype SenderInfo = SenderInfo(ntpmsw: U32, ntplsw: U32, rtptimestamp: U32, packetcount: U32, octetcount: U32)

  datatype ReportBlock = ReportBlock(
    ssrc: U32, fractionlost: Byte, packetslost: I32, exthighestseq: U32, jitter: U32, lsr: U32, dlsr: U32)

  // ----- encoding -----

  function EncodeSenderInfo(i: SenderInfo): (b: seq<Byte>)
    ensures |b| == SENDER_INFO_SIZE
  {
    Net32(i.ntpmsw) + Net32(i.ntplsw) + Net32(i.rtptimestamp) + Net32(i.packetcount) + Net32(i.octetcount)
  }

  /** The three low bytes of the two's complement of the loss count. */
  function EncodeLost(lost: I32): (b: seq<Byte>)
    ensures |b| == 3
  {
    var u := lost % 0x1_0000_0000;
    [u / 0x1_0000 % 256, u / 256 % 256, u % 256]
  }

  function EncodeBlock(r: ReportBlock): (b: seq<Byte>)
    ensures |b| == BLOCK_SIZE
  {
    Net32(r.ssrc) + [r.fractionlost] + EncodeLost(r.packetslost)
      + Net32(r.exthighestseq) + Net32(r.jitter) + Net32(r.lsr) + Net32(r.dlsr)
  }

  /** The blocks one after the other, each in a buffer of its own. */
  function BlockBuffers(rs: seq<ReportBlock>): (bs: seq<seq<Byte>>)
    ensures |bs| == |rs| && forall i :: 0 <= i < |bs| ==> bs[i] == EncodeBlock(rs[i])
    ensures AllBlockSized(bs)
  {
    seq(|rs|, i requires 0 <= i < |rs| => EncodeBlock(rs[i]))
  }

  predicate AllBlockSized(bs: seq<seq<Byte>>) {
    forall i :: 0 <= i < |bs| ==> |bs[i]| == BLOCK_SIZE
  }

  lemma {:induction false} BlockBuffersSize(bs: seq<seq<Byte>>)
    requires AllBlockSized(bs)
    ensures |Flatten(bs)| == |bs| * BLOCK_SIZE
  {
    if bs != [] {
      BlockBuffersSize(bs[1..]);
    }
  }

  // ----- decoding, as the accessors do it -----

  /** The loss count the accessor makes of three bytes: bit 23 is the sign. */
  function DecodeLost(hi: Byte, mid: Byte, lo: Byte): I32 {
    var count := (hi as int) * 0x1_0000 + (mid as int) * 256 + lo as int;
    if count >= 0x80_0000 then count - 0x100_0000 else count
  }

  /** The sign extension of the low 24 bits. */
  function SignExtend24(x: int): (r: I32)
    ensures -0x80_0000 <= r < 0x80_0000 && (r - x) % 0x100_0000 == 0
    ensures r == x <==> -0x80_0000 <= x < 0x80_0000
  {
    var low := x % 0x100_0000;
    if low >= 0x80_0000 then low - 0x100_0000 else low
  }

  lemma ThreeDigits(u: nat)
    ensures
      u == (u / 0x1_0000 / 256) * 0x100_0000
        + ((u / 0x1_0000 % 256) * 0x1_0000 + (u / 256 % 256) * 256 + u % 256)
  {
    var middle, high := u / 256, u / 256 / 256;
    assert u == middle * 256 + u % 256;
    assert middle == high * 256 + middle % 256;
    Quotient16(u, high, middle % 256 * 256 + u % 256);
    assert high == high / 256 * 256 + high % 256;
  }

  lemma Quotient16(x: nat, q: nat, r: nat)
    requires x == q * 0x1_0000 + r && r < 0x1_0000
    ensures x / 0x1_0000 == q
  {
  }

  lemma Remainder24(x: int, k: int, r: int)
    requires x == k * 0x100_0000 + r && 0 <= r < 0x100_0000
    ensures x % 0x100_0000 == r
  {
  }

  lemma LostRoundTrip(lost: I32)
    ensures
      var b := EncodeLost(lost);
      DecodeLost(b[0], b[1], b[2]) == SignExtend24(lost)
  {
    var u := lost % 0x1_0000_0000;
    var b := EncodeLost(lost);
    var low := (b[0] as int) * 0x1_0000 + (b[1] as int) * 256 + b[2] as int;
    var q := u / 0x1_0000 / 256;
    ThreeDigits(u);
    if lost >= 0 {
      assert u == lost;
      Remainder24(lost, q, low);
    } else {
      assert u == lost + 0x1_0000_0000;
      Remainder24(lost, q - 256, low);
    }
  }

  function BlockAt(d: seq<Byte>, o: nat): ReportBlock
    requires o + BLOCK_SIZE <= |d|
  {
    ReportBlock(U32At(d, o), d[o + 4], DecodeLost(d[o + 5], d[o + 6], d[o + 7]),
                U32At(d, o + 8), U32At(d, o + 12), U32At(d, o + 16), U32At(d, o + 20))
  }

  function SenderInfoAt(d: seq<Byte>, o: nat): SenderInfo
    requires o + SENDER_INFO_SIZE <= |d|
  {
    SenderInfo(U32At(d, o), U32At(d, o + 4), U32At(d, o + 8), U32At(d, o + 12), U32At(d, o + 16))
  }

  /** The block a receiver gets for a block that was sent: only the loss count can differ. */
  function Received(r: ReportBlock): ReportBlock {
    r.(packetslost := SignExtend24(r.packetslost))
  }

  function ReceivedAll(rs: seq<ReportBlock>): (q: seq<ReportBlock>)
    ensures |q| == |rs|
  {
    seq(|rs|, i requires 0 <= i < |rs| => Received(rs[i]))
  }

  lemma Net32In(d: seq<Byte>, o: nat, n: nat, k: nat, x: U32)
    requires o + n <= |d| && k + 4 <= n
    requires d[o..o + n][k..k + 4] == Net32(x)
    ensures U32At(d, o + k) == x
  {
    SliceOfSlice(d, o, o + n, k, k + 4);
    Net32RoundTrip(d, o + k, x);
  }

  lemma BlockRoundTrip(d: seq<Byte>, o: nat, r: ReportBlock)
    requires o + BLOCK_SIZE <= |d| && d[o..o + BLOCK_SIZE] == EncodeBlock(r)
    ensures BlockAt(d, o) == Received(r)
  {
    var e := d[o..o + BLOCK_SIZE];
    var l := EncodeLost(r.packetslost);
    assert e[..4] == Net32(r.ssrc) && e[4] == r.fractionlost;
    assert e[5] == l[0] && e[6] == l[1] && e[7] == l[2];
    assert d[o + 4] == e[4] && d[o + 5] == e[5] && d[o + 6] == e[6] && d[o + 7] == e[7];
    assert e[8..12] == Net32(r.exthighestseq) && e[12..16] == Net32(r.jitter);
    assert e[16..20] == Net32(r.lsr) && e[20..24] == Net32(r.dlsr);
    Net32In(d, o, BLOCK_SIZE, 0, r.ssrc);
    Net32In(d, o, BLOCK_SIZE, 8, r.exthighestseq);
    Net32In(d, o, BLOCK_SIZE, 12, r.jitter);
    Net32In(d, o, BLOCK_SIZE, 16, r.lsr);
    Net32In(d, o, BLOCK_SIZE, 20, r.dlsr);
    LostRoundTrip(r.packetslost);
  }

  lemma SenderInfoRoundTrip(d: seq<Byte>, o: nat, i: SenderInfo)
    requires o + SENDER_INFO_SIZE <= |d| && d[o..o + SENDER_INFO_SIZE] == EncodeSenderInfo(i)
    ensures SenderInfoAt(d, o) == i
  {
    var e := d[o..o + SENDER_INFO_SIZE];
    assert e[0..4] == Net32(i.ntpmsw) && e[4..8] == Net32(i.ntplsw) && e[8..12] == Net32(i.rtptimestamp);
    assert e[12..16] == Net32(i.packetcount) && e[16..20] == Net32(i.octetcount);
    Net32In(d, o, SENDER_INFO_SIZE, 0, i.ntpmsw);
    Net32In(d, o, SENDER_INFO_SIZE, 4, i.ntplsw);
    Net32In(d, o, SENDER_INFO_SIZE, 8, i.rtptimestamp);
    Net32In(d, o, SENDER_INFO_SIZE, 12, i.packetcount);
    Net32In(d, o, SENDER_INFO_SIZE, 16, i.octetcount);
  }

  /** A block of a run of blocks lies where the index arithmetic looks for it. */
  lemma BlockPlace(pre: seq<Byte>, bs: seq<seq<Byte>>, k: nat, o: nat)
    requires AllBlockSized(bs) && k < |bs| && o == |pre| + k * BLOCK_SIZE
    ensures o + BLOCK_SIZE <= |pre + Flatten(bs)|
    ensures (pre + Flatten(bs))[o..o + BLOCK_SIZE] == bs[k]
  {
    FlattenSplit(bs, k);
    BlockBuffersSize(bs[..k]);
    assert pre + Flatten(bs) == (pre + Flatten(bs[..k])) + bs[k] + Flatten(bs[k + 1..]);
  }

  // ----- the packet classes -----

  /** The size a report with the header's block count must have once the padding is removed. */
  ghost predicate ReportSizeOk(p: seq<Byte>, fixed: nat)
    requires HEADER_SIZE <= |p|
  {
    UnpaddedLength(p) == Some(fixed + BLOCK_SIZE * Count(p))
  }

  const SR_FIXED := HEADER_SIZE + 4 + SENDER_INFO_SIZE
  const RR_FIXED := HEADER_SIZE + 4

  class SRPacket {
    const data: seq<Byte>
    const knownformat: bool

    ghost predicate Valid() {
      HEADER_SIZE <= |data| && (knownformat <==> ReportSizeOk(data, SR_FIXED))
    }

    constructor (packet: seq<Byte>)
      requires HEADER_SIZE <= |packet|
      ensures data == packet && Valid()
    {
      data := packet;
      var len := UnpaddedLength(packet);
      var expectedlength := HEADER_SIZE + 4 + SENDER_INFO_SIZE;
      expectedlength := expectedlength + BLOCK_SIZE * Count(packet);
      knownformat := len.Some? && expectedlength == len.value;
    }

    function GetSenderSSRC(): U32
      requires Valid()
    {
      if !knownformat then 0 else U32At(data, HEADER_SIZE)
    }

    /** GetNTPTimestamp, GetRTPTimestamp, GetSenderPacketCount and GetSenderOctetCount together. */
    function GetSenderInfo(): SenderInfo
      requires Valid()
    {
      if !knownformat then SenderInfo(0, 0, 0, 0, 0) else SenderInfoAt(data, HEADER_SIZE + 4)
    }

    function GetReceptionReportCount(): nat
      requires Valid()
    {
      if !knownformat then 0 else Count(data)
    }

    /** The seven accessors of report block `index` together. */
    function GetReport(index: nat): ReportBlock
      requires Valid() && index < GetReceptionReportCount()
    {
      BlockAt(data, HEADER_SIZE + 4 + SENDER_INFO_SIZE + index * BLOCK_SIZE)
    }

    function Reports(): (rs: seq<ReportBlock>)
      requires Valid()
      ensures |rs| == GetReceptionReportCount()
    {
      seq(GetReceptionReportCount(), i requires 0 <= i < GetReceptionReportCount() => GetReport(i))
    }
  }

  class RRPacket {
    const data: seq<Byte>
    const knownformat: bool

    ghost predicate Valid() {
      HEADER_SIZE <= |data| && (knownformat <==> ReportSizeOk(data, RR_FIXED))
    }

    constructor (packet: seq<Byte>)
      requires HEADER_SIZE <= |packet|
      ensures data == packet && Valid()
    {
      data := packet;
      var len := UnpaddedLength(packet);
      var expectedlength := HEADER_SIZE + 4;
      expectedlength := expectedlength + BLOCK_SIZE * Count(packet);
      knownformat := len.Some? && expectedlength == len.value;
    }

    function GetSenderSSRC(): U32
      requires Valid()
    {
      if !knownformat then 0 else U32At(data, HEADER_SIZE)
    }

    function GetReceptionReportCount(): nat
      requires Valid()
    {
      if !knownformat then 0 else Count(data)
    }

    function GetReport(index: nat): ReportBlock
      requires Valid() && index < GetReceptionReportCount()
    {
      BlockAt(data, HEADER_SIZE + 4 + index * BLOCK_SIZE)
    }

    function Reports(): (rs: seq<ReportBlock>)
      requires Valid()
      ensures |rs| == GetReceptionReportCount()
    {
      seq(GetReceptionReportCount(), i requires 0 <= i < GetReceptionReportCount() => GetReport(i))
    }
  }

  // ----- one report packet -----

  /** Who a report is from; an SR also carries sender information. */
  datatype Sender = NoReport | SR(ssrc: U32, info: SenderInfo) | RR(ssrc: U32)

  function FixedSize(s: Sender): nat
    requires !s.NoReport?
  {
    if s.SR? then SR_FIXED else RR_FIXED
  }

  function ReportType(s: Sender): Byte {
    if s.SR? then TYPE_SR else TYPE_RR
  }

  function ReportHeader(s: Sender, count: nat): (h: seq<Byte>)
    requires !s.NoReport? && count <= MAX_COUNT
    ensures |h| == HEADER_SIZE
  {
    Header(count, ReportType(s), FixedSize(s) + BLOCK_SIZE * count)
  }

  /** What follows the header before the blocks: the source and, in an SR, the sender information. */
  function HeaderData(s: Sender): (h: seq<Byte>)
    ensures |h| == if s.NoReport? then 0 else FixedSize(s) - HEADER_SIZE
  {
    match s
    case NoReport => []
    case SR(ssrc, info) => Net32(ssrc) + EncodeSenderInfo(info)
    case RR(ssrc) => Net32(ssrc)
  }

  function ReportPacket(s: Sender, rs: seq<ReportBlock>): (p: seq<Byte>)
    requires !s.NoReport? && |rs| <= MAX_COUNT
    ensures |p| == FixedSize(s) + BLOCK_SIZE * |rs|
  {
    BlockBuffersSize(BlockBuffers(rs));
    ReportStart(s, |rs|) + Flatten(BlockBuffers(rs))
  }

  /** What precedes the blocks in a report packet that holds `count` of them. */
  function ReportStart(s: Sender, count: nat): (p: seq<Byte>)
    requires !s.NoReport? && count <= MAX_COUNT
    ensures |p| == FixedSize(s)
  {
    ReportHeader(s, count) + HeaderData(s)
  }

  lemma ReportPacketHeader(s: Sender, rs: seq<ReportBlock>)
    requires !s.NoReport? && |rs| <= MAX_COUNT
    ensures
      var p := ReportPacket(s, rs);
      && Version(p) == RTP_VERSION && !PaddingBit(p) && Count(p) == |rs|
      && PType(p) == ReportType(s)
      && AnnouncedSize(p) == |p|
  {
    var p := ReportPacket(s, rs);
    assert p[..HEADER_SIZE] == ReportHeader(s, |rs|);
    HeaderFields(p, |rs|, ReportType(s), |p|);
  }

  lemma ReportPacketFixed(s: Sender, rs: seq<ReportBlock>)
    requires !s.NoReport? && |rs| <= MAX_COUNT
    ensures U32At(ReportPacket(s, rs), HEADER_SIZE) == s.ssrc
    ensures s.SR? ==> SenderInfoAt(ReportPacket(s, rs), HEADER_SIZE + 4) == s.info
  {
    var p := ReportPacket(s, rs);
    var h := HeaderData(s);
    assert p[HEADER_SIZE..FixedSize(s)] == h;
    assert h[0..4] == Net32(s.ssrc);
    SliceOfSlice(p, HEADER_SIZE, FixedSize(s), 0, 4);
    Net32RoundTrip(p, HEADER_SIZE, s.ssrc);
    if s.SR? {
      assert h[4..24] == EncodeSenderInfo(s.info);
      SliceOfSlice(p, HEADER_SIZE, FixedSize(s), 4, 24);
      SenderInfoRoundTrip(p, HEADER_SIZE + 4, s.info);
    }
  }

  lemma ReportPacketBlocks(s: Sender, rs: seq<ReportBlock>, k: nat)
    requires !s.NoReport? && |rs| <= MAX_COUNT && k < |rs|
    ensures BlockAt(ReportPacket(s, rs), FixedSize(s) + k * BLOCK_SIZE) == Received(rs[k])
  {
    var p := ReportPacket(s, rs);
    var o := FixedSize(s) + k * BLOCK_SIZE;
    BlockPlace(ReportStart(s, |rs|), BlockBuffers(rs), k, o);
    BlockRoundTrip(p, o, rs[k]);
  }

  /** An object made of an encoded sender report knows its format and its accessors return
      what was put in. */
  lemma SenderReportRoundTrip(s: Sender, rs: seq<ReportBlock>, p: SRPacket)
    requires s.SR? && |rs| <= MAX_COUNT && p.Valid() && p.data == ReportPacket(s, rs)
    ensures p.knownformat && p.GetSenderSSRC() == s.ssrc && p.GetSenderInfo() == s.info
    ensures p.Reports() == ReceivedAll(rs)
  {
    ReportPacketHeader(s, rs);
    ReportPacketFixed(s, rs);
    forall k | 0 <= k < |rs|
      ensures p.GetReport(k) == Received(rs[k])
    {
      ReportPacketBlocks(s, rs, k);
    }
  }

  lemma ReceiverReportRoundTrip(s: Sender, rs: seq<ReportBlock>, p: RRPacket)
    requires !s.NoReport? && !s.SR? && |rs| <= MAX_COUNT && p.Valid() && p.data == ReportPacket(s, rs)
    ensures p.knownformat && p.GetSenderSSRC() == s.ssrc
    ensures p.Reports() == ReceivedAll(rs)
  {
    ReportPacketHeader(s, rs);
    ReportPacketFixed(s, rs);
    forall k | 0 <= k < |rs|
      ensures p.GetReport(k) == Received(rs[k])
    {
      ReportPacketBlocks(s, rs, k);
    }
  }

  // ----- any report that is received -----

  lemma LowDigits(u: nat, high: nat, hi: Byte, mid: Byte, lo: Byte)
    requires u == ((high * 256 + hi) * 256 + mid) * 256 + lo
    ensures u / 0x1_0000 % 256 == hi && u / 256 % 256 == mid && u % 256 == lo
  {
    ByteAndRest(u, (high * 256 + hi) * 256 + mid, lo);
    ByteAndRest((high * 256 + hi) * 256 + mid, high * 256 + hi, mid);
    ByteAndRest(high * 256 + hi, high, hi);
    assert u / 0x1_0000 == high * 256 + hi;
  }

  lemma LostBytes(hi: Byte, mid: Byte, lo: Byte)
    ensures EncodeLost(DecodeLost(hi, mid, lo)) == [hi, mid, lo]
  {
    var lost: int := DecodeLost(hi, mid, lo);
    LowDigits(lost % 0x1_0000_0000, if lost < 0 then 255 else 0, hi, mid, lo);
  }

  /** A block that was read is the block whose bytes are there. */
  lemma BlockBytes(d: seq<Byte>, o: nat)
    requires o + BLOCK_SIZE <= |d|
    ensures EncodeBlock(BlockAt(d, o)) == d[o..o + BLOCK_SIZE]
  {
    LostBytes(d[o + 5], d[o + 6], d[o + 7]);
    U32AtBytes(d, o);
    U32AtBytes(d, o + 8);
    U32AtBytes(d, o + 12);
    U32AtBytes(d, o + 16);
    U32AtBytes(d, o + 20);
    var e := EncodeBlock(BlockAt(d, o));
    assert e == d[o..o + 4] + [d[o + 4]] + [d[o + 5], d[o + 6], d[o + 7]] + d[o + 8..o + 12] + d[o + 12..o + 16]
      + d[o + 16..o + 20] + d[o + 20..o + 24];
  }

  lemma InfoBytes(d: seq<Byte>, o: nat)
    requires o + SENDER_INFO_SIZE <= |d|
    ensures EncodeSenderInfo(SenderInfoAt(d, o)) == d[o..o + SENDER_INFO_SIZE]
  {
    U32AtBytes(d, o);
    U32AtBytes(d, o + 4);
    U32AtBytes(d, o + 8);
    U32AtBytes(d, o + 12);
    U32AtBytes(d, o + 16);
    assert EncodeSenderInfo(SenderInfoAt(d, o))
      == d[o..o + 4] + d[o + 4..o + 8] + d[o + 8..o + 12] + d[o + 12..o + 16] + d[o + 16..o + 20];
  }

  /** The `n` blocks from `o` on, one after the other. */
  function ReadBlocks(d: seq<Byte>, o: nat, n: nat): (rs: seq<ReportBlock>)
    requires o + n * BLOCK_SIZE <= |d|
    ensures |rs| == n
    decreases n
  {
    if n == 0 then [] else [BlockAt(d, o)] + ReadBlocks(d, o + BLOCK_SIZE, n - 1)
  }

  lemma {:induction false} ReadBlocksBytes(d: seq<Byte>, o: nat, n: nat)
    requires o + n * BLOCK_SIZE <= |d|
    ensures Flatten(BlockBuffers(ReadBlocks(d, o, n))) == d[o..o + n * BLOCK_SIZE]
    decreases n
  {
    if n > 0 {
      var rest := ReadBlocks(d, o + BLOCK_SIZE, n - 1);
      ReadBlocksBytes(d, o + BLOCK_SIZE, n - 1);
      BlockBytes(d, o);
      BuffersCons(BlockAt(d, o), rest);
      SliceJoin(d, o, o + BLOCK_SIZE, o + n * BLOCK_SIZE);
    }
  }

  lemma BuffersCons(r: ReportBlock, rest: seq<ReportBlock>)
    ensures Flatten(BlockBuffers([r] + rest)) == EncodeBlock(r) + Flatten(BlockBuffers(rest))
  {
    assert BlockBuffers([r] + rest) == [EncodeBlock(r)] + BlockBuffers(rest);
    FlattenCons(EncodeBlock(r), BlockBuffers(rest));
  }

  lemma {:induction false} ReadBlocksAt(d: seq<Byte>, o: nat, n: nat, k: nat)
    requires o + n * BLOCK_SIZE <= |d| && k < n
    ensures ReadBlocks(d, o, n)[k] == BlockAt(d, o + k * BLOCK_SIZE)
    decreases n
  {
    if k > 0 {
      ReadBlocksAt(d, o + BLOCK_SIZE, n - 1, k - 1);
    }
  }

  /** Blocks that were read one by one are the blocks whose bytes are there. */
  lemma BlocksBytes(d: seq<Byte>, o: nat, rs: seq<ReportBlock>)
    requires o + |rs| * BLOCK_SIZE <= |d| && forall k :: 0 <= k < |rs| ==> rs[k] == BlockAt(d, o + k * BLOCK_SIZE)
    ensures Flatten(BlockBuffers(rs)) == d[o..o + |rs| * BLOCK_SIZE]
  {
    ReadBlocksBytes(d, o, |rs|);
    forall k | 0 <= k < |rs|
      ensures ReadBlocks(d, o, |rs|)[k] == rs[k]
    {
      ReadBlocksAt(d, o, |rs|, k);
    }
    assert ReadBlocks(d, o, |rs|) == rs;
  }

  /** Whoever sent it and whatever padding it has: the accessors of an SR packet of known format return
      all its bytes after the header and before the padding; of another, nothing. */
  lemma SenderReportBytes(p: SRPacket)
    requires p.Valid()
    ensures p.knownformat ==>
      var len := UnpaddedLength(p.data);
      && len.Some? && HEADER_SIZE <= len.value
      && p.data[HEADER_SIZE..len.value]
         == Net32(p.GetSenderSSRC()) + EncodeSenderInfo(p.GetSenderInfo()) + Flatten(BlockBuffers(p.Reports()))
    ensures !p.knownformat ==>
      p.GetSenderSSRC() == 0 && p.GetSenderInfo() == SenderInfo(0, 0, 0, 0, 0) && p.Reports() == []
  {
    if p.knownformat {
      var len := UnpaddedLength(p.data).value;
      U32AtBytes(p.data, HEADER_SIZE);
      InfoBytes(p.data, HEADER_SIZE + 4);
      BlocksBytes(p.data, SR_FIXED, p.Reports());
      SliceJoin(p.data, HEADER_SIZE, HEADER_SIZE + 4, SR_FIXED);
      SliceJoin(p.data, HEADER_SIZE, SR_FIXED, len);
    }
  }

  /** Likewise for an RR packet. */
  lemma ReceiverReportBytes(p: RRPacket)
    requires p.Valid()
    ensures p.knownformat ==>
      var len := UnpaddedLength(p.data);
      && len.Some? && HEADER_SIZE <= len.value
      && p.data[HEADER_SIZE..len.value] == Net32(p.GetSenderSSRC()) + Flatten(BlockBuffers(p.Reports()))
    ensures !p.knownformat ==> p.GetSenderSSRC() == 0 && p.Reports() == []
  {
    if p.knownformat {
      var len := UnpaddedLength(p.data).value;
      U32AtBytes(p.data, HEADER_SIZE);
      BlocksBytes(p.data, RR_FIXED, p.Reports());
      SliceJoin(p.data, HEADER_SIZE, RR_FIXED, len);
    }
  }
}
