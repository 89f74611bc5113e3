/** The writing half of EndBuild: the loops that fill the buffer, group blocks and chunks by 31,
    pad to 32 bits, and go back to complete each header. `content` is what the buffer holds so far. */
module PacketWriter {
  import opened Wire
  import opened SdesFormat
  import opened ReportFormat
  import opened BuilderModel
  import opened BuilderParts
  import opened PacketSizes
  import opened CompoundPacket

  function Min(a: nat, b: nat): nat {
    if a <= b then a else b
  }

  /** The buffer starts with `content`. */
  predicate Written(buf: array<Byte>, content: seq<Byte>)
    reads buf
  {
    |content| <= buf.Length && buf[..|content|] == content
  }

  /** memcpy to the end of what is written. */
  method Put(buf: array<Byte>, at: nat, bytes: seq<Byte>, ghost content: seq<Byte>)
    requires Written(buf, content) && at == |content| && at + |bytes| <= buf.Length
    modifies buf
    ensures Written(buf, content + bytes)
  {
    var i := 0;
    while i < |bytes|
      invariant i <= |bytes| && Written(buf, content + bytes[..i])
    {
      buf[at + i] := bytes[i];
      i := i + 1;
    }
    assert bytes[..i] == bytes;
  }

  /** The header is written in two goes: version, padding and type first, count and length last. */
  method OpenHeader(buf: array<Byte>, cur: nat, ptype: Byte, ghost content: seq<Byte>)
    returns (ghost raw: seq<Byte>)
    requires Written(buf, content) && cur == |content| && cur + HEADER_SIZE <= buf.Length
    modifies buf
    ensures |raw| == HEADER_SIZE && raw[0] == RTP_VERSION * 64 && raw[1] == ptype
    ensures Written(buf, content + raw)
  {
    buf[cur] := RTP_VERSION * 64;
    buf[cur + 1] := ptype;
    raw := buf[cur..cur + HEADER_SIZE];
    assert buf[..cur] == content;
    SliceJoin(buf[..], 0, cur, cur + HEADER_SIZE);
  }

  method CloseHeader(buf: array<Byte>, cur: nat, count: nat, offset: nat,
                     ghost content: seq<Byte>, ghost raw: seq<Byte>, ghost body: seq<Byte>)
    requires |raw| == HEADER_SIZE && raw[0] == RTP_VERSION * 64
    requires Written(buf, content + raw + body) && cur == |content|
    requires offset == HEADER_SIZE + |body| && offset % 4 == 0 && count <= MAX_COUNT
    modifies buf
    ensures Written(buf, content + (Header(count, raw[1], offset) + body))
  {
    ghost var all := content + raw + body;
    assert buf[..|all|] == all;
    assert buf[cur] == all[cur] && buf[cur + 1] == all[cur + 1];
    var numwords := offset / 4;
    var length := (numwords - 1) % 0x1_0000;
    buf[cur + 2] := length / 256;
    buf[cur + 3] := length % 256;
    buf[cur] := buf[cur] + count;
    HeaderInPlace(all, buf[..|all|], content, raw, body, Header(count, raw[1], offset));
  }

  /** Overwriting the four bytes between `content` and `body`. */
  lemma HeaderInPlace(was: seq<Byte>, now: seq<Byte>, content: seq<Byte>, raw: seq<Byte>, body: seq<Byte>,
      hdr: seq<Byte>)
    requires was == content + raw + body && |raw| == |hdr| == HEADER_SIZE && |now| == |was|
    requires forall i :: 0 <= i < |was| && !(|content| <= i < |content| + HEADER_SIZE) ==> now[i] == was[i]
    requires forall k :: 0 <= k < HEADER_SIZE ==> now[|content| + k] == hdr[k]
    ensures now == content + (hdr + body)
  {
  }

  // ----- reports -----

  /** Copies buffers of 24 bytes one after the other, at most 31 of them, from index `first`. */
  method WriteBlocks(buf: array<Byte>, at: nat, reportblocks: seq<seq<Byte>>, first: nat, ghost content: seq<Byte>)
    returns (count: nat)
    requires AllBlockSized(reportblocks) && first <= |reportblocks|
    requires Written(buf, content) && at == |content|
    requires at + BLOCK_SIZE * Min(MAX_COUNT, |reportblocks| - first) <= buf.Length
    modifies buf
    ensures count == Min(MAX_COUNT, |reportblocks| - first)
    ensures Written(buf, content + Flatten(reportblocks[first..first + count]))
  {
    var offset := at;
    var it: nat := first;
    count := 0;
    while it < |reportblocks| && count < MAX_COUNT
      invariant count <= MAX_COUNT && first <= it == first + count <= |reportblocks|
      invariant offset == at + BLOCK_SIZE * count == at + |Flatten(reportblocks[first..it])|
      invariant Written(buf, content + Flatten(reportblocks[first..it]))
    {
      ghost var done := Flatten(reportblocks[first..it]);
      Put(buf, offset, reportblocks[it], content + done);
      assert reportblocks[first..it + 1] == reportblocks[first..it] + [reportblocks[it]];
      FlattenPush(reportblocks[first..it], reportblocks[it]);
      Associates(content, done, reportblocks[it]);
      offset := offset + |reportblocks[it]|;
      count := count + 1;
      it := it + 1;
    }
  }

  lemma BlockBuffersSlice(rs: seq<ReportBlock>, a: nat, b: nat)
    requires a <= b <= |rs|
    ensures BlockBuffers(rs)[a..b] == BlockBuffers(rs[a..b])
  {
  }

  /** A packet of the given type: `start`, then up to 31 blocks from index `first`. */
  method WriteCounted(buf: array<Byte>, cur: nat, ptype: Byte, start: seq<Byte>, reportblocks: seq<seq<Byte>>,
                      first: nat, ghost content: seq<Byte>)
    returns (offset: nat, count: nat)
    requires AllBlockSized(reportblocks) && first <= |reportblocks| && |start| % 4 == 0
    requires Written(buf, content) && cur == |content|
    requires cur + HEADER_SIZE + |start| + BLOCK_SIZE * Min(MAX_COUNT, |reportblocks| - first) <= buf.Length
    modifies buf
    ensures count == Min(MAX_COUNT, |reportblocks| - first)
    ensures offset == HEADER_SIZE + |start| + BLOCK_SIZE * count
    ensures
      var body := start + Flatten(reportblocks[first..first + count]);
      Written(buf, content + (Header(count, ptype, offset) + body))
  {
    ghost var raw := OpenHeader(buf, cur, ptype, content);
    Put(buf, cur + HEADER_SIZE, start, content + raw);
    offset := HEADER_SIZE + |start|;
    count := WriteBlocks(buf, cur + offset, reportblocks, first, content + raw + start);
    ghost var blocks := Flatten(reportblocks[first..first + count]);
    BlockBuffersSize(reportblocks[first..first + count]);
    Associates(content + raw, start, blocks);
    offset := offset + BLOCK_SIZE * count;
    CloseHeader(buf, cur, count, offset, content, raw, start + blocks);
  }

  lemma ReportPacketParts(s: Sender, rs: seq<ReportBlock>, ptype: Byte, start: seq<Byte>, blocks: seq<seq<Byte>>,
                          size: nat)
    requires !s.NoReport? && |rs| <= MAX_COUNT && size == FixedSize(s) + BLOCK_SIZE * |rs|
    requires ptype == ReportType(s) && start == HeaderData(s) && blocks == BlockBuffers(rs)
    ensures Header(|rs|, ptype, size) + (start + Flatten(blocks)) == ReportPacket(s, rs)
  {
  }

  /** One report packet, starting with block `first`; returns its size and its number of blocks. */
  method WriteReportPacket(buf: array<Byte>, cur: nat, asSR: bool, headerdata: seq<Byte>, reportblocks: seq<seq<Byte>>,
                           first: nat, ghost s: Sender, ghost rs: seq<ReportBlock>, ghost group: seq<ReportBlock>,
                           ghost content: seq<Byte>)
    returns (offset: nat, count: nat)
    requires reportblocks == BlockBuffers(rs) && first <= |rs|
    requires |group| == Min(MAX_COUNT, |rs| - first) && group == rs[first..first + |group|]
    requires !s.NoReport? && asSR == s.SR? && HeaderData(s) <= headerdata
    requires Written(buf, content) && cur == |content|
    requires cur + |ReportPacket(s, group)| <= buf.Length
    modifies buf
    ensures count == |group| && offset == |ReportPacket(s, group)|
    ensures Written(buf, content + ReportPacket(s, group))
  {
    var start := headerdata[..if asSR then 24 else 4];
    PrefixSlice(HeaderData(s), headerdata);
    var ptype := if asSR then TYPE_SR else TYPE_RR;
    BlockBuffersSlice(rs, first, first + |group|);
    offset, count := WriteCounted(buf, cur, ptype, start, reportblocks, first, content);
    ReportPacketParts(s, group, ptype, start, reportblocks[first..first + count], offset);
  }

  /** The reports still to write: those for the blocks from `it` on, unless all is written. */
  ghost predicate ReportsPending(packets: seq<seq<Byte>>, done: seq<seq<Byte>>, s: Sender, rs: seq<ReportBlock>,
      it: nat, finished: bool) {
    && !s.NoReport? && it <= |rs|
    && packets == done + (if finished then [] else ReportPackets(s, rs[it..]))
    && (finished ==> it == |rs|)
  }

  lemma FirstReport(s: Sender, rs: seq<ReportBlock>, it: nat, group: seq<ReportBlock>, rest: seq<seq<Byte>>)
    requires !s.NoReport? && it <= |rs|
    requires |group| == Min(MAX_COUNT, |rs| - it) && group == rs[it..it + |group|]
    requires rest == if it + |group| == |rs| then [] else ReportPackets(RR(s.ssrc), rs[it + |group|..])
    ensures ReportPackets(s, rs[it..]) == [ReportPacket(s, group)] + rest
  {
    if |rs| - it <= MAX_COUNT {
      assert rs[it..|rs|] == rs[it..];
    } else {
      assert rs[it..][..MAX_COUNT] == group;
      assert rs[it..][MAX_COUNT..] == rs[it + MAX_COUNT..];
    }
  }

  /** The next report packet fits, and after it the receiver reports for the other blocks remain. */
  lemma ReportsPendingStep(packets: seq<seq<Byte>>, done: seq<seq<Byte>>, s: Sender, rs: seq<ReportBlock>, it: nat,
                           group: seq<ReportBlock>)
    requires ReportsPending(packets, done, s, rs, it, false)
    requires |group| == Min(MAX_COUNT, |rs| - it) && group == rs[it..it + |group|]
    ensures |Flatten(done)| + |ReportPacket(s, group)| <= |Flatten(packets)|
    ensures ReportsPending(packets, done + [ReportPacket(s, group)], RR(s.ssrc), rs, it + |group|, it + |group| == |rs|)
  {
    var packet := ReportPacket(s, group);
    var rest := if it + |group| == |rs| then [] else ReportPackets(RR(s.ssrc), rs[it + |group|..]);
    FirstReport(s, rs, it, group, rest);
    assert done + ([packet] + rest) == (done + [packet]) + rest;
    FlattenAppend(done, [packet] + rest);
    FlattenCons(packet, rest);
  }

  /** One turn of the first loop of EndBuild: a report packet and its object. */
  method WriteNextReport(buf: array<Byte>, cur: nat, asSR: bool, report: Report, first: nat,
                         ghost s: Sender, ghost rs: seq<ReportBlock>, ghost group: seq<ReportBlock>,
                         list: seq<PacketRef>, ghost done: seq<seq<Byte>>)
    returns (offset: nat, count: nat, longer: seq<PacketRef>)
    requires report.reportblocks == BlockBuffers(rs) && first <= |rs|
    requires |group| == Min(MAX_COUNT, |rs| - first) && group == rs[first..first + |group|]
    requires !s.NoReport? && asSR == s.SR? && HeaderData(s) <= report.headerdata
    requires Written(buf, Flatten(done)) && cur == |Flatten(done)| && Represents(list, done)
    requires cur + |ReportPacket(s, group)| <= buf.Length
    modifies buf
    ensures count == |group|
    ensures
      var all := done + [ReportPacket(s, group)];
      Written(buf, Flatten(all)) && cur + offset == |Flatten(all)| && Represents(longer, all)
  {
    offset, count := WriteReportPacket(buf, cur, asSR, report.headerdata, report.reportblocks, first, s, rs, group,
      Flatten(done));
    ReportPacketHeader(s, group);
    longer := RecordPacket(buf, cur, offset, if asSR then TYPE_SR else TYPE_RR, list, done, ReportPacket(s, group));
  }

  /** The first loop of EndBuild: the report and the receiver reports that follow it. */
  method WriteReports(buf: array<Byte>, report: Report) returns (cur: nat, list: seq<PacketRef>)
    requires report.Valid() && report.headerlength != 0
    requires |Flatten(ReportPackets(report.sender, report.blocks))| <= buf.Length
    modifies buf
    ensures
      var all := ReportPackets(report.sender, report.blocks);
      Written(buf, Flatten(all)) && cur == |Flatten(all)| && Represents(list, all)
    ensures SdesObjects(list) == {}
  {
    ghost var s, rs := report.sender, report.blocks;
    ghost var packets := ReportPackets(s, rs);
    ghost var done: seq<seq<Byte>> := [];
    assert rs[0..] == rs;
    cur, list := 0, [];
    var firstpacket, finished := true, false;
    var it: nat := 0;
    while !finished
      invariant ReportsPending(packets, done, s, rs, it, finished)
      invariant s == if firstpacket then report.sender else RR(report.sender.ssrc)
      invariant Written(buf, Flatten(done)) && cur == |Flatten(done)| && Represents(list, done)
      decreases !finished, |rs| - it
    {
      ghost var group := rs[it..it + Min(MAX_COUNT, |rs| - it)];
      ReportsPendingStep(packets, done, s, rs, it, group);
      var asSR := firstpacket && report.isSR;
      var offset, count;
      offset, count, list := WriteNextReport(buf, cur, asSR, report, it, s, rs, group, list, done);
      done := done + [ReportPacket(s, group)];
      firstpacket := false;
      s := RR(s.ssrc);
      it := it + count;
      cur := cur + offset;
      if it == |report.reportblocks| {
        finished := true;
      }
    }
    assert done + [] == done;
    assert packets == done;
    ReportsOnly(report.sender, rs, list);
  }

  lemma {:induction false} ReportTypes(s: Sender, rs: seq<ReportBlock>)
    requires !s.NoReport?
    ensures forall i :: 0 <= i < |ReportPackets(s, rs)| ==>
      HEADER_SIZE <= |ReportPackets(s, rs)[i]| && PType(ReportPackets(s, rs)[i]) in {TYPE_SR, TYPE_RR}
    decreases |rs|
  {
    if |rs| <= MAX_COUNT {
      ReportPacketHeader(s, rs);
    } else {
      ReportPacketHeader(s, rs[..MAX_COUNT]);
      ReportTypes(RR(s.ssrc), rs[MAX_COUNT..]);
    }
  }

  /** No report is an SDES packet. */
  lemma ReportsOnly(s: Sender, rs: seq<ReportBlock>, list: seq<PacketRef>)
    requires !s.NoReport? && Represents(list, ReportPackets(s, rs))
    ensures SdesObjects(list) == {}
  {
    ReportTypes(s, rs);
    forall i | 0 <= i < |list|
      ensures !list[i].SDESRef?
    {
      assert list[i].Data() == Datas(list)[i];
    }
  }

  lemma LastWritten(m: seq<Byte>, content: seq<Byte>, packet: seq<Byte>)
    requires m == content + packet
    ensures m[|content|..] == packet
  {
  }

  /** Makes the object for the packet just written and appends it to the list. */
  method RecordPacket(buf: array<Byte>, cur: nat, offset: nat, ptype: Byte, list: seq<PacketRef>,
                      ghost done: seq<seq<Byte>>, ghost packet: seq<Byte>)
    returns (longer: seq<PacketRef>)
    requires Written(buf, Flatten(done) + packet) && cur == |Flatten(done)| && offset == |packet|
    requires HEADER_SIZE <= |packet| && PType(packet) == ptype
    requires Represents(list, done)
    ensures Represents(longer, done + [packet])
    ensures Written(buf, Flatten(done + [packet])) && cur + offset == |Flatten(done + [packet])|
    ensures fresh(SdesObjects(longer) - SdesObjects(list))
  {
    FlattenPush(done, packet);
    LastWritten(buf[..cur + offset], Flatten(done), packet);
    assert buf[cur..cur + offset] == buf[..cur + offset][cur..];
    var r := NewPacket(buf[cur..cur + offset]);
    RepresentsPush(list, done, r);
    longer := list + [r];
  }

  // ----- source descriptions -----

  /** One chunk: its SSRC, its items, a zero byte, and zeros up to a 32-bit boundary. */
  method WriteChunk(buf: array<Byte>, cur: nat, start: nat, ssrc: U32, items: seq<seq<Byte>>,
                    ghost chunk: Chunk, ghost content: seq<Byte>)
    returns (offset: nat)
    requires ssrc == chunk.ssrc && items == ItemBuffers(chunk.items)
    requires Written(buf, content) && cur + start == |content| && start % 4 == 0
    requires cur + start + ChunkSize(chunk) <= buf.Length
    modifies buf
    ensures offset == start + ChunkSize(chunk)
    ensures Written(buf, content + EncodeChunk(chunk))
  {
    Put(buf, cur + start, Net32(ssrc), content);
    ghost var before := content + Net32(ssrc);
    var at := WriteItems(buf, cur, start + 4, items, chunk.items, before);
    ChunkParts(chunk, content, start, at, Align4(at + 1));
    offset := WriteTerminator(buf, cur, at, before + EncodeItems(chunk.items));
  }

  /** The zero byte that ends the item list, and zeros up to a 32-bit boundary. */
  method WriteTerminator(buf: array<Byte>, cur: nat, start: nat, ghost content: seq<Byte>) returns (offset: nat)
    requires Written(buf, content) && cur + start == |content| && cur + Align4(start + 1) <= buf.Length
    modifies buf
    ensures offset == Align4(start + 1)
    ensures Written(buf, content + Zeros(offset - start))
  {
    Put(buf, cur + start, [0], content);
    assert Zeros(1) == [0];
    offset := start + 1;
    var r := offset % 4;
    if r != 0 {
      var num := 4 - r;
      Put(buf, cur + offset, Zeros(num), content + [0]);
      offset := offset + num;
      ZerosOneMore(content, num);
    }
  }

  lemma ZerosOneMore(content: seq<Byte>, n: nat)
    ensures content + [0] + Zeros(n) == content + Zeros(n + 1)
  {
  }

  lemma ChunkParts(c: Chunk, content: seq<Byte>, start: nat, at: nat, offset: nat)
    requires start % 4 == 0 && at == start + 4 + ItemsSize(c.items) && offset == Align4(at + 1)
    ensures offset == start + ChunkSize(c)
    ensures content + EncodeChunk(c) == content + Net32(c.ssrc) + EncodeItems(c.items) + Zeros(offset - at)
  {
    AlignShift(start + 4, ItemsSize(c.items) + 1);
    assert offset - at == ChunkSize(c) - 4 - ItemsSize(c.items);
  }

  method WriteItems(buf: array<Byte>, cur: nat, start: nat, items: seq<seq<Byte>>,
                    ghost all: seq<Item>, ghost content: seq<Byte>)
    returns (offset: nat)
    requires items == ItemBuffers(all)
    requires Written(buf, content) && cur + start == |content|
    requires cur + start + ItemsSize(all) <= buf.Length
    modifies buf
    ensures offset == start + ItemsSize(all)
    ensures Written(buf, content + EncodeItems(all))
  {
    offset := start;
    var itemit: nat := 0;
    while itemit < |items|
      invariant itemit <= |items| && offset == start + ItemsSize(all[..itemit])
      invariant Written(buf, content + EncodeItems(all[..itemit]))
    {
      EncodeItemsPush(all, itemit);
      ItemsSizeSplit(all, itemit);
      ghost var done := EncodeItems(all[..itemit]);
      Associates(content, done, items[itemit]);
      Put(buf, cur + offset, items[itemit], content + done);
      offset := offset + |items[itemit]|;
      itemit := itemit + 1;
    }
    assert all[..itemit] == all;
  }

  /** The source objects hold the chunks `cs`. */
  ghost predicate Hold(sources: seq<SDESSource>, cs: seq<Chunk>)
    reads sources
  {
    && |sources| == |cs|
    && forall i :: 0 <= i < |sources| ==> sources[i].Valid() && sources[i].chunk == cs[i]
  }

  /** Chunks up to `k` of a group are written: `sofar` is what the buffer holds. */
  ghost predicate GroupWritten(content: seq<Byte>, group: seq<Chunk>, k: nat, sofar: seq<Byte>) {
    k <= |group| && sofar == content + EncodeChunks(group[..k])
  }

  lemma GroupWrittenStep(content: seq<Byte>, group: seq<Chunk>, k: nat, sofar: seq<Byte>)
    requires GroupWritten(content, group, k, sofar) && k < |group|
    ensures GroupWritten(content, group, k + 1, sofar + EncodeChunk(group[k]))
    ensures |sofar| + ChunkSize(group[k]) <= |content| + ChunksSize(group)
  {
    EncodeChunksPush(group, 0, k);
    assert group[0..k] == group[..k] && group[0..k + 1] == group[..k + 1];
    Associates(content, EncodeChunks(group[..k]), EncodeChunk(group[k]));
    ChunksSizePrefix(group, k);
  }

  lemma ChunksSizePrefix(group: seq<Chunk>, k: nat)
    requires k < |group|
    ensures ChunksSize(group[..k]) + ChunkSize(group[k]) <= ChunksSize(group)
  {
    ChunksSizePush(group, k);
    ChunksSizeSplit(group, k + 1);
  }

  lemma GroupWrittenEnd(content: seq<Byte>, group: seq<Chunk>, sofar: seq<Byte>)
    requires GroupWritten(content, group, |group|, sofar)
    ensures sofar == content + EncodeChunks(group) && |sofar| == |content| + ChunksSize(group)
  {
    assert group[..|group|] == group;
  }

  lemma HoldsGroup(sources: seq<SDESSource>, cs: seq<Chunk>, first: nat, group: seq<Chunk>, k: nat)
    requires Hold(sources, cs) && k < |group| && first + |group| <= |cs| && cs[first..first + |group|] == group
    ensures sources[first + k].Valid() && sources[first + k].chunk == group[k]
  {
  }

  lemma NextOffset(start: nat, chunk: Chunk, offset: nat)
    requires start % 4 == 0 && offset == start + ChunkSize(chunk)
    ensures offset % 4 == 0
  {
    Mod4Sum(start, ChunkSize(chunk));
  }

  /** The chunks of up to 31 sources, from index `first`, after the header at `cur`. */
  method WriteChunks(buf: array<Byte>, cur: nat, sources: seq<SDESSource>, first: nat,
                     ghost cs: seq<Chunk>, ghost group: seq<Chunk>, ghost content: seq<Byte>)
    returns (offset: nat, sourcecount: nat)
    requires Hold(sources, cs) && first <= |cs| && |group| == Min(MAX_COUNT, |cs| - first)
    requires cs[first..first + |group|] == group
    requires Written(buf, content) && cur + HEADER_SIZE == |content|
    requires |content| + ChunksSize(group) <= buf.Length
    modifies buf
    ensures sourcecount == |group|
    ensures offset == HEADER_SIZE + ChunksSize(group) && offset % 4 == 0
    ensures Written(buf, content + EncodeChunks(group))
  {
    offset := HEADER_SIZE;
    sourcecount := 0;
    var sourceit: nat := first;
    ghost var sofar := content;
    assert GroupWritten(content, group, 0, sofar);
    while sourceit < |sources| && sourcecount < MAX_COUNT
      invariant Hold(sources, cs)
      invariant sourceit == first + sourcecount && sourcecount <= |group|
      invariant cur + offset == |sofar| && offset % 4 == 0
      invariant GroupWritten(content, group, sourcecount, sofar)
      invariant Written(buf, sofar)
    {
      offset := WriteSource(buf, cur, offset, sources, sourceit, cs, first, group, content, sofar);
      sofar := sofar + EncodeChunk(group[sourcecount]);
      sourceit := sourceit + 1;
      sourcecount := sourcecount + 1;
    }
    GroupWrittenEnd(content, group, sofar);
  }

  /** One turn of that loop: the chunk of source `sourceit`. */
  method WriteSource(buf: array<Byte>, cur: nat, start: nat, sources: seq<SDESSource>, sourceit: nat,
                     ghost cs: seq<Chunk>, ghost first: nat, ghost group: seq<Chunk>,
                     ghost content: seq<Byte>, ghost sofar: seq<Byte>)
    returns (offset: nat)
    requires Hold(sources, cs) && first + |group| <= |cs| && cs[first..first + |group|] == group
    requires first <= sourceit < first + |group|
    requires GroupWritten(content, group, sourceit - first, sofar)
    requires Written(buf, sofar) && cur + start == |sofar| && start % 4 == 0
    requires |content| + ChunksSize(group) <= buf.Length
    modifies buf
    ensures Hold(sources, cs)
    ensures
      var now := sofar + EncodeChunk(group[sourceit - first]);
      && GroupWritten(content, group, sourceit - first + 1, now)
      && Written(buf, now) && cur + offset == |now| && offset % 4 == 0
  {
    ghost var chunk := group[sourceit - first];
    GroupWrittenStep(content, group, sourceit - first, sofar);
    HoldsGroup(sources, cs, first, group, sourceit - first);
    offset := WriteChunk(buf, cur, start, sources[sourceit].ssrc, sources[sourceit].items, chunk, sofar);
    NextOffset(start, chunk, offset);
  }

  lemma SdesPacketParts(group: seq<Chunk>, offset: nat)
    requires |group| <= MAX_COUNT && offset == HEADER_SIZE + ChunksSize(group) && offset % 4 == 0
    ensures Header(|group|, TYPE_SDES, offset) + EncodeChunks(group) == SdesPacket(group)
    ensures offset == |SdesPacket(group)|
  {
  }

  /** One SDES packet with up to 31 sources, from index `first`. */
  method WriteSdesPacket(buf: array<Byte>, cur: nat, sources: seq<SDESSource>, first: nat,
                         ghost cs: seq<Chunk>, ghost group: seq<Chunk>, ghost content: seq<Byte>)
    returns (offset: nat, sourcecount: nat)
    requires Hold(sources, cs) && first <= |cs| && |group| == Min(MAX_COUNT, |cs| - first)
    requires cs[first..first + |group|] == group
    requires Written(buf, content) && cur == |content|
    requires cur + |SdesPacket(group)| <= buf.Length
    modifies buf
    ensures sourcecount == |group| && offset == |SdesPacket(group)|
    ensures Written(buf, content + SdesPacket(group))
  {
    ghost var raw := OpenHeader(buf, cur, TYPE_SDES, content);
    offset, sourcecount := WriteChunks(buf, cur, sources, first, cs, group, content + raw);
    CloseHeader(buf, cur, sourcecount, offset, content, raw, EncodeChunks(group));
    SdesPacketParts(group, offset);
  }

  /** The SDES packets still to write: those for the sources from `it` on. */
  ghost predicate SdesPending(packets: seq<seq<Byte>>, before: seq<seq<Byte>>, done: seq<seq<Byte>>, cs: seq<Chunk>,
      it: nat) {
    it <= |cs| && before + packets == done + SdesPackets(cs[it..])
  }

  lemma SdesPacketsStep(cs: seq<Chunk>, it: nat, group: seq<Chunk>)
    requires it < |cs| && |group| == Min(MAX_COUNT, |cs| - it) && group == cs[it..it + |group|]
    ensures SdesPackets(cs[it..]) == [SdesPacket(group)] + SdesPackets(cs[it + |group|..])
  {
    if |cs| - it <= MAX_COUNT {
      assert cs[it..] == group;
    } else {
      assert cs[it..][..MAX_COUNT] == group;
      assert cs[it..][MAX_COUNT..] == cs[it + MAX_COUNT..];
    }
  }

  lemma SdesPendingStep(packets: seq<seq<Byte>>, before: seq<seq<Byte>>, done: seq<seq<Byte>>,
                        cs: seq<Chunk>, it: nat, group: seq<Chunk>)
    requires SdesPending(packets, before, done, cs, it) && it < |cs|
    requires |group| == Min(MAX_COUNT, |cs| - it) && group == cs[it..it + |group|]
    ensures |Flatten(done)| + |SdesPacket(group)| <= |Flatten(before + packets)|
    ensures SdesPending(packets, before, done + [SdesPacket(group)], cs, it + |group|)
  {
    var packet := SdesPacket(group);
    var rest := SdesPackets(cs[it + |group|..]);
    SdesPacketsStep(cs, it, group);
    assert done + ([packet] + rest) == (done + [packet]) + rest;
    FlattenAppend(done, [packet] + rest);
    FlattenCons(packet, rest);
  }

  /** The second loop of EndBuild: the sources, after the packets `before`. */
  method WriteSdes(buf: array<Byte>, start: nat, sources: seq<SDESSource>, sofar: seq<PacketRef>,
                   ghost cs: seq<Chunk>, ghost before: seq<seq<Byte>>)
    returns (cur: nat, list: seq<PacketRef>)
    requires Hold(sources, cs) && Represents(sofar, before)
    requires Written(buf, Flatten(before)) && start == |Flatten(before)|
    requires |Flatten(before + SdesPackets(cs))| <= buf.Length
    modifies buf
    ensures
      var all := before + SdesPackets(cs);
      Written(buf, Flatten(all)) && cur == |Flatten(all)| && Represents(list, all)
    ensures fresh(SdesObjects(list) - SdesObjects(sofar))
  {
    ghost var packets := SdesPackets(cs);
    ghost var done := before;
    assert cs[0..] == cs;
    cur, list := start, sofar;
    if |sources| != 0 {
      var sourceit: nat := 0;
      var finished := false;
      while !finished
        invariant Hold(sources, cs) && (finished <==> sourceit == |cs|)
        invariant SdesPending(packets, before, done, cs, sourceit)
        invariant Written(buf, Flatten(done)) && cur == |Flatten(done)| && Represents(list, done)
        invariant fresh(SdesObjects(list) - SdesObjects(sofar))
        decreases |cs| - sourceit
      {
        ghost var group := cs[sourceit..sourceit + Min(MAX_COUNT, |cs| - sourceit)];
        SdesPendingStep(packets, before, done, cs, sourceit, group);
        var offset, count;
        offset, count, list := WriteNextSdes(buf, cur, sources, sourceit, cs, group, list, done);
        done := done + [SdesPacket(group)];
        sourceit := sourceit + count;
        cur := cur + offset;
        if sourceit == |sources| {
          finished := true;
        }
      }
      assert cs[|cs|..] == [];
    }
    assert done + [] == done;
  }

  /** One turn of that loop: an SDES packet and its object. */
  method WriteNextSdes(buf: array<Byte>, cur: nat, sources: seq<SDESSource>, first: nat,
                       ghost cs: seq<Chunk>, ghost group: seq<Chunk>, list: seq<PacketRef>, ghost done: seq<seq<Byte>>)
    returns (offset: nat, count: nat, longer: seq<PacketRef>)
    requires Hold(sources, cs) && first <= |cs| && |group| == Min(MAX_COUNT, |cs| - first)
    requires cs[first..first + |group|] == group
    requires Written(buf, Flatten(done)) && cur == |Flatten(done)| && Represents(list, done)
    requires cur + |SdesPacket(group)| <= buf.Length
    modifies buf
    ensures count == |group|
    ensures
      var all := done + [SdesPacket(group)];
      Written(buf, Flatten(all)) && cur + offset == |Flatten(all)| && Represents(longer, all)
    ensures fresh(SdesObjects(longer) - SdesObjects(list))
  {
    offset, count := WriteSdesPacket(buf, cur, sources, first, cs, group, Flatten(done));
    SdesPacketHeader(group);
    longer := RecordPacket(buf, cur, offset, TYPE_SDES, list, done, SdesPacket(group));
  }

  predicate AllOfType(packets: seq<seq<Byte>>, ptype: Byte) {
    forall i :: 0 <= i < |packets| ==> HEADER_SIZE <= |packets[i]| && PType(packets[i]) == ptype
  }

  /** The last two loops of EndBuild, after the packets `before`. */
  method WriteAppsAndByes(buf: array<Byte>, start: nat, apps: seq<seq<Byte>>, byes: seq<seq<Byte>>,
                          sofar: seq<PacketRef>, ghost before: seq<seq<Byte>>)
    returns (list: seq<PacketRef>)
    requires Represents(sofar, before) && AllOfType(apps, TYPE_APP) && AllOfType(byes, TYPE_BYE)
    requires Written(buf, Flatten(before)) && start == |Flatten(before)|
    requires |Flatten(before + apps)| <= |Flatten(before + apps + byes)| <= buf.Length
    modifies buf
    ensures Written(buf, Flatten(before + apps + byes)) && Represents(list, before + apps + byes)
    ensures fresh(SdesObjects(list) - SdesObjects(sofar))
  {
    var cur;
    cur, list := WriteEncoded(buf, start, apps, TYPE_APP, sofar, before);
    cur, list := WriteEncoded(buf, cur, byes, TYPE_BYE, list, before + apps);
  }

  /** The four loops of EndBuild, in order. */
  method WriteAll(buf: array<Byte>, report: Report, sources: seq<SDESSource>, apps: seq<seq<Byte>>,
                  byes: seq<seq<Byte>>, ghost cs: seq<Chunk>, ghost reports: seq<seq<Byte>>,
                  ghost first: seq<seq<Byte>>)
    returns (list: seq<PacketRef>)
    requires report.Valid() && report.headerlength != 0 && Hold(sources, cs)
    requires reports == ReportPackets(report.sender, report.blocks) && first == reports + SdesPackets(cs)
    requires |Flatten(reports)| <= |Flatten(first)| <= |Flatten(first + apps)| <= |Flatten(first + apps + byes)|
    requires |Flatten(first + apps + byes)| <= buf.Length
    requires AllOfType(apps, TYPE_APP) && AllOfType(byes, TYPE_BYE)
    modifies buf
    ensures Written(buf, Flatten(first + apps + byes)) && Represents(list, first + apps + byes)
    ensures fresh(SdesObjects(list))
  {
    var cur;
    cur, list := WriteReports(buf, report);
    cur, list := WriteSdes(buf, cur, sources, list, cs, reports);
    list := WriteAppsAndByes(buf, cur, apps, byes, list, first);
  }

  /** The loops of EndBuild over APP and BYE packets, which are already encoded. */
  method WriteEncoded(buf: array<Byte>, start: nat, packets: seq<seq<Byte>>, ptype: Byte, sofar: seq<PacketRef>,
                      ghost before: seq<seq<Byte>>)
    returns (cur: nat, list: seq<PacketRef>)
    requires Represents(sofar, before) && AllOfType(packets, ptype)
    requires Written(buf, Flatten(before)) && start == |Flatten(before)|
    requires |Flatten(before + packets)| <= buf.Length
    modifies buf
    ensures Written(buf, Flatten(before + packets)) && cur == |Flatten(before + packets)|
    ensures Represents(list, before + packets)
    ensures fresh(SdesObjects(list) - SdesObjects(sofar))
  {
    cur, list := start, sofar;
    var it: nat := 0;
    assert before + packets[..0] == before;
    while it < |packets|
      invariant it <= |packets|
      invariant Written(buf, Flatten(before + packets[..it])) && cur == |Flatten(before + packets[..it])|
      invariant Represents(list, before + packets[..it])
      invariant fresh(SdesObjects(list) - SdesObjects(sofar))
    {
      ghost var done := before + packets[..it];
      EncodedStep(before, packets, it);
      Put(buf, cur, packets[it], Flatten(done));
      list := RecordPacket(buf, cur, |packets[it]|, ptype, list, done, packets[it]);
      cur := cur + |packets[it]|;
      it := it + 1;
    }
    assert packets[..it] == packets;
  }

  lemma EncodedStep(before: seq<seq<Byte>>, packets: seq<seq<Byte>>, it: nat)
    requires it < |packets|
    ensures before + packets[..it + 1] == before + packets[..it] + [packets[it]]
    ensures Flatten(before + packets[..it + 1]) == Flatten(before + packets[..it]) + packets[it]
    ensures |Flatten(before + packets[..it])| + |packets[it]| <= |Flatten(before + packets)|
  {
    var done := before + packets[..it];
    assert before + packets[..it + 1] == done + [packets[it]];
    FlattenPush(done, packets[it]);
    assert before + packets == (done + [packets[it]]) + packets[it + 1..];
    FlattenAppend(done + [packets[it]], packets[it + 1..]);
  }

  lemma {:induction false} ItemsSizeSplit(items: seq<Item>, k: nat)
    requires k < |items|
    ensures ItemsSize(items[..k + 1]) == ItemsSize(items[..k]) + ItemSize(items[k])
    ensures ItemsSize(items[..k + 1]) <= ItemsSize(items)
    decreases k
  {
    if k == 0 {
      assert items[..1][1..] == [];
    } else {
      ItemsSizeSplit(items[1..], k - 1);
      assert items[..k + 1][1..] == items[1..][..k] && items[..k][1..] == items[1..][..k - 1];
    }
  }
}
