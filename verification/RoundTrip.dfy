/** What EndBuild writes, the parser reads back: the same packets with the same contents. */
module RoundTrip {
  import opened Wire
  import opened SdesFormat
  import opened SdesParser
  import opened ReportFormat
  import opened ByeAppFormat
  import opened BuilderModel
  import opened CompoundPacket

  // ----- boundaries -----

  /** Every SDES packet is small enough for its 16-bit word count. Only APP packets are checked
      when they are added, and the other kinds cannot be too large. */
  predicate WordCountsFit(cs: seq<Chunk>) {
    AllCounted(SdesPackets(cs))
  }

  predicate AllCounted(ps: seq<seq<Byte>>) {
    forall i :: 0 <= i < |ps| ==> |ps[i]| <= MAX_WORD_COUNTED
  }

  lemma AllCountedCons(p: seq<Byte>, rest: seq<seq<Byte>>)
    ensures AllCounted([p] + rest) <==> |p| <= MAX_WORD_COUNTED && AllCounted(rest)
  {
    var all := [p] + rest;
    assert all[0] == p;
    assert forall i :: 0 <= i < |rest| ==> rest[i] == all[i + 1];
  }

  predicate AllPackets(ps: seq<seq<Byte>>) {
    forall i :: 0 <= i < |ps| ==> IsPacket(ps[i])
  }

  predicate NoPadding(ps: seq<seq<Byte>>) {
    forall i :: 0 <= i < |ps| ==> HEADER_SIZE <= |ps[i]| && !PaddingBit(ps[i])
  }

  lemma AllPacketsAppend(a: seq<seq<Byte>>, b: seq<seq<Byte>>)
    ensures AllPackets(a + b) <==> AllPackets(a) && AllPackets(b)
    ensures NoPadding(a) && NoPadding(b) ==> NoPadding(a + b)
  {
    if AllPackets(a + b) {
      assert forall i :: 0 <= i < |a| ==> a[i] == (a + b)[i];
      assert forall i :: 0 <= i < |b| ==> b[i] == (a + b)[|a| + i];
    }
  }

  lemma {:induction false} ReportPacketsProper(s: Sender, blocks: seq<ReportBlock>)
    requires !s.NoReport?
    ensures AllPackets(ReportPackets(s, blocks)) && NoPadding(ReportPackets(s, blocks))
    ensures ReportPackets(s, blocks) != [] && IsReport(ReportPackets(s, blocks)[0])
    decreases |blocks|
  {
    if |blocks| <= MAX_COUNT {
      ReportPacketHeader(s, blocks);
    } else {
      ReportPacketHeader(s, blocks[..MAX_COUNT]);
      ReportPacketsProper(RR(s.ssrc), blocks[MAX_COUNT..]);
      AllPacketsAppend([ReportPacket(s, blocks[..MAX_COUNT])], ReportPackets(RR(s.ssrc), blocks[MAX_COUNT..]));
    }
  }

  lemma {:induction false} SdesPacketsProper(cs: seq<Chunk>)
    ensures AllPackets(SdesPackets(cs)) <==> WordCountsFit(cs)
    ensures NoPadding(SdesPackets(cs))
    decreases |cs|
  {
    if cs == [] {
    } else if |cs| <= MAX_COUNT {
      SdesPacketHeader(cs);
      assert SdesPackets(cs)[0] == SdesPacket(cs);
    } else {
      var p := SdesPacket(cs[..MAX_COUNT]);
      var rest := SdesPackets(cs[MAX_COUNT..]);
      SdesPacketHeader(cs[..MAX_COUNT]);
      SdesPacketsProper(cs[MAX_COUNT..]);
      assert SdesPackets(cs) == [p] + rest;
      AllPacketsAppend([p], rest);
      assert AllPackets([p]) <==> IsPacket([p][0]);
      AllCountedCons(p, rest);
    }
  }

  lemma {:induction false} AppPacketsProper(apps: seq<App>)
    requires AllAppsProper(apps)
    ensures AllPackets(AppPackets(apps)) && NoPadding(AppPackets(apps))
  {
    if apps != [] {
      var n := |apps| - 1;
      AppPacketsProper(apps[..n]);
      AppHeader(apps[n]);
      AllPacketsAppend(AppPackets(apps[..n]), [EncodeApp(apps[n])]);
    }
  }

  lemma {:induction false} ByePacketsProper(byes: seq<Bye>)
    requires AllByesProper(byes)
    ensures AllPackets(ByePackets(byes)) && NoPadding(ByePackets(byes))
  {
    if byes != [] {
      var n := |byes| - 1;
      ByePacketsProper(byes[..n]);
      ByeHeader(byes[n]);
      AllPacketsAppend(ByePackets(byes[..n]), [EncodeBye(byes[n])]);
    }
  }

  /** A receiver finds exactly the packets that EndBuild recorded, if and only if every SDES packet
      fits its word count. */
  lemma BoundariesKept(s: Build)
    requires s.Proper() && !s.sender.NoReport?
    ensures Tiles(Bytes(s), Packets(s), true) <==> WordCountsFit(s.chunks)
  {
    var r, d, a, b := ReportPackets(s.sender, s.blocks), SdesPackets(s.chunks), AppPackets(s.apps), ByePackets(s.byes);
    ReportPacketsProper(s.sender, s.blocks);
    SdesPacketsProper(s.chunks);
    AppPacketsProper(s.apps);
    ByePacketsProper(s.byes);
    AllPacketsAppend(r, d);
    AllPacketsAppend(r + d, a);
    AllPacketsAppend(r + d + a, b);
    assert Packets(s)[0] == r[0];
  }

  // ----- contents -----

  /** What accessors return, kind by kind, in order. */
  datatype Contents = Contents(
    senders: seq<Sender>, blocks: seq<ReportBlock>, chunks: seq<Chunk>, apps: seq<App>, byes: seq<Bye>)

  const NOTHING := Contents([], [], [], [], [])

  function Plus(a: Contents, b: Contents): Contents {
    Contents(a.senders + b.senders, a.blocks + b.blocks, a.chunks + b.chunks, a.apps + b.apps, a.byes + b.byes)
  }

  function Sum(cs: seq<Contents>): Contents {
    if cs == [] then NOTHING else Plus(cs[0], Sum(cs[1..]))
  }

  lemma {:induction false} SumAppend(a: seq<Contents>, b: seq<Contents>)
    ensures Sum(a + b) == Plus(Sum(a), Sum(b))
  {
    if a == [] {
      assert a + b == b;
    } else {
      assert (a + b)[0] == a[0] && (a + b)[1..] == a[1..] + b;
      SumAppend(a[1..], b);
      PlusAssociates(a[0], Sum(a[1..]), Sum(b));
    }
  }

  lemma PlusAssociates(a: Contents, b: Contents, c: Contents)
    ensures Plus(a, Plus(b, c)) == Plus(Plus(a, b), c)
  {
  }

  /** What the accessors of one packet object return. The chunks of an SDES object are those its
      cursors walk over. */
  ghost function ReadOne(r: PacketRef): Contents
    requires r.Proper() && r.Known()
  {
    match r
    case SRRef(p) => NOTHING.(senders := [SR(p.GetSenderSSRC(), p.GetSenderInfo())], blocks := p.Reports())
    case RRRef(p) => NOTHING.(senders := [RR(p.GetSenderSSRC())], blocks := p.Reports())
    case SDESRef(p) => NOTHING.(chunks := p.chunks)
    case APPRef(p) => NOTHING.(apps := [App(p.GetSubType(), p.GetSSRC(), p.GetName(), p.GetAPPData())])
    case BYERef(p) => NOTHING.(byes := [Bye(p.SSRCs(), p.GetReasonData())])
    case UnknownRef(_) => NOTHING
  }

  ghost predicate AllKnown(list: seq<PacketRef>) {
    forall i :: 0 <= i < |list| ==> list[i].Proper() && list[i].Known()
  }

  ghost function ReadAll(list: seq<PacketRef>): Contents
    requires AllKnown(list)
  {
    Sum(seq(|list|, i requires 0 <= i < |list| => ReadOne(list[i])))
  }

  // ----- the packets of a build, each with what it was made from -----

  datatype Part =
    | ReportPart(s: Sender, group: seq<ReportBlock>) | SdesPart(chunks: seq<Chunk>) | AppPart(app: App)
    | ByePart(bye: Bye)

  predicate PartProper(p: Part) {
    match p
    case ReportPart(s, group) => !s.NoReport? && |group| <= MAX_COUNT
    case SdesPart(cs) => |cs| <= MAX_COUNT && ChunksProper(cs)
    case AppPart(a) => AppProper(a)
    case ByePart(b) => |b.ssrcs| <= MAX_COUNT
  }

  function EncodePart(p: Part): seq<Byte>
    requires PartProper(p)
  {
    match p
    case ReportPart(s, group) => ReportPacket(s, group)
    case SdesPart(cs) => SdesPacket(cs)
    case AppPart(a) => EncodeApp(a)
    case ByePart(b) => EncodeBye(b)
  }

  function PartContents(p: Part): Contents {
    match p
    case ReportPart(s, group) => NOTHING.(senders := [s], blocks := ReceivedAll(group))
    case SdesPart(cs) => NOTHING.(chunks := cs)
    case AppPart(a) => NOTHING.(apps := [a])
    case ByePart(b) => NOTHING.(byes := [b])
  }

  function PartsContents(ps: seq<Part>): (cs: seq<Contents>)
    ensures |cs| == |ps|
  {
    seq(|ps|, i requires 0 <= i < |ps| => PartContents(ps[i]))
  }

  function ReportParts(s: Sender, blocks: seq<ReportBlock>): seq<Part>
    requires !s.NoReport?
    decreases |blocks|
  {
    if |blocks| <= MAX_COUNT then [ReportPart(s, blocks)]
    else [ReportPart(s, blocks[..MAX_COUNT])] + ReportParts(RR(s.ssrc), blocks[MAX_COUNT..])
  }

  function SdesParts(cs: seq<Chunk>): seq<Part>
    decreases |cs|
  {
    if cs == [] then []
    else if |cs| <= MAX_COUNT then [SdesPart(cs)]
    else [SdesPart(cs[..MAX_COUNT])] + SdesParts(cs[MAX_COUNT..])
  }

  function AppParts(apps: seq<App>): (ps: seq<Part>)
    ensures |ps| == |apps|
  {
    seq(|apps|, i requires 0 <= i < |apps| => AppPart(apps[i]))
  }

  function ByeParts(byes: seq<Bye>): (ps: seq<Part>)
    ensures |ps| == |byes|
  {
    seq(|byes|, i requires 0 <= i < |byes| => ByePart(byes[i]))
  }

  predicate Encodes(part: Part, packet: seq<Byte>) {
    PartProper(part) && packet == EncodePart(part)
  }

  /** `packets` are the encodings of `parts`. */
  predicate Encoded(parts: seq<Part>, packets: seq<seq<Byte>>) {
    |parts| == |packets|
    && forall i {:trigger Encodes(parts[i], packets[i])} :: 0 <= i < |parts| ==> Encodes(parts[i], packets[i])
  }

  lemma EncodedAt(part: Part, packet: seq<Byte>, same: Part, bytes: seq<Byte>)
    requires Encodes(part, packet) && same == part && bytes == packet
    ensures Encodes(same, bytes)
  {
  }

  lemma EncodedAppend(a: seq<Part>, x: seq<seq<Byte>>, b: seq<Part>, y: seq<seq<Byte>>)
    requires Encoded(a, x) && Encoded(b, y)
    ensures Encoded(a + b, x + y)
  {
    forall i | 0 <= i < |a + b|
      ensures Encodes((a + b)[i], (x + y)[i])
    {
      if i < |a| {
        EncodedAt(a[i], x[i], (a + b)[i], (x + y)[i]);
      } else {
        EncodedAt(b[i - |a|], y[i - |a|], (a + b)[i], (x + y)[i]);
      }
    }
  }

  lemma {:induction false} ReportPartsEncoded(s: Sender, blocks: seq<ReportBlock>)
    requires !s.NoReport?
    ensures Encoded(ReportParts(s, blocks), ReportPackets(s, blocks))
    decreases |blocks|
  {
    if |blocks| > MAX_COUNT {
      var first, rest := blocks[..MAX_COUNT], blocks[MAX_COUNT..];
      ReportPartsEncoded(RR(s.ssrc), rest);
      EncodedAppend([ReportPart(s, first)], [ReportPacket(s, first)], ReportParts(RR(s.ssrc), rest),
        ReportPackets(RR(s.ssrc), rest));
    }
  }

  lemma {:induction false} SdesPartsEncoded(cs: seq<Chunk>)
    requires ChunksProper(cs)
    ensures Encoded(SdesParts(cs), SdesPackets(cs))
    decreases |cs|
  {
    if |cs| > MAX_COUNT {
      var first, rest := cs[..MAX_COUNT], cs[MAX_COUNT..];
      SdesPartsEncoded(rest);
      EncodedAppend([SdesPart(first)], [SdesPacket(first)], SdesParts(rest), SdesPackets(rest));
    }
  }

  lemma AppPartsEncoded(apps: seq<App>)
    requires AllAppsProper(apps)
    ensures Encoded(AppParts(apps), AppPackets(apps))
  {
    forall i | 0 <= i < |apps|
      ensures Encodes(AppParts(apps)[i], AppPackets(apps)[i])
    {
      AppPacketsIndex(apps, i);
      EncodedAt(AppPart(apps[i]), EncodeApp(apps[i]), AppParts(apps)[i], AppPackets(apps)[i]);
    }
  }

  lemma ByePartsEncoded(byes: seq<Bye>)
    requires AllByesProper(byes)
    ensures Encoded(ByeParts(byes), ByePackets(byes))
  {
    forall i | 0 <= i < |byes|
      ensures Encodes(ByeParts(byes)[i], ByePackets(byes)[i])
    {
      ByePacketsIndex(byes, i);
      EncodedAt(ByePart(byes[i]), EncodeBye(byes[i]), ByeParts(byes)[i], ByePackets(byes)[i]);
    }
  }

  function Parts(s: Build): seq<Part>
    requires !s.sender.NoReport?
  {
    ReportParts(s.sender, s.blocks) + SdesParts(s.chunks) + AppParts(s.apps) + ByeParts(s.byes)
  }

  lemma PartsEncoded(s: Build)
    requires s.Proper() && !s.sender.NoReport?
    ensures Encoded(Parts(s), Packets(s))
  {
    ReportPartsEncoded(s.sender, s.blocks);
    SdesPartsEncoded(s.chunks);
    AppPartsEncoded(s.apps);
    ByePartsEncoded(s.byes);
    var r, d, a := ReportParts(s.sender, s.blocks), SdesParts(s.chunks), AppParts(s.apps);
    var x, y, z := ReportPackets(s.sender, s.blocks), SdesPackets(s.chunks), AppPackets(s.apps);
    EncodedAppend(r, x, d, y);
    EncodedAppend(r + d, x + y, a, z);
    EncodedAppend(r + d + a, x + y + z, ByeParts(s.byes), ByePackets(s.byes));
  }

  /** The senders of the report and of the receiver reports that follow it. */
  function SendersOf(s: Sender, n: nat): seq<Sender>
    requires !s.NoReport?
    decreases n
  {
    if n <= MAX_COUNT then [s] else [s] + SendersOf(RR(s.ssrc), n - MAX_COUNT)
  }

  lemma PartsContentsAppend(a: seq<Part>, b: seq<Part>)
    ensures Sum(PartsContents(a + b)) == Plus(Sum(PartsContents(a)), Sum(PartsContents(b)))
  {
    assert PartsContents(a + b) == PartsContents(a) + PartsContents(b);
    SumAppend(PartsContents(a), PartsContents(b));
  }

  lemma PartsContentsOne(p: Part)
    ensures Sum(PartsContents([p])) == PartContents(p)
  {
  }

  lemma {:induction false} ReportPartsContents(s: Sender, blocks: seq<ReportBlock>)
    requires !s.NoReport?
    ensures Sum(PartsContents(ReportParts(s, blocks)))
      == NOTHING.(senders := SendersOf(s, |blocks|), blocks := ReceivedAll(blocks))
    decreases |blocks|
  {
    if |blocks| <= MAX_COUNT {
      PartsContentsOne(ReportPart(s, blocks));
    } else {
      var first, rest := blocks[..MAX_COUNT], blocks[MAX_COUNT..];
      PartsContentsOne(ReportPart(s, first));
      ReportPartsContents(RR(s.ssrc), rest);
      PartsContentsAppend([ReportPart(s, first)], ReportParts(RR(s.ssrc), rest));
      assert ReceivedAll(blocks) == ReceivedAll(first) + ReceivedAll(rest);
    }
  }

  lemma {:induction false} SdesPartsContents(cs: seq<Chunk>)
    ensures Sum(PartsContents(SdesParts(cs))) == NOTHING.(chunks := cs)
    decreases |cs|
  {
    if cs == [] {
    } else if |cs| <= MAX_COUNT {
      PartsContentsOne(SdesPart(cs));
    } else {
      var first, rest := cs[..MAX_COUNT], cs[MAX_COUNT..];
      PartsContentsOne(SdesPart(first));
      SdesPartsContents(rest);
      PartsContentsAppend([SdesPart(first)], SdesParts(rest));
      assert cs == first + rest;
    }
  }

  lemma PlusApps(apps: seq<App>)
    requires apps != []
    ensures Plus(NOTHING.(apps := [apps[0]]), NOTHING.(apps := apps[1..])) == NOTHING.(apps := apps)
  {
  }

  lemma PlusByes(byes: seq<Bye>)
    requires byes != []
    ensures Plus(NOTHING.(byes := [byes[0]]), NOTHING.(byes := byes[1..])) == NOTHING.(byes := byes)
  {
  }

  lemma {:induction false} AppPartsContents(apps: seq<App>)
    ensures Sum(PartsContents(AppParts(apps))) == NOTHING.(apps := apps)
    decreases |apps|
  {
    if apps != [] {
      PartsContentsOne(AppPart(apps[0]));
      AppPartsContents(apps[1..]);
      PartsContentsAppend([AppPart(apps[0])], AppParts(apps[1..]));
      assert AppParts(apps) == [AppPart(apps[0])] + AppParts(apps[1..]);
      PlusApps(apps);
    }
  }

  lemma {:induction false} ByePartsContents(byes: seq<Bye>)
    ensures Sum(PartsContents(ByeParts(byes))) == NOTHING.(byes := byes)
    decreases |byes|
  {
    if byes != [] {
      PartsContentsOne(ByePart(byes[0]));
      ByePartsContents(byes[1..]);
      PartsContentsAppend([ByePart(byes[0])], ByeParts(byes[1..]));
      assert ByeParts(byes) == [ByePart(byes[0])] + ByeParts(byes[1..]);
      PlusByes(byes);
    }
  }

  /** Everything that was added to a build, as a receiver should see it. */
  function Sent(s: Build): Contents
    requires !s.sender.NoReport?
  {
    Contents(SendersOf(s.sender, |s.blocks|), ReceivedAll(s.blocks), s.chunks, s.apps, s.byes)
  }

  lemma PlusKinds(ss: seq<Sender>, rs: seq<ReportBlock>, cs: seq<Chunk>, aa: seq<App>, bb: seq<Bye>)
    ensures
      Plus(Plus(Plus(NOTHING.(senders := ss, blocks := rs), NOTHING.(chunks := cs)), NOTHING.(apps := aa)),
           NOTHING.(byes := bb))
      == Contents(ss, rs, cs, aa, bb)
  {
  }

  lemma PartsContentsSent(s: Build)
    requires !s.sender.NoReport?
    ensures Sum(PartsContents(Parts(s))) == Sent(s)
  {
    var r, d, a := ReportParts(s.sender, s.blocks), SdesParts(s.chunks), AppParts(s.apps);
    ReportPartsContents(s.sender, s.blocks);
    SdesPartsContents(s.chunks);
    AppPartsContents(s.apps);
    ByePartsContents(s.byes);
    PartsContentsAppend(r, d);
    PartsContentsAppend(r + d, a);
    PartsContentsAppend(r + d + a, ByeParts(s.byes));
    PlusKinds(SendersOf(s.sender, |s.blocks|), ReceivedAll(s.blocks), s.chunks, s.apps, s.byes);
  }

  // ----- reading one packet back -----

  lemma ReadReport(r: PacketRef, s: Sender, group: seq<ReportBlock>)
    requires r.Proper() && !s.NoReport? && |group| <= MAX_COUNT && r.Data() == ReportPacket(s, group)
    ensures r.Known() && ReadOne(r) == PartContents(ReportPart(s, group))
  {
    ReportPacketHeader(s, group);
    if s.SR? {
      SenderReportRoundTrip(s, group, r.sr);
    } else {
      ReceiverReportRoundTrip(s, group, r.rr);
    }
  }

  lemma ChunksAfter(h: seq<Byte>, cs: seq<Chunk>, d: seq<Byte>)
    requires ChunksProper(cs) && |h| == HEADER_SIZE && d == h + EncodeChunks(cs)
    ensures ChunksAt(d, HEADER_SIZE, cs)
  {
    EncodedChunksAt(h, cs);
  }

  lemma BodyWithoutPadding(p: seq<Byte>)
    requires HEADER_SIZE <= |p| && !PaddingBit(p)
    ensures UnpaddedLength(p) == Some(|p|) && Body(p) == p
  {
  }

  lemma ReadSdes(r: PacketRef, cs: seq<Chunk>)
    requires r.Proper() && |cs| <= MAX_COUNT && ChunksProper(cs) && r.Data() == SdesPacket(cs)
    ensures r.Known() && ReadOne(r) == PartContents(SdesPart(cs))
  {
    SdesPacketHeader(cs);
    ChunksAfter(SdesHeader(cs), cs, SdesPacket(cs));
    BodyWithoutPadding(SdesPacket(cs));
    var p := r.sdes;
    assert WellFormed(p.data);
    ChunksAtUnique(p.body, HEADER_SIZE, cs, p.chunks);
  }

  lemma ReadPart(r: PacketRef, part: Part)
    requires r.Proper() && Encodes(part, r.Data())
    ensures r.Known() && ReadOne(r) == PartContents(part)
  {
    match part
    case ReportPart(s, group) =>
      ReadReport(r, s, group);
    case SdesPart(cs) =>
      ReadSdes(r, cs);
    case AppPart(a) =>
      AppHeader(a);
      AppRoundTrip(a, r.app);
    case ByePart(b) =>
      ByeHeader(b);
      ByeRoundTrip(b, r.bye);
  }

  /** The objects made for the packets of a build all know their format, and their accessors
      return everything that was added, in order; loss counts are cut to 24 bits. */
  lemma ContentsKept(s: Build, list: seq<PacketRef>)
    requires s.Proper() && !s.sender.NoReport? && Represents(list, Packets(s))
    ensures AllKnown(list) && ReadAll(list) == Sent(s)
  {
    var parts := Parts(s);
    PartsEncoded(s);
    forall i | 0 <= i < |list|
      ensures list[i].Proper() && list[i].Known() && ReadOne(list[i]) == PartContents(parts[i])
    {
      assert list[i].Data() == Packets(s)[i] by {
        assert list[i].Data() == Datas(list)[i];
      }
      assert Encodes(parts[i], Packets(s)[i]);
      ReadPart(list[i], parts[i]);
    }
    assert seq(|list|, i requires 0 <= i < |list| => ReadOne(list[i])) == PartsContents(parts);
    PartsContentsSent(s);
  }

  /** The receiver's view of a packet that was built, when its word counts fit: whatever list of
      proper objects tiles the bytes, it has the packets and the contents that were sent. */
  lemma RoundTrip(s: Build, list: seq<PacketRef>)
    requires s.Proper() && !s.sender.NoReport? && WordCountsFit(s.chunks)
    requires AllProper(list) && Tiles(Bytes(s), Datas(list), true)
    ensures Datas(list) == Packets(s) && AllKnown(list) && ReadAll(list) == Sent(s)
  {
    BoundariesKept(s);
    TilesSplit(Bytes(s), Datas(list), true);
    TilesSplit(Bytes(s), Packets(s), true);
    ContentsKept(s, list);
  }
}
