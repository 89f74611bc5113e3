/** What a compound packet under construction holds, the bytes it stands for, and what each
    operation of RTCPCompoundPacketBuilder does to it.

    An addition is accepted if the packet that would result is not larger than the maximum. Sizes
    are summed here; PacketSizes proves that the sum is the number of bytes EndBuild writes. */
module BuilderModel {
  import opened Wire
  import opened SdesFormat
  import opened ReportFormat
  import opened ByeAppFormat
  import opened SdesParser

  const MIN_PACKET_SIZE := 600
  /** One more than the largest size_t. */
  const SIZE_MODULUS := 0x1_0000_0000_0000_0000
  type Size = x: int | 0 <= x < 0x1_0000_0000_0000_0000

  datatype Status =
    | Ok | AlreadyBuilding | AlreadyBuilt | MaxPacketSizeTooSmall | BufferSizeTooSmall | NotBuilding
    | AlreadyGotReport | NotEnoughBytesLeft | ReportNotStarted | NoCurrentSource | InvalidItemType
    | TotalItemLengthTooBig | TooManySSRCs | IllegalSubtype | IllegalAppDataLength | AppDataLenTooBig
    | NoReportPresent

  datatype Build = Build(
    max: Size, building: bool, built: bool,
    sender: Sender, blocks: seq<ReportBlock>, chunks: seq<Chunk>, apps: seq<App>, byes: seq<Bye>)
  {
    /** What every reachable state satisfies. */
    predicate Proper() {
      && (sender.NoReport? ==> blocks == [])
      && ChunksProper(chunks)
      && AllAppsProper(apps)
      && AllByesProper(byes)
      && (!building ==> sender.NoReport? && chunks == [] && apps == [] && byes == [])
    }
  }

  predicate AllAppsProper(apps: seq<App>) {
    forall i :: 0 <= i < |apps| ==> AppProper(apps[i]) && |apps[i].data| / 4 + 2 <= 65535
  }

  predicate AllByesProper(byes: seq<Bye>) {
    forall i :: 0 <= i < |byes| ==> |byes[i].ssrcs| <= MAX_COUNT
  }

  const EMPTY := Build(0, false, false, NoReport, [], [], [], [])

  // ----- the packets -----

  /** The report with up to 31 blocks, then receiver reports from the same source for the rest. */
  function ReportPackets(s: Sender, blocks: seq<ReportBlock>): (ps: seq<seq<Byte>>)
    decreases |blocks|
  {
    if s.NoReport? then []
    else if |blocks| <= MAX_COUNT then [ReportPacket(s, blocks)]
    else [ReportPacket(s, blocks[..MAX_COUNT])] + ReportPackets(RR(s.ssrc), blocks[MAX_COUNT..])
  }

  function SdesPacket(cs: seq<Chunk>): (p: seq<Byte>)
    requires |cs| <= MAX_COUNT
    ensures |p| == HEADER_SIZE + ChunksSize(cs)
  {
    SdesHeader(cs) + EncodeChunks(cs)
  }

  function SdesHeader(cs: seq<Chunk>): (h: seq<Byte>)
    requires |cs| <= MAX_COUNT
    ensures |h| == HEADER_SIZE
  {
    ChunksSizeAligned(cs);
    Header(|cs|, TYPE_SDES, HEADER_SIZE + ChunksSize(cs))
  }

  lemma SdesPacketHeader(cs: seq<Chunk>)
    requires |cs| <= MAX_COUNT
    ensures
      var p := SdesPacket(cs);
      && Version(p) == RTP_VERSION && !PaddingBit(p) && Count(p) == |cs| && PType(p) == TYPE_SDES
      && (AnnouncedSize(p) == |p| <==> |p| <= MAX_WORD_COUNTED)
      && (|p| > MAX_WORD_COUNTED ==> AnnouncedSize(p) < |p|)
  {
    SdesPacketStart(cs);
    HeaderFields(SdesPacket(cs), |cs|, TYPE_SDES, |SdesPacket(cs)|);
  }

  lemma SdesPacketStart(cs: seq<Chunk>)
    requires |cs| <= MAX_COUNT
    ensures HEADER_SIZE <= |SdesPacket(cs)| && |SdesPacket(cs)| % 4 == 0
    ensures SdesPacket(cs)[..HEADER_SIZE] == Header(|cs|, TYPE_SDES, |SdesPacket(cs)|)
  {
    ChunksSizeAligned(cs);
    Mod4Sum(HEADER_SIZE, ChunksSize(cs));
  }

  function SdesPackets(cs: seq<Chunk>): (ps: seq<seq<Byte>>)
    decreases |cs|
  {
    if cs == [] then []
    else if |cs| <= MAX_COUNT then [SdesPacket(cs)]
    else [SdesPacket(cs[..MAX_COUNT])] + SdesPackets(cs[MAX_COUNT..])
  }

  function AppPackets(apps: seq<App>): (ps: seq<seq<Byte>>)
    requires AllAppsProper(apps)
    ensures |ps| == |apps|
  {
    if apps == [] then [] else AppPackets(apps[..|apps| - 1]) + [EncodeApp(apps[|apps| - 1])]
  }

  function ByePackets(byes: seq<Bye>): (ps: seq<seq<Byte>>)
    requires AllByesProper(byes)
    ensures |ps| == |byes|
  {
    if byes == [] then [] else ByePackets(byes[..|byes| - 1]) + [EncodeBye(byes[|byes| - 1])]
  }

  lemma {:induction false} AppPacketsIndex(apps: seq<App>, i: nat)
    requires AllAppsProper(apps) && i < |apps|
    ensures AppPackets(apps)[i] == EncodeApp(apps[i])
    decreases |apps|
  {
    if i < |apps| - 1 {
      AppPacketsIndex(apps[..|apps| - 1], i);
    }
  }

  lemma {:induction false} ByePacketsIndex(byes: seq<Bye>, i: nat)
    requires AllByesProper(byes) && i < |byes|
    ensures ByePackets(byes)[i] == EncodeBye(byes[i])
    decreases |byes|
  {
    if i < |byes| - 1 {
      ByePacketsIndex(byes[..|byes| - 1], i);
    }
  }

  /** Reports, then source descriptions, then APP and BYE packets. */
  function Packets(s: Build): seq<seq<Byte>>
    requires s.Proper()
  {
    ReportPackets(s.sender, s.blocks) + SdesPackets(s.chunks) + AppPackets(s.apps) + ByePackets(s.byes)
  }

  /** The compound packet that EndBuild would write. */
  function Bytes(s: Build): seq<Byte>
    requires s.Proper()
  {
    Flatten(Packets(s))
  }

  // ----- sizes -----

  /** How many packets hold `n` blocks or chunks, at most 31 to a packet. */
  function Groups(n: nat): nat {
    n / 31 + if n % 31 != 0 then 1 else 0
  }

  function ReportSize(s: Sender, n: nat): nat {
    if s.NoReport? then 0
    else if n == 0 then FixedSize(s)
    else n * 24 + Groups(n) * 8 + if s.SR? then SENDER_INFO_SIZE else 0
  }

  function SdesSize(cs: seq<Chunk>): nat {
    if cs == [] then 0 else ChunksSize(cs) + Groups(|cs|) * 4
  }

  function AppsSize(apps: seq<App>): nat {
    if apps == [] then 0
    else AppsSize(apps[..|apps| - 1]) + APP_FIXED + |apps[|apps| - 1].data|
  }

  function ByesSize(byes: seq<Bye>): nat {
    if byes == [] then 0 else ByesSize(byes[..|byes| - 1]) + ByeSize(byes[|byes| - 1])
  }

  /** The size of the compound packet under construction. */
  function Total(s: Build): nat {
    ReportSize(s.sender, |s.blocks|) + SdesSize(s.chunks) + AppsSize(s.apps) + ByesSize(s.byes)
  }

  // ----- the operations -----

  datatype Op =
    | InitBuild(maxpacketsize: Size)
    | InitBuildExternal(buffersize: Size)
    | StartSenderReport(senderssrc: U32, info: SenderInfo)
    | StartReceiverReport(senderssrc: U32)
    | AddReportBlock(block: ReportBlock)
    | AddSDESSource(ssrc: U32)
    | AddSDESNormalItem(t: ItemType, itemdata: Text)
    | AddSDESPrivateItem(prefix: Text, value: Text)
    | AddBYEPacket(bye: Bye)
    | AddAPPPacket(app: App)
    | EndBuild

  /** The identifier AddSDESNormalItem writes; none for the types it rejects. */
  function NormalItemId(t: ItemType): Option<Byte> {
    match t
    case CNAME => Some(1)
    case NAME => Some(2)
    case EMAIL => Some(3)
    case PHONE => Some(4)
    case LOC => Some(5)
    case TOOL => Some(6)
    case NOTE => Some(7)
    case _ => None
  }

  /** The subtraction of two size_t values, which wraps around when the result is negative. */
  function SizeMinus(a: nat, b: nat): int {
    if b <= a then a - b else a - b + SIZE_MODULUS
  }

  function WithItem(cs: seq<Chunk>, item: Item): (r: seq<Chunk>)
    requires cs != []
    ensures |r| == |cs|
  {
    var n := |cs| - 1;
    cs[..n] + [cs[n].(items := cs[n].items + [item])]
  }

  /** The larger packet if it is not too large, otherwise the old one. */
  function Keep(s: Build, added: Build): (r: (Build, Status)) {
    if Total(added) > s.max then (s, NotEnoughBytesLeft) else (added, Ok)
  }

  function DoInit(s: Build, max: Size, toosmall: Status): (r: (Build, Status)) {
    if s.building then (s, AlreadyBuilding)
    else if s.built then (s, AlreadyBuilt)
    else if max < MIN_PACKET_SIZE then (s, toosmall)
    else (s.(max := max, building := true), Ok)
  }

  function DoStart(s: Build, sender: Sender): (r: (Build, Status))
    requires !sender.NoReport?
  {
    if !s.building then (s, NotBuilding)
    else if !s.sender.NoReport? then (s, AlreadyGotReport)
    else if FixedSize(sender) > SizeMinus(s.max, Total(s)) then (s, NotEnoughBytesLeft)
    else (s.(sender := sender), Ok)
  }

  function DoAddBlock(s: Build, block: ReportBlock): (r: (Build, Status)) {
    if !s.building then (s, NotBuilding)
    else if s.sender.NoReport? then (s, ReportNotStarted)
    else Keep(s, s.(blocks := s.blocks + [block]))
  }

  /** While there are no sources the size predictor answers 0, so the new source is not counted. */
  function DoAddSource(s: Build, ssrc: U32): (r: (Build, Status)) {
    var added := s.(chunks := s.chunks + [Chunk(ssrc, [])]);
    if !s.building then (s, NotBuilding)
    else if s.chunks != [] then Keep(s, added)
    else if Total(s) > s.max then (s, NotEnoughBytesLeft)
    else (added, Ok)
  }

  function DoAddNormalItem(s: Build, t: ItemType, itemdata: Text): (r: (Build, Status)) {
    if !s.building then (s, NotBuilding)
    else if s.chunks == [] then (s, NoCurrentSource)
    else if NormalItemId(t).None? then (s, InvalidItemType)
    else Keep(s, s.(chunks := WithItem(s.chunks, Item(NormalItemId(t).value, itemdata))))
  }

  function DoAddPrivateItem(s: Build, prefix: Text, value: Text): (r: (Build, Status)) {
    if !s.building then (s, NotBuilding)
    else if s.chunks == [] then (s, NoCurrentSource)
    else if |prefix| + 1 + |value| > 255 then (s, TotalItemLengthTooBig)
    else Keep(s, s.(chunks := WithItem(s.chunks, Item(ID_PRIVATE, [|prefix|] + prefix + value))))
  }

  function DoAddBye(s: Build, bye: Bye): (r: (Build, Status)) {
    if !s.building then (s, NotBuilding)
    else if |bye.ssrcs| > MAX_COUNT then (s, TooManySSRCs)
    else Keep(s, s.(byes := s.byes + [bye]))
  }

  function DoAddApp(s: Build, app: App): (r: (Build, Status)) {
    if !s.building then (s, NotBuilding)
    else if app.subtype > MAX_COUNT then (s, IllegalSubtype)
    else if |app.data| % 4 != 0 then (s, IllegalAppDataLength)
    else if |app.data| / 4 + 2 > 65535 then (s, AppDataLenTooBig)
    else Keep(s, s.(apps := s.apps + [app]))
  }

  function DoEnd(s: Build): (r: (Build, Status)) {
    if !s.building then (s, NotBuilding)
    else if s.sender.NoReport? then (s, NoReportPresent)
    else (EMPTY.(max := s.max, built := true), Ok)
  }

  function Step(s: Build, op: Op): (r: (Build, Status)) {
    match op
    case InitBuild(m) => DoInit(s, m, MaxPacketSizeTooSmall)
    case InitBuildExternal(m) => DoInit(s, m, BufferSizeTooSmall)
    case StartSenderReport(ssrc, info) => DoStart(s, SR(ssrc, info))
    case StartReceiverReport(ssrc) => DoStart(s, RR(ssrc))
    case AddReportBlock(block) => DoAddBlock(s, block)
    case AddSDESSource(ssrc) => DoAddSource(s, ssrc)
    case AddSDESNormalItem(t, itemdata) => DoAddNormalItem(s, t, itemdata)
    case AddSDESPrivateItem(prefix, value) => DoAddPrivateItem(s, prefix, value)
    case AddBYEPacket(bye) => DoAddBye(s, bye)
    case AddAPPPacket(app) => DoAddApp(s, app)
    case EndBuild => DoEnd(s)
  }

  lemma WithItemProper(cs: seq<Chunk>, item: Item)
    requires cs != [] && ChunksProper(cs) && item.id != 0
    ensures ChunksProper(WithItem(cs, item))
  {
  }

  lemma KeepProper(s: Build, added: Build)
    requires s.Proper() && added.Proper()
    ensures Keep(s, added).0.Proper()
  {
  }

  lemma AddSourceProper(s: Build, ssrc: U32)
    requires s.Proper()
    ensures DoAddSource(s, ssrc).0.Proper()
  {
    if s.building {
      assert s.(chunks := s.chunks + [Chunk(ssrc, [])]).Proper();
      KeepProper(s, s.(chunks := s.chunks + [Chunk(ssrc, [])]));
    }
  }

  lemma WithItemKeeps(s: Build, item: Item)
    requires s.Proper() && s.building && s.chunks != [] && item.id != 0
    ensures Keep(s, s.(chunks := WithItem(s.chunks, item))).0.Proper()
  {
    WithItemProper(s.chunks, item);
    KeepProper(s, s.(chunks := WithItem(s.chunks, item)));
  }

  lemma AddNormalItemProper(s: Build, t: ItemType, d: Text)
    requires s.Proper()
    ensures DoAddNormalItem(s, t, d).0.Proper()
  {
    if s.building && s.chunks != [] && NormalItemId(t).Some? {
      WithItemKeeps(s, Item(NormalItemId(t).value, d));
    }
  }

  lemma AddPrivateItemProper(s: Build, p: Text, v: Text)
    requires s.Proper()
    ensures DoAddPrivateItem(s, p, v).0.Proper()
  {
    if s.building && s.chunks != [] && |p| + 1 + |v| <= 255 {
      WithItemKeeps(s, Item(ID_PRIVATE, [|p|] + p + v));
    }
  }

  lemma AddByeProper(s: Build, bye: Bye)
    requires s.Proper()
    ensures DoAddBye(s, bye).0.Proper()
  {
    if s.building && |bye.ssrcs| <= MAX_COUNT {
      KeepProper(s, s.(byes := s.byes + [bye]));
    }
  }

  lemma AddAppProper(s: Build, app: App)
    requires s.Proper()
    ensures DoAddApp(s, app).0.Proper()
  {
    if s.building && AppProper(app) && |app.data| / 4 + 2 <= 65535 {
      KeepProper(s, s.(apps := s.apps + [app]));
    }
  }

  /** Every operation keeps the state proper. */
  lemma StepProper(s: Build, op: Op)
    requires s.Proper()
    ensures Step(s, op).0.Proper()
  {
    match op
    case AddSDESSource(ssrc) => AddSourceProper(s, ssrc);
    case AddSDESNormalItem(t, d) => AddNormalItemProper(s, t, d);
    case AddSDESPrivateItem(p, v) => AddPrivateItemProper(s, p, v);
    case AddBYEPacket(bye) => AddByeProper(s, bye);
    case AddAPPPacket(app) => AddAppProper(s, app);
    case AddReportBlock(_) =>
    case StartSenderReport(_, _) =>
    case StartReceiverReport(_) =>
    case InitBuild(_) =>
    case InitBuildExternal(_) =>
    case EndBuild =>
  }
}
