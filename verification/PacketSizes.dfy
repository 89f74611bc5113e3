/** The size formulas count the bytes of the packets exactly. */
module PacketSizes {
  import opened Wire
  import opened SdesFormat
  import opened ReportFormat
  import opened ByeAppFormat
  import opened BuilderModel

  lemma GroupsStep(n: nat)
    requires n > 31
    ensures Groups(n) == 1 + Groups(n - 31)
  {
  }

  lemma {:induction false} ReportSizeExact(s: Sender, blocks: seq<ReportBlock>)
    ensures |Flatten(ReportPackets(s, blocks))| == if s.NoReport? then 0 else ReportSize(s, |blocks|)
    decreases |blocks|
  {
    if !s.NoReport? {
      if |blocks| <= MAX_COUNT {
        OneReportSize(s, blocks);
      } else {
        ReportSizeExact(RR(s.ssrc), blocks[MAX_COUNT..]);
        FlattenCons(ReportPacket(s, blocks[..MAX_COUNT]), ReportPackets(RR(s.ssrc), blocks[MAX_COUNT..]));
        ReportSizeStep(s, |blocks|);
      }
    }
  }

  lemma OneReportSize(s: Sender, blocks: seq<ReportBlock>)
    requires !s.NoReport? && |blocks| <= MAX_COUNT
    ensures |Flatten([ReportPacket(s, blocks)])| == ReportSize(s, |blocks|)
  {
    FlattenOne(ReportPacket(s, blocks));
  }

  /** A full report packet and the receiver reports for the rest. */
  lemma ReportSizeStep(s: Sender, n: nat)
    requires !s.NoReport? && n > 31
    ensures ReportSize(s, n) == FixedSize(s) + 31 * 24 + ReportSize(RR(s.ssrc), n - 31)
  {
    GroupsStep(n);
  }

  lemma ChunksSizeOne(c: Chunk)
    ensures ChunksSize([c]) == ChunkSize(c)
  {
  }

  lemma ChunksSizeSplit(cs: seq<Chunk>, n: nat)
    requires n <= |cs|
    ensures ChunksSize(cs) == ChunksSize(cs[..n]) + ChunksSize(cs[n..])
  {
    assert cs == cs[..n] + cs[n..];
    ChunksSizeAppend(cs[..n], cs[n..]);
  }

  lemma {:induction false} SdesSizeExact(cs: seq<Chunk>)
    ensures |Flatten(SdesPackets(cs))| == SdesSize(cs)
    decreases |cs|
  {
    if cs == [] {
    } else if |cs| <= MAX_COUNT {
      OneSdesSize(cs);
    } else {
      SdesSizeExact(cs[MAX_COUNT..]);
      FlattenCons(SdesPacket(cs[..MAX_COUNT]), SdesPackets(cs[MAX_COUNT..]));
      SdesSizeStep(cs);
    }
  }

  lemma OneSdesSize(cs: seq<Chunk>)
    requires cs != [] && |cs| <= MAX_COUNT
    ensures |Flatten([SdesPacket(cs)])| == SdesSize(cs)
  {
    FlattenOne(SdesPacket(cs));
  }

  /** A full SDES packet and the packets for the rest. */
  lemma SdesSizeStep(cs: seq<Chunk>)
    requires |cs| > MAX_COUNT
    ensures SdesSize(cs) == HEADER_SIZE + ChunksSize(cs[..MAX_COUNT]) + SdesSize(cs[MAX_COUNT..])
  {
    GroupsStep(|cs|);
    ChunksSizeSplit(cs, MAX_COUNT);
  }

  lemma {:induction false} AppsSizeExact(apps: seq<App>)
    requires AllAppsProper(apps)
    ensures |Flatten(AppPackets(apps))| == AppsSize(apps)
  {
    if apps != [] {
      var n := |apps| - 1;
      AppsSizeExact(apps[..n]);
      FlattenPush(AppPackets(apps[..n]), EncodeApp(apps[n]));
    }
  }

  lemma {:induction false} ByesSizeExact(byes: seq<Bye>)
    requires AllByesProper(byes)
    ensures |Flatten(ByePackets(byes))| == ByesSize(byes)
  {
    if byes != [] {
      var n := |byes| - 1;
      ByesSizeExact(byes[..n]);
      FlattenPush(ByePackets(byes[..n]), EncodeBye(byes[n]));
    }
  }

  /** Byte accounting is exact: the summed sizes are the length of the compound packet. */
  lemma TotalExact(s: Build)
    requires s.Proper()
    ensures |Bytes(s)| == Total(s)
  {
    var r, d, a, b := ReportPackets(s.sender, s.blocks), SdesPackets(s.chunks), AppPackets(s.apps), ByePackets(s.byes);
    FlattenAppend(r, d);
    FlattenAppend(r + d, a);
    FlattenAppend(r + d + a, b);
    ReportSizeExact(s.sender, s.blocks);
    SdesSizeExact(s.chunks);
    AppsSizeExact(s.apps);
    ByesSizeExact(s.byes);
  }

  /** An item added to the last chunk changes only that chunk's share. */
  lemma WithItemSize(cs: seq<Chunk>, item: Item)
    requires cs != []
    ensures
      var last := cs[|cs| - 1];
      SdesSize(WithItem(cs, item))
        == ChunksSize(cs[..|cs| - 1]) + 4 + Align4(ItemsSize(last.items) + ItemSize(item) + 1) + Groups(|cs|) * 4
  {
    var n := |cs| - 1;
    var c := cs[n].(items := cs[n].items + [item]);
    ChunksSizeAppend(cs[..n], [c]);
    assert [c][1..] == [];
    ItemsSizeAppend(cs[n].items, [item]);
    assert [item][1..] == [];
  }

  lemma WithSourceSize(cs: seq<Chunk>, ssrc: U32)
    ensures SdesSize(cs + [Chunk(ssrc, [])]) == ChunksSize(cs) + 8 + Groups(|cs| + 1) * 4
  {
    var c := Chunk(ssrc, []);
    ChunksSizeAppend(cs, [c]);
    assert [c][1..] == [];
  }

  // ----- no addition makes the packet smaller -----

  lemma GroupsGrow(m: nat, n: nat)
    requires m <= n
    ensures Groups(m) <= Groups(n)
  {
  }

  lemma AlignGrows(m: nat, n: nat)
    requires m <= n
    ensures Align4(m) <= Align4(n)
  {
  }

  lemma BlockGrows(s: Build, block: ReportBlock)
    requires !s.sender.NoReport?
    ensures Total(s.(blocks := s.blocks + [block])) > Total(s)
  {
    GroupsGrow(|s.blocks|, |s.blocks| + 1);
  }

  lemma SourceGrows(s: Build, ssrc: U32)
    ensures Total(s.(chunks := s.chunks + [Chunk(ssrc, [])])) > Total(s)
  {
    WithSourceSize(s.chunks, ssrc);
    GroupsGrow(|s.chunks|, |s.chunks| + 1);
  }

  lemma ItemGrows(s: Build, item: Item)
    requires s.chunks != []
    ensures Total(s.(chunks := WithItem(s.chunks, item))) >= Total(s)
  {
    SdesGrows(s.chunks, item);
  }

  lemma SdesGrows(cs: seq<Chunk>, item: Item)
    requires cs != []
    ensures SdesSize(WithItem(cs, item)) >= SdesSize(cs)
  {
    var last := cs[|cs| - 1];
    WithItemSize(cs, item);
    LastSize(cs);
    AlignGrows(ItemsSize(last.items) + 1, ItemsSize(last.items) + ItemSize(item) + 1);
  }

  lemma LastSize(cs: seq<Chunk>)
    requires cs != []
    ensures ChunksSize(cs) == ChunksSize(cs[..|cs| - 1]) + ChunkSize(cs[|cs| - 1])
  {
    ChunksSizePush(cs, |cs| - 1);
    assert cs[..|cs|] == cs;
  }

  lemma ByeGrows(s: Build, bye: Bye)
    ensures Total(s.(byes := s.byes + [bye])) >= Total(s)
  {
    assert (s.byes + [bye])[..|s.byes|] == s.byes;
  }

  lemma AppGrows(s: Build, app: App)
    ensures Total(s.(apps := s.apps + [app])) > Total(s)
  {
    assert (s.apps + [app])[..|s.apps|] == s.apps;
  }
}
