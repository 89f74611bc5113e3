/** The answer of each call of RTCPCompoundPacketBuilder: every error code exactly when its condition holds,
    and an addition accepted exactly when the bytes that EndBuild would then write fit. */
module BuilderLaws {
  import opened Wire
  import opened SdesFormat
  import opened SdesParser
  import opened ReportFormat
  import opened ByeAppFormat
  import opened BuilderModel
  import opened PacketSizes

  /** EndBuild would write at most the maximum. */
  ghost predicate Fits(s: Build) {
    s.Proper() && |Bytes(s)| <= s.max
  }

  lemma FitsTotal(s: Build)
    requires s.Proper()
    ensures Fits(s) <==> Total(s) <= s.max
  {
    TotalExact(s);
  }

  /** The call gave this status, and left `added` behind if that is Ok and else nothing changed. */
  predicate Answered(s: Build, added: Build, r: (Build, Status)) {
    r.0 == if r.1 == Ok then added else s
  }

  lemma KeepLaw(s: Build, added: Build)
    requires added.Proper() && added.max == s.max
    ensures Keep(s, added).1 == (if Fits(added) then Ok else NotEnoughBytesLeft)
    ensures Answered(s, added, Keep(s, added))
  {
    FitsTotal(added);
  }

  /** InitBuild and InitBuildExternal: once, and with at least 600 bytes. */
  lemma InitLaw(s: Build, n: Size)
    ensures
      var r := Step(s, InitBuild(n));
      && r.1 == (if s.building then AlreadyBuilding else if s.built then AlreadyBuilt
                 else if n < 600 then MaxPacketSizeTooSmall else Ok)
      && Answered(s, s.(max := n, building := true), r)
    ensures
      var r := Step(s, InitBuildExternal(n));
      && r.1 == (if s.building then AlreadyBuilding else if s.built then AlreadyBuilt
                 else if n < 600 then BufferSizeTooSmall else Ok)
      && Answered(s, s.(max := n, building := true), r)
  {
  }

  /** A report can be started once. The bytes it needs are compared with what is left of the maximum, a
      difference of unsigned numbers: if the packet is already too large, that is about 2^64. */
  predicate StartAnswer(s: Build, added: Build, needed: nat, r: (Build, Status))
    requires s.Proper() && added.Proper()
  {
    && Answered(s, added, r)
    && r.1 == if !s.building then NotBuilding
              else if !s.sender.NoReport? then AlreadyGotReport
              else if |Bytes(s)| <= s.max then (if |Bytes(added)| <= s.max then Ok else NotEnoughBytesLeft)
              else if |Bytes(s)| - s.max + needed <= 0x1_0000_0000_0000_0000 then Ok else NotEnoughBytesLeft
  }

  lemma StartDecided(s: Build, sender: Sender, needed: nat)
    requires s.Proper() && !sender.NoReport? && needed == FixedSize(sender)
    requires s.building ==> s.(sender := sender).Proper()
    ensures s.building ==> StartAnswer(s, s.(sender := sender), needed, DoStart(s, sender))
    ensures !s.building ==> DoStart(s, sender) == (s, NotBuilding)
  {
    if s.building {
      TotalExact(s);
      TotalExact(s.(sender := sender));
      if s.sender.NoReport? {
        assert Total(s.(sender := sender)) == Total(s) + needed;
      }
    }
  }

  lemma StartLaw(s: Build, ssrc: U32, info: SenderInfo)
    requires s.Proper() && s.building
    ensures StartAnswer(s, s.(sender := SR(ssrc, info)), 28, Step(s, StartSenderReport(ssrc, info)))
    ensures StartAnswer(s, s.(sender := RR(ssrc)), 8, Step(s, StartReceiverReport(ssrc)))
  {
    StartDecided(s, SR(ssrc, info), 28);
    StartDecided(s, RR(ssrc), 8);
  }

  /** Nothing can be added or ended before a build has started. */
  lemma NotBuildingLaw(s: Build, op: Op)
    requires !s.building
    ensures op.InitBuild? || op.InitBuildExternal? || Step(s, op) == (s, NotBuilding)
  {
  }

  lemma BlockLaw(s: Build, block: ReportBlock)
    requires s.Proper()
    ensures
      var r, added := Step(s, AddReportBlock(block)), s.(blocks := s.blocks + [block]);
      && Answered(s, added, r)
      && (!s.building ==> r.1 == NotBuilding)
      && (s.building && s.sender.NoReport? ==> r.1 == ReportNotStarted)
      && (s.building && !s.sender.NoReport? ==> r.1 == if Fits(added) then Ok else NotEnoughBytesLeft)
  {
    if s.building && !s.sender.NoReport? {
      KeepLaw(s, s.(blocks := s.blocks + [block]));
    }
  }

  /** The first source is accepted if the packet fits without it. */
  lemma SourceLaw(s: Build, ssrc: U32)
    requires s.Proper()
    ensures
      var r, added := Step(s, AddSDESSource(ssrc)), s.(chunks := s.chunks + [Chunk(ssrc, [])]);
      && Answered(s, added, r)
      && (!s.building ==> r.1 == NotBuilding)
      && (s.building ==> r.1 == if Fits(if s.chunks == [] then s else added) then Ok else NotEnoughBytesLeft)
  {
    if s.building {
      SourceProper(s, ssrc);
      if s.chunks == [] {
        FitsTotal(s);
      } else {
        KeepLaw(s, s.(chunks := s.chunks + [Chunk(ssrc, [])]));
      }
    }
  }

  lemma SourceProper(s: Build, ssrc: U32)
    requires s.Proper() && s.building
    ensures s.(chunks := s.chunks + [Chunk(ssrc, [])]).Proper()
  {
  }

  /** The items go to the last source. */
  function WithLastItem(s: Build, item: Item): Build
    requires s.chunks != []
  {
    var n := |s.chunks| - 1;
    s.(chunks := s.chunks[n := Chunk(s.chunks[n].ssrc, s.chunks[n].items + [item])])
  }

  lemma WithItemIsLast(s: Build, item: Item)
    requires s.Proper() && s.building && s.chunks != [] && item.id != 0
    ensures WithLastItem(s, item) == s.(chunks := WithItem(s.chunks, item)) && WithLastItem(s, item).Proper()
  {
    WithItemProper(s.chunks, item);
  }

  /** Seven types have identifiers, 1 to 7; the others are refused. */
  lemma NormalItemLaw(s: Build, t: ItemType, text: Text)
    requires s.Proper()
    ensures
      var r := Step(s, AddSDESNormalItem(t, text));
      && (!s.building ==> r == (s, NotBuilding))
      && (s.building && s.chunks == [] ==> r == (s, NoCurrentSource))
      && (s.building && s.chunks != [] && t !in IDS ==> r == (s, InvalidItemType))
  {
  }

  /** CNAME is 1, NAME 2, EMAIL 3, PHONE 4, LOC 5, TOOL 6 and NOTE 7 (section 6.5 of RFC 3550). */
  const IDS: map<ItemType, Byte> := map[CNAME := 1, NAME := 2, EMAIL := 3, PHONE := 4, LOC := 5, TOOL := 6, NOTE := 7]

  lemma Identifiers(t: ItemType)
    requires t in IDS
    ensures NormalItemId(t) == Some(IDS[t]) && IDS[t] != 0
  {
  }

  /** The item was added if it fits. */
  ghost predicate ItemAnswer(s: Build, item: Item, r: (Build, Status))
    requires s.chunks != []
  {
    Answered(s, WithLastItem(s, item), r) && r.1 == if Fits(WithLastItem(s, item)) then Ok else NotEnoughBytesLeft
  }

  lemma ItemDecided(s: Build, t: ItemType, text: Text, id: Byte)
    requires s.Proper() && s.building && s.chunks != [] && NormalItemId(t) == Some(id) && id != 0
    ensures ItemAnswer(s, Item(id, text), DoAddNormalItem(s, t, text))
  {
    WithItemIsLast(s, Item(id, text));
    KeepLaw(s, WithLastItem(s, Item(id, text)));
  }

  lemma NormalItemAdded(s: Build, t: ItemType, text: Text)
    requires s.Proper() && s.building && s.chunks != [] && t in IDS
    ensures ItemAnswer(s, Item(IDS[t], text), Step(s, AddSDESNormalItem(t, text)))
  {
    Identifiers(t);
    ItemDecided(s, t, text, IDS[t]);
  }

  /** The length byte of the prefix, the prefix and the value must fit the item's own length byte. */
  lemma PrivateItemLaw(s: Build, prefix: Text, value: Text)
    requires s.Proper()
    ensures
      var r := Step(s, AddSDESPrivateItem(prefix, value));
      && (!s.building ==> r == (s, NotBuilding))
      && (s.building && s.chunks == [] ==> r == (s, NoCurrentSource))
      && (s.building && s.chunks != [] && |prefix| + |value| > 254 ==> r == (s, TotalItemLengthTooBig))
      && (s.building && s.chunks != [] && |prefix| + |value| <= 254 ==>
            var added := WithLastItem(s, Item(8, [|prefix|] + prefix + value));
            Answered(s, added, r) && r.1 == if Fits(added) then Ok else NotEnoughBytesLeft)
  {
    if s.building && s.chunks != [] && |prefix| + |value| <= 254 {
      var item := Item(8, [|prefix|] + prefix + value);
      WithItemIsLast(s, item);
      KeepLaw(s, WithLastItem(s, item));
    }
  }

  lemma ByeLaw(s: Build, bye: Bye)
    requires s.Proper()
    ensures
      var r, added := Step(s, AddBYEPacket(bye)), s.(byes := s.byes + [bye]);
      && Answered(s, added, r)
      && (!s.building ==> r.1 == NotBuilding)
      && (s.building && |bye.ssrcs| > 31 ==> r.1 == TooManySSRCs)
      && (s.building && |bye.ssrcs| <= 31 ==> r.1 == if Fits(added) then Ok else NotEnoughBytesLeft)
  {
    if s.building && |bye.ssrcs| <= 31 {
      KeepLaw(s, s.(byes := s.byes + [bye]));
    }
  }

  lemma AppLaw(s: Build, app: App)
    requires s.Proper()
    ensures
      var r, added := Step(s, AddAPPPacket(app)), s.(apps := s.apps + [app]);
      && Answered(s, added, r)
      && (!s.building ==> r.1 == NotBuilding)
      && (s.building && app.subtype > 31 ==> r.1 == IllegalSubtype)
      && (s.building && app.subtype <= 31 && |app.data| % 4 != 0 ==> r.1 == IllegalAppDataLength)
      && (s.building && app.subtype <= 31 && |app.data| % 4 == 0 ==>
            r.1 == if |app.data| > 262132 then AppDataLenTooBig else if Fits(added) then Ok else NotEnoughBytesLeft)
  {
    if s.building && app.subtype <= 31 && |app.data| % 4 == 0 && |app.data| <= 262132 {
      KeepLaw(s, s.(apps := s.apps + [app]));
    }
  }

  /** EndBuild: once a report was started; nothing can be added or built after it. */
  lemma EndLaw(s: Build)
    ensures
      var r := Step(s, EndBuild);
      && r.1 == (if !s.building then NotBuilding else if s.sender.NoReport? then NoReportPresent else Ok)
      && Answered(s, Build(s.max, false, true, NoReport, [], [], [], []), r)
  {
  }
}
