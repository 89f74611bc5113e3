/** RTCPCompoundPacketBuilder: the object that collects reports, source descriptions, APP and BYE
    packets under a byte budget. Its contracts are the operations of BuilderModel. */
module CompoundBuilder {
  import opened Wire
  import opened SdesFormat
  import opened SdesParser
  import opened ReportFormat
  import opened ByeAppFormat
  import opened BuilderModel
  import opened BuilderParts
  import opened PacketSizes
  import opened PacketWriter
  import opened CompoundPacket

  class RTCPCompoundPacketBuilder {
    var maximumpacketsize: Size
    var buffer: array?<Byte>
    var external: bool
    var arebuilding: bool
    const report: Report
    const sdes: SDES
    var byepackets: seq<seq<Byte>>
    var byesize: nat
    var apppackets: seq<seq<Byte>>
    var appsize: nat
    // the fields of RTCPCompoundPacket
    var compoundpacket: array?<Byte>
    var compoundpacketlength: nat
    var rtcppacklist: seq<PacketRef>
    // the state of the model that the other fields represent
    ghost var state: Build

    ghost predicate Valid()
      reads this, report, sdes, sdes.sdessources
    {
      && state.Proper() && report.Valid() && sdes.Valid()
      && maximumpacketsize == state.max && arebuilding == state.building
      && (compoundpacket != null) == state.built
      && report.sender == state.sender && report.blocks == state.blocks
      && sdes.chunks == state.chunks
      && apppackets == AppPackets(state.apps) && appsize == AppsSize(state.apps)
      && byepackets == ByePackets(state.byes) && byesize == ByesSize(state.byes)
      && (external && arebuilding ==> buffer != null)
      && (arebuilding || compoundpacket == null ==> rtcppacklist == [])
    }

    constructor ()
      ensures Valid() && fresh(report) && fresh(sdes) && sdes.sdessources == []
      ensures state == EMPTY && compoundpacket == null && rtcppacklist == []
    {
      report := new Report();
      sdes := new SDES();
      byepackets, byesize, apppackets, appsize := [], 0, [], 0;
      maximumpacketsize := 0;
      buffer := null;
      external, arebuilding := false, false;
      compoundpacket := null;
      compoundpacketlength := 0;
      rtcppacklist := [];
      state := EMPTY;
    }

    /** Nothing collected: the state before a build and after one. */
    ghost predicate Cleared()
      reads this, report, sdes
    {
      && report.Valid() && report.sender == NoReport && report.blocks == []
      && sdes.sdessources == [] && sdes.chunks == []
      && apppackets == [] && appsize == 0 && byepackets == [] && byesize == 0
    }

    method ClearBuildBuffers()
      modifies report, sdes, this`byepackets, this`apppackets, this`byesize, this`appsize
      ensures Cleared()
    {
      report.Clear();
      sdes.Clear();
      byepackets, apppackets := [], [];
      byesize, appsize := 0, 0;
    }

    /** The assignments the two methods below share. */
    method Begin(size: Size, externalbuffer: array?<Byte>)
      requires Valid() && !arebuilding && compoundpacket == null && MIN_PACKET_SIZE <= size
      modifies this`maximumpacketsize, this`buffer, this`external, this`byesize, this`appsize, this`arebuilding,
        this`state
      ensures Valid() && state == Begun(old(state), size)
      ensures buffer == externalbuffer && external == (externalbuffer != null)
    {
      maximumpacketsize := size;
      buffer := externalbuffer;
      external := externalbuffer != null;
      byesize, appsize := 0, 0;
      arebuilding := true;
      state := Begun(state, size);
    }

    method InitBuild(maxpacketsize: Size) returns (status: Status)
      requires Valid()
      modifies this
      ensures Valid() && (state, status) == DoInit(old(state), maxpacketsize, MaxPacketSizeTooSmall)
      ensures unchanged(this`compoundpacket, this`compoundpacketlength, this`rtcppacklist)
      ensures status == Ok ==> !external
    {
      if arebuilding { return AlreadyBuilding; }
      if compoundpacket != null { return AlreadyBuilt; }
      if maxpacketsize < MIN_PACKET_SIZE { return MaxPacketSizeTooSmall; }
      Begin(maxpacketsize, null);
      return Ok;
    }

    method InitBuildExternal(externalbuffer: array<Byte>, buffersize: Size) returns (status: Status)
      requires Valid()
      modifies this
      ensures Valid() && (state, status) == DoInit(old(state), buffersize, BufferSizeTooSmall)
      ensures unchanged(this`compoundpacket, this`compoundpacketlength, this`rtcppacklist)
      ensures status == Ok ==> external && buffer == externalbuffer
    {
      if arebuilding { return AlreadyBuilding; }
      if compoundpacket != null { return AlreadyBuilt; }
      if buffersize < MIN_PACKET_SIZE { return BufferSizeTooSmall; }
      Begin(buffersize, externalbuffer);
      return Ok;
    }

    method StartSenderReport(senderssrc: U32, info: SenderInfo) returns (status: Status)
      requires Valid()
      modifies report, this`state
      ensures Valid() && (state, status) == DoStart(old(state), SR(senderssrc, info))
    {
      if !arebuilding { return NotBuilding; }
      if report.headerlength != 0 { return AlreadyGotReport; }
      var sdessize := sdes.NeededBytes();
      var totalsize := byesize + appsize + sdessize;
      var sizeleft := SizeMinus(maximumpacketsize, totalsize);
      var neededsize := HEADER_SIZE + 4 + SENDER_INFO_SIZE;
      if neededsize > sizeleft { return NotEnoughBytesLeft; }
      StoreReport(true, Net32(senderssrc) + EncodeSenderInfo(info), SR(senderssrc, info));
      return Ok;
    }

    method StartReceiverReport(senderssrc: U32) returns (status: Status)
      requires Valid()
      modifies report, this`state
      ensures Valid() && (state, status) == DoStart(old(state), RR(senderssrc))
    {
      if !arebuilding { return NotBuilding; }
      if report.headerlength != 0 { return AlreadyGotReport; }
      var sdessize := sdes.NeededBytes();
      var totalsize := byesize + appsize + sdessize;
      var sizeleft := SizeMinus(maximumpacketsize, totalsize);
      var neededsize := HEADER_SIZE + 4;
      if neededsize > sizeleft { return NotEnoughBytesLeft; }
      StoreReport(false, Net32(senderssrc), RR(senderssrc));
      return Ok;
    }

    method StoreReport(isSR: bool, headerdata: seq<Byte>, ghost sender: Sender)
      requires Valid() && arebuilding && report.headerlength == 0
      requires !sender.NoReport? && isSR == sender.SR? && headerdata == HeaderData(sender)
      modifies report, this`state
      ensures Valid() && state == old(state).(sender := sender)
    {
      report.headerlength := |headerdata|;
      report.isSR := isSR;
      report.headerdata := headerdata;
      report.sender := sender;
      state := state.(sender := sender);
    }

    method AddReportBlock(block: ReportBlock) returns (status: Status)
      requires Valid()
      modifies report, this`state
      ensures Valid() && (state, status) == DoAddBlock(old(state), block)
    {
      if !arebuilding { return NotBuilding; }
      if report.headerlength == 0 { return ReportNotStarted; }
      var sdessize := sdes.NeededBytes();
      var totalothersize := byesize + appsize + sdessize;
      var reportsizewithextrablock := report.NeededBytesWithExtraReportBlock();
      if totalothersize + reportsizewithextrablock > maximumpacketsize { return NotEnoughBytesLeft; }
      var buf := EncodeBlock(block);
      report.reportblocks := report.reportblocks + [buf];
      report.blocks := report.blocks + [block];
      state := state.(blocks := report.blocks);
      return Ok;
    }

    method AddSDESSource(ssrc: U32) returns (status: Status)
      requires Valid()
      modifies sdes, this`state
      ensures Valid() && (state, status) == DoAddSource(old(state), ssrc)
      ensures forall s :: s in sdes.sdessources ==> s in old(sdes.sdessources) || fresh(s)
    {
      if !arebuilding { return NotBuilding; }
      var totalotherbytes := byesize + appsize + report.NeededBytes();
      var sdessizewithextrasource := sdes.NeededBytesWithExtraSource();
      if totalotherbytes + sdessizewithextrasource > maximumpacketsize { return NotEnoughBytesLeft; }
      StoreSource(ssrc);
      return Ok;
    }

    method StoreSource(ssrc: U32)
      requires Valid() && arebuilding
      modifies sdes, this`state
      ensures Valid() && state == old(state).(chunks := old(state).chunks + [Chunk(ssrc, [])])
      ensures forall s :: s in sdes.sdessources ==> s in old(sdes.sdessources) || fresh(s)
    {
      ghost var after := WithSourceState(state, ssrc);
      sdes.AddSSRC(ssrc);
      state := after;
    }

    method AddSDESNormalItem(t: ItemType, itemdata: Text) returns (status: Status)
      requires Valid()
      modifies sdes, sdes.sdessources, this`state
      ensures Valid() && (state, status) == DoAddNormalItem(old(state), t, itemdata)
      ensures sdes.sdessources == old(sdes.sdessources)
    {
      if !arebuilding { return NotBuilding; }
      if |sdes.sdessources| == 0 { return NoCurrentSource; }
      var itemid: Byte;
      match t {
        case CNAME => itemid := 1;
        case NAME => itemid := 2;
        case EMAIL => itemid := 3;
        case PHONE => itemid := 4;
        case LOC => itemid := 5;
        case TOOL => itemid := 6;
        case NOTE => itemid := 7;
        case _ => return InvalidItemType;
      }
      status := AddItem(Item(itemid, itemdata));
    }

    method AddSDESPrivateItem(prefix: Text, value: Text) returns (status: Status)
      requires Valid()
      modifies sdes, sdes.sdessources, this`state
      ensures Valid() && (state, status) == DoAddPrivateItem(old(state), prefix, value)
      ensures sdes.sdessources == old(sdes.sdessources)
    {
      if !arebuilding { return NotBuilding; }
      if |sdes.sdessources| == 0 { return NoCurrentSource; }
      var itemlength := |prefix| + 1 + |value|;
      if itemlength > 255 { return TotalItemLengthTooBig; }
      status := AddItem(Item(ID_PRIVATE, [|prefix|] + prefix + value));
    }

    /** The end the two methods above share: the size check and the encoding. */
    method AddItem(item: Item) returns (status: Status)
      requires Valid() && arebuilding && sdes.sdessources != [] && item.id != 0
      modifies sdes, sdes.sdessources, this`state
      ensures Valid()
      ensures (state, status) == Keep(old(state), old(state).(chunks := WithItem(old(state).chunks, item)))
      ensures sdes.sdessources == old(sdes.sdessources)
    {
      var totalotherbytes := byesize + appsize + report.NeededBytes();
      var sdessizewithextraitem := sdes.NeededBytesWithExtraItem(|item.data|);
      if sdessizewithextraitem + totalotherbytes > maximumpacketsize { return NotEnoughBytesLeft; }
      StoreItem(item);
      return Ok;
    }

    method StoreItem(item: Item)
      requires Valid() && arebuilding && sdes.sdessources != [] && item.id != 0
      modifies sdes, sdes.sdessources, this`state
      ensures Valid() && state == old(state).(chunks := WithItem(old(state).chunks, item))
      ensures sdes.sdessources == old(sdes.sdessources)
    {
      ghost var after := WithItemState(state, item);
      var buf := [item.id, |item.data|] + item.data;
      sdes.AddItem(buf, item);
      state := after;
    }

    method AddBYEPacket(bye: Bye) returns (status: Status)
      requires Valid()
      modifies this`byepackets, this`byesize, this`state
      ensures Valid() && (state, status) == DoAddBye(old(state), bye)
    {
      if !arebuilding { return NotBuilding; }
      if |bye.ssrcs| > 31 { return TooManySSRCs; }
      var packsize, zerobytes := ByePackSize(bye);
      AddByeDecided(state, bye);
      var fits := HasRoomFor(packsize);
      if !fits { return NotEnoughBytesLeft; }
      AppendBye(bye, packsize, zerobytes);
      return Ok;
    }

    /** Encodes a BYE packet and stores it. */
    method AppendBye(bye: Bye, packsize: nat, zerobytes: nat)
      requires Valid() && arebuilding && |bye.ssrcs| <= MAX_COUNT
      requires packsize == ByeSize(bye) && zerobytes == ByeZeros(bye)
      modifies this`byepackets, this`byesize, this`state
      ensures Valid() && state == old(state).(byes := old(state).byes + [bye])
    {
      var buf := WriteBye(bye, packsize, zerobytes);
      StoreBye(buf, bye);
    }

    method StoreBye(buf: seq<Byte>, ghost bye: Bye)
      requires Valid() && arebuilding && |bye.ssrcs| <= MAX_COUNT && buf == EncodeBye(bye)
      modifies this`byepackets, this`byesize, this`state
      ensures Valid() && state == old(state).(byes := old(state).byes + [bye])
    {
      ghost var after := WithBye(state, bye);
      byepackets := byepackets + [buf];
      byesize := byesize + |buf|;
      state := after;
    }

    /** The size of a BYE packet and the number of zeros at its end. */
    static method ByePackSize(bye: Bye) returns (packsize: nat, zerobytes: nat)
      requires |bye.ssrcs| <= MAX_COUNT
      ensures packsize == ByeSize(bye)
      ensures zerobytes == ByeZeros(bye)
    {
      packsize := HEADER_SIZE + 4 * |bye.ssrcs|;
      zerobytes := 0;
      if |bye.reason| > 0 {
        packsize := packsize + 1;
        packsize := packsize + |bye.reason|;
        var r := packsize % 4;
        AlignShift(HEADER_SIZE + 4 * |bye.ssrcs|, 1 + |bye.reason|);
        if r != 0 {
          zerobytes := 4 - r;
          packsize := packsize + zerobytes;
        }
      }
    }

    /** Fills the buffer of a BYE packet. */
    static method WriteBye(bye: Bye, packsize: nat, zerobytes: nat) returns (bytes: seq<Byte>)
      requires |bye.ssrcs| <= MAX_COUNT && packsize == ByeSize(bye)
      requires zerobytes == ByeZeros(bye)
      ensures bytes == EncodeBye(bye)
    {
      var buf := new Byte[packsize];
      ByeSizeAligned(bye);
      var header := Header(|bye.ssrcs|, TYPE_BYE, packsize);
      Put(buf, 0, header, []);
      ghost var content := [] + header;
      var offset: nat := HEADER_SIZE;
      var srcindex: nat := 0;
      while srcindex < |bye.ssrcs|
        invariant srcindex <= |bye.ssrcs| && offset == HEADER_SIZE + 4 * srcindex == |content|
        invariant content == header + SsrcList(bye.ssrcs[..srcindex])
        invariant Written(buf, content)
      {
        SsrcListPush(bye.ssrcs, srcindex);
        Associates(header, SsrcList(bye.ssrcs[..srcindex]), Net32(bye.ssrcs[srcindex]));
        Put(buf, offset, Net32(bye.ssrcs[srcindex]), content);
        content := content + Net32(bye.ssrcs[srcindex]);
        offset := offset + 4;
        srcindex := srcindex + 1;
      }
      assert bye.ssrcs[..srcindex] == bye.ssrcs;
      if |bye.reason| != 0 {
        Put(buf, offset, [|bye.reason|], content);
        Put(buf, offset + 1, bye.reason, content + [|bye.reason|]);
        Put(buf, offset + 1 + |bye.reason|, Zeros(zerobytes), content + [|bye.reason|] + bye.reason);
        ByeParts(bye, content, zerobytes);
      } else {
        assert EncodeBye(bye) == content;
      }
      bytes := buf[..];
      assert buf[..|EncodeBye(bye)|] == buf[..];
    }

    /** Fills the buffer of an APP packet. */
    static method WriteApp(app: App, packsize: nat) returns (bytes: seq<Byte>)
      requires AppProper(app) && packsize == APP_FIXED + |app.data|
      ensures bytes == EncodeApp(app)
    {
      var buf := new Byte[packsize];
      var header := Header(app.subtype, TYPE_APP, packsize);
      Put(buf, 0, header, []);
      Put(buf, HEADER_SIZE, Net32(app.ssrc), [] + header);
      Put(buf, HEADER_SIZE + 4, app.name, [] + header + Net32(app.ssrc));
      if |app.data| > 0 {
        Put(buf, HEADER_SIZE + 8, app.data, [] + header + Net32(app.ssrc) + app.name);
      }
      bytes := buf[..];
      assert EncodeApp(app) == [] + header + Net32(app.ssrc) + app.name + app.data;
      assert buf[..|EncodeApp(app)|] == buf[..];
    }

    method AddAPPPacket(app: App) returns (status: Status)
      requires Valid()
      modifies this`apppackets, this`appsize, this`state
      ensures Valid() && (state, status) == DoAddApp(old(state), app)
    {
      if !arebuilding { return NotBuilding; }
      if app.subtype > 31 { return IllegalSubtype; }
      if |app.data| % 4 != 0 { return IllegalAppDataLength; }
      var appdatawords := |app.data| / 4;
      if appdatawords + 2 > 65535 { return AppDataLenTooBig; }
      var packsize := HEADER_SIZE + 4 * 2 + |app.data|;
      AddAppDecided(state, app);
      var fits := HasRoomFor(packsize);
      if !fits { return NotEnoughBytesLeft; }
      var buf := WriteApp(app, packsize);
      StoreApp(buf, app);
      return Ok;
    }

    method StoreApp(buf: seq<Byte>, ghost app: App)
      requires Valid() && arebuilding && AppProper(app) && |app.data| / 4 + 2 <= 65535 && buf == EncodeApp(app)
      modifies this`apppackets, this`appsize, this`state
      ensures Valid() && state == old(state).(apps := old(state).apps + [app])
    {
      ghost var after := WithApp(state, app);
      apppackets := apppackets + [buf];
      appsize := appsize + |buf|;
      state := after;
    }

    /** Writes the compound packet and turns the builder into the packet it built. The packets
        are the ones the model lists; the object list has one object of the right class for
        each. An external buffer must be able to hold the packet: no check is made. */
    method EndBuild() returns (status: Status)
      requires Valid()
      requires external && buffer != null && DoEnd(state).1 == Ok ==> Total(state) <= buffer.Length
      modifies this, report, sdes, if external then {buffer} else {}
      ensures Valid() && (state, status) == DoEnd(old(state))
      ensures status == Ok ==>
        && compoundpacket != null && compoundpacketlength == Total(old(state)) == |Bytes(old(state))|
        && Written(compoundpacket, Bytes(old(state)))
        && Represents(rtcppacklist, Packets(old(state))) && fresh(SdesObjects(rtcppacklist))
      ensures status == Ok ==> if old(external) then compoundpacket == old(buffer) else fresh(compoundpacket)
      ensures status != Ok ==> unchanged(this, report, sdes)
    {
      if !arebuilding { return NotBuilding; }
      if report.headerlength == 0 { return NoReportPresent; }
      Complete();
      return Ok;
    }

    /** The part of EndBuild after its checks. */
    method Complete()
      requires Valid() && arebuilding && report.headerlength != 0
      requires external ==> Total(state) <= buffer.Length
      modifies this, report, sdes, if external then {buffer} else {}
      ensures Valid() && state == EMPTY.(max := old(state).max, built := true)
      ensures compoundpacket != null && compoundpacketlength == Total(old(state)) == |Bytes(old(state))|
      ensures Written(compoundpacket, Bytes(old(state)))
      ensures Represents(rtcppacklist, Packets(old(state))) && fresh(SdesObjects(rtcppacklist))
      ensures if old(external) then compoundpacket == old(buffer) else fresh(compoundpacket)
    {
      var len := NeededBytes();
      var buf, list := WriteOut(len);
      Finish(buf, len, list);
    }

    /** What the parts collected so far need. */
    method TotalBytes() returns (x: nat)
      requires Valid()
      ensures x == Total(state)
    {
      var sdessize := sdes.NeededBytes();
      x := appsize + byesize + report.NeededBytes() + sdessize;
    }

    /** Whether a packet of this size can be added. */
    method HasRoomFor(packsize: nat) returns (fits: bool)
      requires Valid()
      ensures fits <==> Total(state) + packsize <= state.max
    {
      var totalotherbytes := TotalBytes();
      fits := totalotherbytes + packsize <= maximumpacketsize;
    }

    method NeededBytes() returns (len: nat)
      requires Valid()
      ensures len == Total(state) == |Bytes(state)|
    {
      len := TotalBytes();
      TotalExact(state);
    }

    /** Writes the packet to a new buffer of exactly its size, or to the external one. */
    method WriteOut(len: nat) returns (buf: array<Byte>, list: seq<PacketRef>)
      requires Valid() && arebuilding && report.headerlength != 0 && len == |Bytes(state)|
      requires external ==> len <= buffer.Length
      modifies if external then {buffer} else {}
      ensures Written(buf, Bytes(state)) && Represents(list, Packets(state)) && fresh(SdesObjects(list))
      ensures if external then buf == buffer else fresh(buf)
    {
      if !external {
        buf := new Byte[len];
      } else {
        buf := buffer;
      }
      ghost var reports := ReportPackets(state.sender, state.blocks);
      ghost var first := reports + SdesPackets(state.chunks);
      PacketsRoom(state, reports, first, apppackets, byepackets);
      list := WriteAll(buf, report, sdes.sdessources, apppackets, byepackets, state.chunks, reports, first);
    }

    method Finish(buf: array<Byte>, len: nat, list: seq<PacketRef>)
      requires maximumpacketsize == state.max
      modifies this, report, sdes
      ensures Valid() && state == EMPTY.(max := old(state).max, built := true)
      ensures compoundpacket == buf && compoundpacketlength == len && rtcppacklist == list
    {
      compoundpacket := buf;
      compoundpacketlength := len;
      rtcppacklist := list;
      arebuilding := false;
      ClearBuildBuffers();
      state := EMPTY.(max := state.max, built := true);
    }
  }

  /** Every prefix of the packets fits where the whole fits, and encoded packets have their headers. */
  lemma PacketsRoom(s: Build, reports: seq<seq<Byte>>, first: seq<seq<Byte>>, apps: seq<seq<Byte>>,
                    byes: seq<seq<Byte>>)
    requires s.Proper() && reports == ReportPackets(s.sender, s.blocks) && first == reports + SdesPackets(s.chunks)
    requires apps == AppPackets(s.apps) && byes == ByePackets(s.byes)
    ensures |Flatten(reports)| <= |Flatten(first)| <= |Flatten(first + apps)| <= |Flatten(first + apps + byes)|
    ensures Packets(s) == first + apps + byes && Bytes(s) == Flatten(first + apps + byes)
    ensures AllOfType(apps, TYPE_APP) && AllOfType(byes, TYPE_BYE)
  {
    FlattenAppend(reports, SdesPackets(s.chunks));
    FlattenAppend(first, apps);
    FlattenAppend(first + apps, byes);
    AppsTyped(s.apps);
    ByesTyped(s.byes);
  }

  lemma AppsTyped(apps: seq<App>)
    requires AllAppsProper(apps)
    ensures AllOfType(AppPackets(apps), TYPE_APP)
  {
    forall i | 0 <= i < |apps|
      ensures HEADER_SIZE <= |AppPackets(apps)[i]| && PType(AppPackets(apps)[i]) == TYPE_APP
    {
      AppPacketsIndex(apps, i);
      AppHeader(apps[i]);
    }
  }

  lemma ByesTyped(byes: seq<Bye>)
    requires AllByesProper(byes)
    ensures AllOfType(ByePackets(byes), TYPE_BYE)
  {
    forall i | 0 <= i < |byes|
      ensures HEADER_SIZE <= |ByePackets(byes)[i]| && PType(ByePackets(byes)[i]) == TYPE_BYE
    {
      ByePacketsIndex(byes, i);
      ByeHeader(byes[i]);
    }
  }

  lemma SsrcListPush(ssrcs: seq<U32>, k: nat)
    requires k < |ssrcs|
    ensures SsrcList(ssrcs[..k + 1]) == SsrcList(ssrcs[..k]) + Net32(ssrcs[k])
    decreases k
  {
    if k > 0 {
      SsrcListPush(ssrcs[1..], k - 1);
      assert ssrcs[1..][..k] == ssrcs[..k + 1][1..] && ssrcs[1..][..k - 1] == ssrcs[..k][1..];
      Associates(Net32(ssrcs[0]), SsrcList(ssrcs[..k][1..]), Net32(ssrcs[k]));
    } else {
      assert ssrcs[..1][1..] == [];
    }
  }

  lemma ByeParts(bye: Bye, content: seq<Byte>, zerobytes: nat)
    requires |bye.ssrcs| <= MAX_COUNT && bye.reason != []
    requires ByeSize(bye) % 4 == 0
    requires content == Header(|bye.ssrcs|, TYPE_BYE, ByeSize(bye)) + SsrcList(bye.ssrcs)
    requires zerobytes == ByeZeros(bye)
    ensures EncodeBye(bye) == content + [|bye.reason|] + bye.reason + Zeros(zerobytes)
  {
  }

  lemma ByePacketsPush(byes: seq<Bye>, b: Bye)
    requires AllByesProper(byes) && |b.ssrcs| <= MAX_COUNT
    ensures AllByesProper(byes + [b])
    ensures ByePackets(byes + [b]) == ByePackets(byes) + [EncodeBye(b)]
    ensures ByesSize(byes + [b]) == ByesSize(byes) + ByeSize(b)
  {
  }

  /** The state with one more BYE packet. */
  ghost function Begun(s: Build, n: Size): (t: Build)
    requires s.Proper() && !s.building && !s.built && MIN_PACKET_SIZE <= n
    ensures t.Proper() && t == s.(max := n, building := true)
  {
    s.(max := n, building := true)
  }

  ghost function WithBye(s: Build, bye: Bye): (t: Build)
    requires s.Proper() && s.building && |bye.ssrcs| <= MAX_COUNT
    ensures t.Proper() && t == s.(byes := t.byes) && t.byes == s.byes + [bye]
    ensures ByePackets(t.byes) == ByePackets(s.byes) + [EncodeBye(bye)]
      && ByesSize(t.byes) == ByesSize(s.byes) + |EncodeBye(bye)|
  {
    ByePacketsPush(s.byes, bye);
    s.(byes := s.byes + [bye])
  }

  ghost function WithApp(s: Build, app: App): (t: Build)
    requires s.Proper() && s.building && AppProper(app) && |app.data| / 4 + 2 <= 65535
    ensures t.Proper() && t == s.(apps := t.apps) && t.apps == s.apps + [app]
    ensures AppPackets(t.apps) == AppPackets(s.apps) + [EncodeApp(app)]
      && AppsSize(t.apps) == AppsSize(s.apps) + |EncodeApp(app)|
  {
    AppPacketsPush(s.apps, app);
    s.(apps := s.apps + [app])
  }

  ghost function WithItemState(s: Build, item: Item): (t: Build)
    requires s.Proper() && s.building && s.chunks != [] && item.id != 0
    ensures t.Proper() && t == s.(chunks := WithItem(s.chunks, item))
  {
    WithItemProper(s.chunks, item);
    s.(chunks := WithItem(s.chunks, item))
  }

  ghost function WithSourceState(s: Build, ssrc: U32): (t: Build)
    requires s.Proper() && s.building
    ensures t.Proper() && t == s.(chunks := s.chunks + [Chunk(ssrc, [])])
  {
    s.(chunks := s.chunks + [Chunk(ssrc, [])])
  }

  lemma AddByeDecided(s: Build, bye: Bye)
    requires s.building && |bye.ssrcs| <= MAX_COUNT && AllByesProper(s.byes)
    ensures DoAddBye(s, bye)
      == if Total(s) + ByeSize(bye) <= s.max then (s.(byes := s.byes + [bye]), Ok) else (s, NotEnoughBytesLeft)
  {
    ByePacketsPush(s.byes, bye);
  }

  lemma AddAppDecided(s: Build, app: App)
    requires s.building && AllAppsProper(s.apps) && AppProper(app) && |app.data| / 4 + 2 <= 65535
    ensures DoAddApp(s, app)
      == if Total(s) + APP_FIXED + |app.data| <= s.max then (s.(apps := s.apps + [app]), Ok)
         else (s, NotEnoughBytesLeft)
  {
    AppPacketsPush(s.apps, app);
  }

  lemma AppPacketsPush(apps: seq<App>, a: App)
    requires AllAppsProper(apps) && AppProper(a) && |a.data| / 4 + 2 <= 65535
    ensures AllAppsProper(apps + [a])
    ensures AppPackets(apps + [a]) == AppPackets(apps) + [EncodeApp(a)]
    ensures AppsSize(apps + [a]) == AppsSize(apps) + APP_FIXED + |a.data|
  {
  }
}
