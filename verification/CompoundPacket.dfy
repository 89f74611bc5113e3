/** RTCPCompoundPacket: splitting a received buffer into RTCP packets (appendix A.2 of RFC 3550). */
module CompoundPacket {
  import opened Wire
  import opened SdesParser
  import opened ReportFormat
  import opened ByeAppFormat

  // ----- the specification: which buffers are compound packets -----

  predicate IsPacket(p: seq<Byte>) {
    HEADER_SIZE <= |p| && Version(p) == RTP_VERSION && AnnouncedSize(p) == |p|
  }

  predicate IsReport(p: seq<Byte>)
    requires HEADER_SIZE <= |p|
  {
    PType(p) == TYPE_SR || PType(p) == TYPE_RR
  }

  /** The packets `ps`, end to end, are the buffer: each announces its own size and version 2,
      and only the last may have padding. When `first` holds they start with a report. */
  ghost predicate Tiles(d: seq<Byte>, ps: seq<seq<Byte>>, first: bool) {
    && ps != [] && Flatten(ps) == d
    && (forall i :: 0 <= i < |ps| ==> IsPacket(ps[i]))
    && (forall i :: 0 <= i < |ps| - 1 ==> !PaddingBit(ps[i]))
    && (first ==> IsReport(ps[0]))
  }

  ghost predicate IsCompound(d: seq<Byte>) {
    exists ps :: Tiles(d, ps, true)
  }

  /** What a compound packet is, byte by byte: every first byte is that of an unpadded packet of version
      2, or of a padded one if it is the last, the type of the first packet is 200 or 201, and the next
      two bytes of each count the words after the first. */
  lemma TilesBytes(d: seq<Byte>, ps: seq<seq<Byte>>)
    ensures Tiles(d, ps, true) <==>
      && ps != [] && Flatten(ps) == d
      && (forall i :: 0 <= i < |ps| ==> PacketBytes(ps[i], i == |ps| - 1))
      && ps[0][1] in {200, 201}
  {
    forall i | 0 <= i < |ps|
      ensures PacketBytes(ps[i], i == |ps| - 1) <==> IsPacket(ps[i]) && (i < |ps| - 1 ==> !PaddingBit(ps[i]))
    {
      PacketBytesIff(ps[i], i == |ps| - 1);
    }
    if ps != [] && 4 <= |ps[0]| {
      HeaderBits(ps[0], ps[0][0] / 64, ps[0][0] % 64 / 32, ps[0][0] % 32);
    }
  }

  predicate PacketBytes(p: seq<Byte>, last: bool) {
    && 4 <= |p| == 4 * (256 * (p[2] as int) + p[3] as int + 1)
    && 128 <= p[0] < if last then 192 else 160
  }

  lemma PacketBytesIff(p: seq<Byte>, last: bool)
    ensures PacketBytes(p, last) <==> IsPacket(p) && (!last ==> !PaddingBit(p))
  {
    if 4 <= |p| {
      FirstByte(p);
      HeaderBits(p, p[0] / 64, p[0] % 64 / 32, p[0] % 32);
    }
  }

  // ----- the same, read off the headers from the front -----

  predicate Parses(d: seq<Byte>, first: bool)
    decreases |d|
  {
    && HEADER_SIZE <= |d|
    && Version(d) == RTP_VERSION
    && (first ==> IsReport(d))
    && AnnouncedSize(d) <= |d|
    && (PaddingBit(d) ==> AnnouncedSize(d) == |d|)
    && (AnnouncedSize(d) < |d| ==> Parses(d[AnnouncedSize(d)..], false))
  }

  function Split(d: seq<Byte>, first: bool): (ps: seq<seq<Byte>>)
    requires Parses(d, first)
    ensures ps != []
    decreases |d|
  {
    var n := AnnouncedSize(d);
    if n == |d| then [d] else [d[..n]] + Split(d[n..], false)
  }

  lemma PrefixHeader(d: seq<Byte>, p: seq<Byte>)
    requires HEADER_SIZE <= |p| && p <= d
    ensures Version(p) == Version(d) && PType(p) == PType(d)
    ensures PaddingBit(p) == PaddingBit(d) && AnnouncedSize(p) == AnnouncedSize(d)
  {
  }

  lemma {:induction false} SplitTiles(d: seq<Byte>, first: bool)
    requires Parses(d, first)
    ensures Tiles(d, Split(d, first), first)
    decreases |d|
  {
    var n := AnnouncedSize(d);
    var ps := Split(d, first);
    if n == |d| {
      assert Flatten([d]) == d + Flatten([d][1..]);
    } else {
      var rest := Split(d[n..], false);
      SplitTiles(d[n..], false);
      assert ps[0] == d[..n] && ps[1..] == rest;
      PrefixHeader(d, d[..n]);
      forall i | 0 <= i < |ps|
        ensures IsPacket(ps[i]) && (i < |ps| - 1 ==> !PaddingBit(ps[i]))
      {
        if i > 0 {
          assert ps[i] == rest[i - 1];
        }
      }
    }
  }

  /** A buffer can be tiled in one way only, the one found from the front. */
  lemma {:induction false} TilesSplit(d: seq<Byte>, ps: seq<seq<Byte>>, first: bool)
    requires Tiles(d, ps, first)
    ensures Parses(d, first) && Split(d, first) == ps
    decreases |ps|
  {
    var p := ps[0];
    assert d == p + Flatten(ps[1..]);
    PrefixHeader(d, p);
    if |ps| == 1 {
      assert d == p;
    } else {
      assert ps[1] == ps[1..][0];
      assert forall i :: 0 <= i < |ps[1..]| ==> ps[1..][i] == ps[i + 1];
      assert Flatten(ps[1..]) == ps[1] + Flatten(ps[1..][1..]);
      assert d[|p|..] == Flatten(ps[1..]);
      assert !PaddingBit(p);
      TilesSplit(d[|p|..], ps[1..], false);
      assert d[..|p|] == p;
    }
  }

  lemma CompoundParses(d: seq<Byte>)
    ensures IsCompound(d) <==> Parses(d, true)
    ensures forall ps :: Tiles(d, ps, true) ==> Parses(d, true) && ps == Split(d, true)
  {
    if Parses(d, true) {
      SplitTiles(d, true);
    }
    forall ps | Tiles(d, ps, true)
      ensures Parses(d, true) && ps == Split(d, true)
    {
      TilesSplit(d, ps, true);
    }
  }

  /** A padded packet with anything after it is not the start of a compound packet. */
  lemma PaddedMustBeLast(d: seq<Byte>)
    requires HEADER_SIZE <= |d| && 160 <= d[0] < 192 && 4 * (256 * (d[2] as int) + d[3] as int + 1) < |d|
    ensures !IsCompound(d)
  {
    FirstByte(d);
    HeaderBits(d, d[0] / 64, d[0] % 64 / 32, d[0] % 32);
    CompoundParses(d);
  }

  // ----- the packet objects -----

  datatype PacketRef =
    | SRRef(sr: SRPacket)
    | RRRef(rr: RRPacket)
    | SDESRef(sdes: SDESPacket)
    | BYERef(bye: BYEPacket)
    | APPRef(app: APPPacket)
    | UnknownRef(bytes: seq<Byte>)
  {
    function Data(): seq<Byte> {
      match this
      case SRRef(p) => p.data
      case RRRef(p) => p.data
      case SDESRef(p) => p.data
      case BYERef(p) => p.data
      case APPRef(p) => p.data
      case UnknownRef(b) => b
    }

    /** IsKnownFormat; a packet of an unknown type trivially is. */
    predicate Known() {
      match this
      case SRRef(p) => p.knownformat
      case RRRef(p) => p.knownformat
      case SDESRef(p) => p.knownformat
      case BYERef(p) => p.knownformat
      case APPRef(p) => p.knownformat
      case UnknownRef(_) => true
    }

    /** The object is of the class its packet type calls for and its constructor has run. */
    ghost predicate Proper() {
      && HEADER_SIZE <= |Data()|
      && match this
         case SRRef(p) => p.Valid() && PType(p.data) == TYPE_SR
         case RRRef(p) => p.Valid() && PType(p.data) == TYPE_RR
         case SDESRef(p) => p.Parsed() && PType(p.data) == TYPE_SDES
         case BYERef(p) => p.Valid() && PType(p.data) == TYPE_BYE
         case APPRef(p) => p.Valid() && PType(p.data) == TYPE_APP
         case UnknownRef(b) => PType(b) !in {TYPE_SR, TYPE_RR, TYPE_SDES, TYPE_BYE, TYPE_APP}
    }
  }

  /** When the format of a packet is known, by its type: a report if it has the size its count calls for, SDES and
      BYE if they are well formed, APP from 12 bytes on, and any other type always. */
  lemma KnownIff(r: PacketRef)
    requires r.Proper()
    ensures
      var p, len := r.Data(), UnpaddedLength(r.Data());
      r.Known() <==>
        if PType(p) == 200 then len == Some(28 + 24 * Count(p))
        else if PType(p) == 201 then len == Some(8 + 24 * Count(p))
        else if PType(p) == 202 then WellFormed(p)
        else if PType(p) == 203 then ByeWellFormed(p)
        else if PType(p) == 204 then len.Some? && 12 <= len.value
        else true
  {
  }

  function Datas(list: seq<PacketRef>): (ps: seq<seq<Byte>>)
    ensures |ps| == |list|
  {
    seq(|list|, i requires 0 <= i < |list| => list[i].Data())
  }

  ghost predicate AllProper(list: seq<PacketRef>) {
    forall i :: 0 <= i < |list| ==> list[i].Proper()
  }

  /** The list holds one proper object for each of the packets `ps`, in order. */
  ghost predicate Represents(list: seq<PacketRef>, ps: seq<seq<Byte>>) {
    AllProper(list) && Datas(list) == ps
  }

  lemma RepresentsPush(list: seq<PacketRef>, ps: seq<seq<Byte>>, r: PacketRef)
    requires Represents(list, ps) && r.Proper()
    ensures Represents(list + [r], ps + [r.Data()])
  {
  }

  /** The SDES objects in a list, which are the only ones with cursors. */
  ghost function SdesObjects(list: seq<PacketRef>): set<object> {
    set i | 0 <= i < |list| && list[i].SDESRef? :: list[i].sdes
  }

  method NewPacket(data: seq<Byte>) returns (r: PacketRef)
    requires HEADER_SIZE <= |data|
    ensures r.Proper() && r.Data() == data
    ensures r.SDESRef? ==> fresh(r.sdes)
  {
    var t := PType(data);
    if t == TYPE_SR {
      var p := new SRPacket(data);
      r := SRRef(p);
    } else if t == TYPE_RR {
      var p := new RRPacket(data);
      r := RRRef(p);
    } else if t == TYPE_SDES {
      var p := new SDESPacket(data);
      r := SDESRef(p);
    } else if t == TYPE_BYE {
      var p := new BYEPacket(data);
      r := BYERef(p);
    } else if t == TYPE_APP {
      var p := new APPPacket(data);
      r := APPRef(p);
    } else {
      r := UnknownRef(data);
    }
  }

  datatype Error = NoError | InvalidPacket

  /** What the parser's loop keeps: the packets passed so far, and whether the rest parses,
      decide whether the whole buffer does. */
  ghost predicate Pending(packet: seq<Byte>, done: seq<seq<Byte>>, d: seq<Byte>, first: bool) {
    if HEADER_SIZE <= |d| then
      && (Parses(packet, true) <==> Parses(d, first))
      && (Parses(packet, true) ==> Split(packet, true) == done + Split(d, first))
    else
      && (Parses(packet, true) <==> |d| == 0)
      && (Parses(packet, true) ==> Split(packet, true) == done)
  }

  /** One turn of the loop, past a header that has met its checks. */
  lemma PendingStep(packet: seq<Byte>, done: seq<seq<Byte>>, d: seq<Byte>, first: bool)
    requires HEADER_SIZE <= |d| && Pending(packet, done, d, first)
    requires Version(d) == RTP_VERSION && (first ==> IsReport(d))
    requires AnnouncedSize(d) <= |d| && (PaddingBit(d) ==> AnnouncedSize(d) == |d|)
    ensures Pending(packet, done + [d[..AnnouncedSize(d)]], d[AnnouncedSize(d)..], false)
  {
    var rest := d[AnnouncedSize(d)..];
    assert |rest| < HEADER_SIZE ==> !Parses(rest, false);
    assert d[..|d|] == d;
  }

  class CompoundPacket {
    var error: Error
    var compoundpacket: Option<seq<Byte>>
    var rtcppacklist: seq<PacketRef>

    /** Made from received data; `isrtp` is the flag of the raw packet. */
    constructor (data: seq<Byte>, isrtp: bool)
      ensures error == NoError <==> !isrtp && IsCompound(data)
      ensures error == NoError ==> compoundpacket == Some(data)
      ensures error == NoError ==> AllProper(rtcppacklist) && Tiles(data, Datas(rtcppacklist), true)
      ensures error != NoError ==> rtcppacklist == [] && compoundpacket == None
      ensures fresh(SdesObjects(rtcppacklist))
    {
      compoundpacket := None;
      rtcppacklist := [];
      error := NoError;
      new;
      if isrtp {
        error := InvalidPacket;
        return;
      }
      error := ParseData(data);
      if error != NoError { return; }
      compoundpacket := Some(data);
    }

    method ClearPacketList()
      modifies this`rtcppacklist
      ensures rtcppacklist == []
    {
      rtcppacklist := [];
    }

    /** Accepts exactly the compound packets, and then lists their packets. */
    method ParseData(packet: seq<Byte>) returns (error: Error)
      requires rtcppacklist == []
      modifies this`rtcppacklist
      ensures error == NoError <==> IsCompound(packet)
      ensures error == NoError ==> AllProper(rtcppacklist) && Tiles(packet, Datas(rtcppacklist), true)
      ensures error != NoError ==> rtcppacklist == []
      ensures fresh(SdesObjects(rtcppacklist))
    {
      CompoundParses(packet);
      var data := packet;
      if |data| < HEADER_SIZE {
        return InvalidPacket;
      }
      var first := true;
      ghost var done: seq<seq<Byte>> := [];
      var again := true;
      while again
        invariant again <==> HEADER_SIZE <= |data|
        invariant Pending(packet, done, data, first)
        invariant Represents(rtcppacklist, done)
        invariant forall i :: 0 <= i < |rtcppacklist| && rtcppacklist[i].SDESRef? ==> fresh(rtcppacklist[i].sdes)
        decreases |data|, again
      {
        if Version(data) != RTP_VERSION {
          ClearPacketList();
          return InvalidPacket;
        }
        if first {
          if !(PType(data) == TYPE_SR || PType(data) == TYPE_RR) {
            ClearPacketList();
            return InvalidPacket;
          }
        }
        var length := AnnouncedSize(data);
        if length > |data| {
          ClearPacketList();
          return InvalidPacket;
        }
        if PaddingBit(data) {
          if length != |data| {
            ClearPacketList();
            return InvalidPacket;
          }
        }
        PendingStep(packet, done, data, first);
        var p := NewPacket(data[..length]);
        RepresentsPush(rtcppacklist, done, p);
        rtcppacklist := rtcppacklist + [p];
        done := done + [data[..length]];
        data := data[length..];
        first := false;
        again := |data| >= HEADER_SIZE;
      }
      if |data| != 0 {
        ClearPacketList();
        return InvalidPacket;
      }
      SplitTiles(packet, true);
      return NoError;
    }
  }
}
