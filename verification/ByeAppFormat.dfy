/** BYE and APP packets (sections 6.6 and 6.7 of RFC 3550): RTCPBYEPacket, RTCPAPPPacket and
    the encodings that the compound packet builder writes. */
module ByeAppFormat {
  import opened Wire

  // ----- BYE -----

  datatype Bye = Bye(ssrcs: seq<U32>, reason: Text)

  function SsrcList(ssrcs: seq<U32>): (b: seq<Byte>)
    ensures |b| == 4 * |ssrcs|
  {
    if ssrcs == [] then [] else Net32(ssrcs[0]) + SsrcList(ssrcs[1..])
  }

  /** The reason with its length byte, padded to a 32-bit boundary; nothing for an empty reason. */
  function ReasonField(reason: Text): (b: seq<Byte>)
    ensures |b| == if reason == [] then 0 else Align4(1 + |reason|)
  {
    if reason == [] then []
    else [|reason|] + reason + Zeros(Align4(1 + |reason|) - 1 - |reason|)
  }

  /** The zeros that pad the reason. */
  function ByeZeros(b: Bye): nat {
    if b.reason == [] then 0 else Align4(1 + |b.reason|) - 1 - |b.reason|
  }

  function ByeSize(b: Bye): nat {
    HEADER_SIZE + 4 * |b.ssrcs| + |ReasonField(b.reason)|
  }

  lemma ByeSizeAligned(b: Bye)
    ensures ByeSize(b) % 4 == 0
  {
    Mod4Sum(HEADER_SIZE + 4 * |b.ssrcs|, |ReasonField(b.reason)|);
  }

  function EncodeBye(b: Bye): (p: seq<Byte>)
    requires |b.ssrcs| <= MAX_COUNT
    ensures |p| == ByeSize(b)
  {
    ByeSizeAligned(b);
    Header(|b.ssrcs|, TYPE_BYE, ByeSize(b)) + SsrcList(b.ssrcs) + ReasonField(b.reason)
  }

  lemma {:induction false} SsrcListAt(pre: seq<Byte>, ssrcs: seq<U32>, post: seq<Byte>, k: nat)
    requires k < |ssrcs|
    ensures U32At(pre + SsrcList(ssrcs) + post, |pre| + 4 * k) == ssrcs[k]
    decreases k
  {
    var d := pre + SsrcList(ssrcs) + post;
    if k == 0 {
      assert d[|pre|..|pre| + 4] == Net32(ssrcs[0]);
      Net32RoundTrip(d, |pre|, ssrcs[0]);
    } else {
      assert d == (pre + Net32(ssrcs[0])) + SsrcList(ssrcs[1..]) + post;
      SsrcListAt(pre + Net32(ssrcs[0]), ssrcs[1..], post, k - 1);
    }
  }

  /** What a BYE packet holds: its sources and whatever follows them. If anything does, its first
      byte is the length of a reason that must fit. */
  predicate ByeBody(body: seq<Byte>, ssrcs: seq<U32>, rest: seq<Byte>) {
    && body == SsrcList(ssrcs) + rest
    && (rest == [] || rest[0] <= |rest| - 1)
  }

  ghost predicate ByeWellFormed(p: seq<Byte>) {
    && HEADER_SIZE <= |p|
    && UnpaddedLength(p).Some? && HEADER_SIZE <= UnpaddedLength(p).value
    && exists ssrcs, rest ::
         |ssrcs| == Count(p) && ByeBody(p[HEADER_SIZE..UnpaddedLength(p).value], ssrcs, rest)
  }

  function ReadSsrcs(d: seq<Byte>, o: nat, n: nat): (ssrcs: seq<U32>)
    requires o + 4 * n <= |d|
    ensures |ssrcs| == n
    decreases n
  {
    if n == 0 then [] else [U32At(d, o)] + ReadSsrcs(d, o + 4, n - 1)
  }

  lemma {:induction false} SsrcListRead(d: seq<Byte>, o: nat, n: nat)
    requires o + 4 * n <= |d|
    ensures SsrcList(ReadSsrcs(d, o, n)) == d[o..o + 4 * n]
    decreases n
  {
    if n > 0 {
      var x := U32At(d, o);
      var rest := ReadSsrcs(d, o + 4, n - 1);
      assert ([x] + rest)[1..] == rest;
      U32AtBytes(d, o);
      SsrcListRead(d, o + 4, n - 1);
      assert SsrcList([x] + rest) == Net32(x) + SsrcList(rest);
      SliceJoin(d, o, o + 4, o + 4 * n);
    }
  }

  /** The condition in terms of offsets, as the constructor checks it. */
  predicate ByeFits(p: seq<Byte>, len: nat)
    requires HEADER_SIZE <= |p| && len <= |p|
  {
    var end := HEADER_SIZE + 4 * Count(p);
    end <= len && (end < len ==> end + 1 + p[end] <= len)
  }

  lemma ByeFitsWellFormed(p: seq<Byte>)
    requires HEADER_SIZE <= |p| && UnpaddedLength(p).Some?
    ensures ByeFits(p, UnpaddedLength(p).value) <==> ByeWellFormed(p)
  {
    var len := UnpaddedLength(p).value;
    var end := HEADER_SIZE + 4 * Count(p);
    if ByeFits(p, len) {
      ByeBodyRead(p, len);
    }
    if ByeWellFormed(p) {
      var ssrcs, rest :| |ssrcs| == Count(p) && ByeBody(p[HEADER_SIZE..len], ssrcs, rest);
      assert |p[HEADER_SIZE..len]| == 4 * |ssrcs| + |rest|;
      if end < len {
        assert rest[0] == p[HEADER_SIZE..len][4 * |ssrcs|] == p[end];
      }
    }
  }

  lemma ByeBodyRead(p: seq<Byte>, len: nat)
    requires HEADER_SIZE <= |p| && len <= |p| && ByeFits(p, len)
    ensures ByeBody(p[HEADER_SIZE..len], ReadSsrcs(p, HEADER_SIZE, Count(p)), p[HEADER_SIZE + 4 * Count(p)..len])
  {
    SsrcListRead(p, HEADER_SIZE, Count(p));
    var end := HEADER_SIZE + 4 * Count(p);
    SliceJoin(p, HEADER_SIZE, end, len);
    if end < len {
      assert p[end..len][0] == p[end];
    }
  }

  class BYEPacket {
    const data: seq<Byte>
    const knownformat: bool
    const reasonoffset: nat

    /** The end of the sources, where a reason would start. */
    function SsrcEnd(): nat
      requires HEADER_SIZE <= |data|
    {
      HEADER_SIZE + 4 * Count(data)
    }

    ghost predicate Valid() {
      && HEADER_SIZE <= |data|
      && (knownformat <==> ByeWellFormed(data))
      && (knownformat ==>
            var len := UnpaddedLength(data).value;
            && SsrcEnd() <= len
            && reasonoffset == (if SsrcEnd() == len then 0 else SsrcEnd())
            && (reasonoffset != 0 ==> reasonoffset + 1 + data[reasonoffset] <= len))
    }

    constructor (packet: seq<Byte>)
      requires HEADER_SIZE <= |packet|
      ensures data == packet && Valid()
    {
      var known, offset := Validate(packet);
      data := packet;
      knownformat := known;
      reasonoffset := offset;
    }

    static method Validate(data: seq<Byte>) returns (knownformat: bool, reasonoffset: nat)
      requires HEADER_SIZE <= |data|
      ensures knownformat <==> ByeWellFormed(data)
      ensures knownformat ==>
        var len := UnpaddedLength(data).value;
        var end := HEADER_SIZE + 4 * Count(data);
        && end <= len
        && reasonoffset == (if end == len then 0 else end)
        && (reasonoffset != 0 ==> reasonoffset + 1 + data[reasonoffset] <= len)
    {
      var unpadded := UnpaddedLength(data);
      if unpadded.None? { return false, 0; }
      ByeFitsWellFormed(data);
      var len := unpadded.value;
      var ssrclen := Count(data) * 4 + HEADER_SIZE;
      reasonoffset := 0;
      if ssrclen > len { return false, 0; }
      if ssrclen < len {
        var reaslen := data[ssrclen];
        if reaslen > len - ssrclen - 1 { return false, 0; }
        reasonoffset := ssrclen;
      }
      return true, reasonoffset;
    }

    function GetSSRCCount(): nat
      requires Valid()
    {
      if !knownformat then 0 else Count(data)
    }

    function GetSSRC(index: nat): U32
      requires Valid() && index < GetSSRCCount()
    {
      U32At(data, HEADER_SIZE + 4 * index)
    }

    predicate HasReasonForLeaving()
      requires Valid()
    {
      knownformat && reasonoffset != 0
    }

    function GetReasonLength(): nat
      requires Valid()
    {
      if !knownformat || reasonoffset == 0 then 0 else data[reasonoffset]
    }

    /** The bytes GetReasonData points at, for as long as GetReasonLength says. */
    function GetReasonData(): seq<Byte>
      requires Valid()
    {
      if !knownformat || reasonoffset == 0 || data[reasonoffset] == 0 then []
      else data[reasonoffset + 1..reasonoffset + 1 + data[reasonoffset]]
    }

    function SSRCs(): (ssrcs: seq<U32>)
      requires Valid()
      ensures |ssrcs| == GetSSRCCount()
    {
      seq(GetSSRCCount(), i requires 0 <= i < GetSSRCCount() => GetSSRC(i))
    }
  }

  lemma ByeHeader(b: Bye)
    requires |b.ssrcs| <= MAX_COUNT
    ensures
      var p := EncodeBye(b);
      && Version(p) == RTP_VERSION && !PaddingBit(p) && Count(p) == |b.ssrcs|
      && PType(p) == TYPE_BYE && AnnouncedSize(p) == |p|
  {
    var p := EncodeBye(b);
    ByeSizeAligned(b);
    assert p[..HEADER_SIZE] == Header(|b.ssrcs|, TYPE_BYE, ByeSize(b));
    HeaderFields(p, |b.ssrcs|, TYPE_BYE, |p|);
  }

  lemma ByeSources(b: Bye, k: nat)
    requires |b.ssrcs| <= MAX_COUNT && k < |b.ssrcs|
    ensures U32At(EncodeBye(b), HEADER_SIZE + 4 * k) == b.ssrcs[k]
  {
    ByeSizeAligned(b);
    SsrcListAt(Header(|b.ssrcs|, TYPE_BYE, ByeSize(b)), b.ssrcs, ReasonField(b.reason), k);
  }

  lemma ByeReason(b: Bye)
    requires |b.ssrcs| <= MAX_COUNT && b.reason != []
    ensures
      var p := EncodeBye(b);
      var o := HEADER_SIZE + 4 * |b.ssrcs|;
      && o + 1 + |b.reason| <= |p|
      && p[o] == |b.reason| && p[o + 1..o + 1 + |b.reason|] == b.reason
  {
    var p := EncodeBye(b);
    var o := HEADER_SIZE + 4 * |b.ssrcs|;
    var field := ReasonField(b.reason);
    assert p[o..] == field;
    assert field[1..1 + |b.reason|] == b.reason;
    SliceOfSlice(p, o, |p|, 1, 1 + |b.reason|);
    assert p[o..|p|] == p[o..];
    assert p[o] == field[0];
  }

  /** An object made of an encoded BYE packet returns the sources and the reason put in. */
  lemma ByeRoundTrip(b: Bye, p: BYEPacket)
    requires |b.ssrcs| <= MAX_COUNT && p.Valid() && p.data == EncodeBye(b)
    ensures p.knownformat && p.SSRCs() == b.ssrcs
    ensures p.HasReasonForLeaving() <==> b.reason != []
    ensures p.GetReasonLength() == |b.reason| && p.GetReasonData() == b.reason
  {
    ByeHeader(b);
    if b.reason != [] {
      ByeReason(b);
    }
    assert ByeFits(p.data, |p.data|);
    ByeFitsWellFormed(p.data);
    forall k | 0 <= k < |b.ssrcs|
      ensures p.GetSSRC(k) == b.ssrcs[k]
    {
      ByeSources(b, k);
    }
  }

  // ----- APP -----

  datatype App = App(subtype: Byte, ssrc: U32, name: Name, data: seq<Byte>)

  const APP_FIXED := HEADER_SIZE + 8

  /** What the builder accepts: a 5-bit subtype and whole words of data. */
  predicate AppProper(a: App) {
    a.subtype <= MAX_COUNT && |a.data| % 4 == 0
  }

  function EncodeApp(a: App): (p: seq<Byte>)
    requires AppProper(a)
    ensures |p| == APP_FIXED + |a.data|
  {
    Header(a.subtype, TYPE_APP, APP_FIXED + |a.data|) + Net32(a.ssrc) + a.name + a.data
  }

  class APPPacket {
    const data: seq<Byte>
    const knownformat: bool
    const appdatalen: nat

    ghost predicate Valid() {
      && HEADER_SIZE <= |data|
      && (knownformat <==> UnpaddedLength(data).Some? && APP_FIXED <= UnpaddedLength(data).value)
      && (knownformat ==> appdatalen == UnpaddedLength(data).value - APP_FIXED)
    }

    constructor (packet: seq<Byte>)
      requires HEADER_SIZE <= |packet|
      ensures data == packet && Valid()
    {
      data := packet;
      var len := UnpaddedLength(packet);
      if len.None? || len.value < HEADER_SIZE + 4 * 2 {
        knownformat := false;
        appdatalen := 0;
      } else {
        appdatalen := len.value - (HEADER_SIZE + 4 * 2);
        knownformat := true;
      }
    }

    function GetSubType(): nat
      requires Valid()
    {
      if !knownformat then 0 else Count(data)
    }

    function GetSSRC(): U32
      requires Valid()
    {
      if !knownformat then 0 else U32At(data, HEADER_SIZE)
    }

    function GetName(): seq<Byte>
      requires Valid()
    {
      if !knownformat then [] else data[HEADER_SIZE + 4..HEADER_SIZE + 8]
    }

    /** The bytes GetAPPData points at, for as long as GetAPPDataLength says. */
    function GetAPPData(): seq<Byte>
      requires Valid()
    {
      if !knownformat || appdatalen == 0 then [] else data[APP_FIXED..APP_FIXED + appdatalen]
    }
  }

  lemma AppHeader(a: App)
    requires AppProper(a)
    ensures
      var p := EncodeApp(a);
      && Version(p) == RTP_VERSION && !PaddingBit(p) && Count(p) == a.subtype && PType(p) == TYPE_APP
      && (AnnouncedSize(p) == |p| <==> |p| <= MAX_WORD_COUNTED)
  {
    var p := EncodeApp(a);
    assert p[..HEADER_SIZE] == Header(a.subtype, TYPE_APP, APP_FIXED + |a.data|);
    HeaderFields(p, a.subtype, TYPE_APP, |p|);
  }

  /** An object made of an encoded APP packet returns what was put in. */
  lemma AppRoundTrip(a: App, p: APPPacket)
    requires AppProper(a) && p.Valid() && p.data == EncodeApp(a)
    ensures p.knownformat && p.GetSubType() == a.subtype && p.GetSSRC() == a.ssrc
    ensures p.GetName() == a.name && p.GetAPPData() == a.data
  {
    AppHeader(a);
    assert p.data[HEADER_SIZE..HEADER_SIZE + 4] == Net32(a.ssrc);
    Net32RoundTrip(p.data, HEADER_SIZE, a.ssrc);
    assert p.data[HEADER_SIZE + 4..HEADER_SIZE + 8] == a.name;
    assert p.data[APP_FIXED..APP_FIXED + |a.data|] == a.data;
  }

  // ----- any packet that is received -----

  lemma {:induction false} ReadSsrcsAt(d: seq<Byte>, o: nat, n: nat, k: nat)
    requires o + 4 * n <= |d| && k < n
    ensures ReadSsrcs(d, o, n)[k] == U32At(d, o + 4 * k)
    decreases n
  {
    if k > 0 {
      ReadSsrcsAt(d, o + 4, n - 1, k - 1);
    }
  }

  lemma SourcesRead(p: BYEPacket)
    requires p.Valid() && p.knownformat
    ensures p.SSRCs() == ReadSsrcs(p.data, HEADER_SIZE, Count(p.data))
  {
    var n := Count(p.data);
    forall k | 0 <= k < n
      ensures ReadSsrcs(p.data, HEADER_SIZE, n)[k] == p.GetSSRC(k)
    {
      ReadSsrcsAt(p.data, HEADER_SIZE, n, k);
    }
  }

  /** Whoever sent it and whatever padding it has: the accessors of a BYE packet of known format return
      as many sources as the first byte counts, in order; of another, none. */
  lemma ByeSourceBytes(p: BYEPacket)
    requires p.Valid()
    ensures |p.SSRCs()| == if p.knownformat then p.data[0] % 32 else 0
    ensures HEADER_SIZE + 4 * |p.SSRCs()| <= |p.data|
    ensures p.data[HEADER_SIZE..HEADER_SIZE + 4 * |p.SSRCs()|] == SsrcList(p.SSRCs())
  {
    if p.knownformat {
      SourcesRead(p);
      SsrcListRead(p.data, HEADER_SIZE, Count(p.data));
    }
  }

  /** And there is a reason exactly if anything follows the sources before the padding: the text that the
      next byte measures. */
  lemma ByeReasonBytes(p: BYEPacket)
    requires p.Valid()
    ensures p.HasReasonForLeaving() <==>
      p.knownformat && HEADER_SIZE + 4 * (p.data[0] % 32) < UnpaddedLength(p.data).value
    ensures |p.GetReasonData()| == p.GetReasonLength()
    ensures p.HasReasonForLeaving() ==>
      var end := HEADER_SIZE + 4 * (p.data[0] % 32);
      && end + 1 + p.GetReasonLength() <= UnpaddedLength(p.data).value
      && p.data[end] == p.GetReasonLength()
      && p.data[end + 1..end + 1 + p.GetReasonLength()] == p.GetReasonData()
    ensures !p.HasReasonForLeaving() ==> p.GetReasonLength() == 0
  {
  }

  lemma AppSlices(d: seq<Byte>, len: nat)
    requires APP_FIXED <= len <= |d|
    ensures d[HEADER_SIZE..len] == Net32(U32At(d, HEADER_SIZE)) + d[HEADER_SIZE + 4..APP_FIXED] + d[APP_FIXED..len]
  {
    U32AtBytes(d, HEADER_SIZE);
    SliceJoin(d, HEADER_SIZE, HEADER_SIZE + 4, APP_FIXED);
    SliceJoin(d, HEADER_SIZE, APP_FIXED, len);
  }

  /** Likewise for an APP packet, all of whose bytes are returned. */
  lemma AppBytes(p: APPPacket)
    requires p.Valid()
    ensures p.knownformat ==>
      && UnpaddedLength(p.data).Some? && HEADER_SIZE <= UnpaddedLength(p.data).value
      && p.data[0] % 32 == p.GetSubType()
      && p.data[HEADER_SIZE..UnpaddedLength(p.data).value] == Net32(p.GetSSRC()) + p.GetName() + p.GetAPPData()
    ensures !p.knownformat ==>
      p.GetSubType() == 0 && p.GetSSRC() == 0 && p.GetName() == [] && p.GetAPPData() == []
  {
    if p.knownformat {
      var len := UnpaddedLength(p.data).value;
      AppSlices(p.data, len);
      assert p.GetAPPData() == p.data[APP_FIXED..len];
    }
  }
}
