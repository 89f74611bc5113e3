/** The receiving client: a buffer is parsed, and the packets found are read through their accessors
    and cursors, as RTPSources does it. What it sees is what was sent. */
module Receiver {
  import opened Wire
  import opened SdesFormat
  import opened SdesParser
  import opened ReportFormat
  import opened ByeAppFormat
  import opened BuilderModel
  import opened CompoundPacket
  import opened RoundTrip
  import opened BuilderRuns

  /** What a client has learned, kind by kind, in order; the source descriptions as the cursors show
      them, a private item by its prefix and its value. */
  datatype Seen = Seen(
    senders: seq<Sender>, blocks: seq<ReportBlock>, chunks: seq<ChunkView>, apps: seq<App>, byes: seq<Bye>)

  function View(c: Contents): Seen {
    Seen(c.senders, c.blocks, ViewChunks(c.chunks), c.apps, c.byes)
  }

  lemma ViewPlus(a: Contents, b: Contents)
    ensures
      var v := View(Plus(a, b));
      && v.senders == a.senders + b.senders && v.blocks == a.blocks + b.blocks
      && v.chunks == ViewChunks(a.chunks) + ViewChunks(b.chunks)
      && v.apps == a.apps + b.apps && v.byes == a.byes + b.byes
  {
  }

  /** What can be read of one packet object; of an unknown format, nothing. */
  ghost function Readable(r: PacketRef): Contents
    requires r.Proper()
  {
    if r.Known() then ReadOne(r) else NOTHING
  }

  ghost function Readables(list: seq<PacketRef>): (cs: seq<Contents>)
    requires AllProper(list)
    ensures |cs| == |list|
  {
    seq(|list|, i requires 0 <= i < |list| => Readable(list[i]))
  }

  ghost function ReadableAll(list: seq<PacketRef>): Contents
    requires AllProper(list)
  {
    Sum(Readables(list))
  }

  lemma ReadableKnown(list: seq<PacketRef>)
    requires AllKnown(list)
    ensures AllProper(list) && ReadableAll(list) == ReadAll(list)
  {
    assert Readables(list) == seq(|list|, i requires 0 <= i < |list| => ReadOne(list[i]));
  }

  lemma ReadableStep(list: seq<PacketRef>, k: nat)
    requires AllProper(list) && k < |list|
    ensures AllProper(list[..k]) && AllProper(list[..k + 1])
    ensures ReadableAll(list[..k + 1]) == Plus(ReadableAll(list[..k]), Readable(list[k]))
  {
    var before, last := Readables(list[..k]), Readable(list[k]);
    assert Readables(list[..k + 1]) == before + [last];
    SumAppend(before, [last]);
    SumOne(last);
  }

  lemma SumOne(c: Contents)
    ensures Sum([c]) == c
  {
  }

  /** The branch of the client for one packet. */
  method ReadPacket(r: PacketRef, sofar: Seen, ghost before: Contents) returns (seen: Seen)
    requires r.Proper() && sofar == View(before)
    modifies SdesObjects([r])
    ensures seen == View(Plus(before, Readable(r)))
  {
    ViewPlus(before, Readable(r));
    seen := sofar;
    if !r.Known() { return; }
    match r {
      case SRRef(p) =>
        seen := seen.(senders := seen.senders + [SR(p.GetSenderSSRC(), p.GetSenderInfo())],
          blocks := seen.blocks + p.Reports());
      case RRRef(p) =>
        seen := seen.(senders := seen.senders + [RR(p.GetSenderSSRC())], blocks := seen.blocks + p.Reports());
      case SDESRef(p) =>
        assert p == [r][0].sdes;
        var chunks := Walk(p);
        seen := seen.(chunks := seen.chunks + chunks);
      case APPRef(p) =>
        seen := seen.(apps := seen.apps + [App(p.GetSubType(), p.GetSSRC(), p.GetName(), p.GetAPPData())]);
      case BYERef(p) =>
        seen := seen.(byes := seen.byes + [Bye(p.SSRCs(), p.GetReasonData())]);
      case UnknownRef(_) =>
    }
  }

  /** The loop of the client over the packets of a compound packet. */
  method ReadPackets(list: seq<PacketRef>) returns (seen: Seen)
    requires AllProper(list)
    modifies SdesObjects(list)
    ensures seen == View(ReadableAll(list))
  {
    seen := View(NOTHING);
    var k := 0;
    while k < |list|
      invariant k <= |list| && AllProper(list[..k])
      invariant seen == View(ReadableAll(list[..k]))
    {
      ReadableStep(list, k);
      seen := ReadPacket(list[k], seen, ReadableAll(list[..k]));
      k := k + 1;
    }
    assert list[..k] == list;
  }

  /** The buffer is what EndBuild writes in state `s`, and its boundaries can be found again. */
  ghost predicate Carries(data: seq<Byte>, s: Build) {
    s.Proper() && !s.sender.NoReport? && WordCountsFit(s.chunks) && Bytes(s) == data
  }

  lemma CarriedRead(data: seq<Byte>, s: Build, list: seq<PacketRef>)
    requires Carries(data, s) && AllProper(list) && Tiles(data, Datas(list), true)
    ensures View(ReadableAll(list)) == View(Sent(s))
  {
    RoundTrip.RoundTrip(s, list);
    ReadableKnown(list);
  }

  lemma CarriedCompound(data: seq<Byte>, s: Build)
    requires Carries(data, s)
    ensures IsCompound(data)
  {
    BoundariesKept(s);
  }

  /** From bytes to what the client learns. It gets something if and only if the data is a compound
      packet that did not come in as RTP data; and if the data is what EndBuild writes for any build,
      it sees everything that was added to that build, chunk by chunk and item by item. */
  method Receive(data: seq<Byte>, isrtp: bool) returns (seen: Option<Seen>)
    ensures seen.Some? <==> !isrtp && IsCompound(data)
    ensures forall s :: Carries(data, s) && !isrtp ==> seen == Some(View(Sent(s)))
  {
    var packet := new CompoundPacket(data, isrtp);
    forall s | Carries(data, s)
      ensures IsCompound(data)
    {
      CarriedCompound(data, s);
    }
    if packet.error != NoError { return None; }
    ghost var list := packet.rtcppacklist;
    var all := ReadPackets(packet.rtcppacklist);
    forall s | Carries(data, s)
      ensures all == View(Sent(s))
    {
      CarriedRead(data, s, list);
    }
    return Some(all);
  }

  /** A normal item is seen with the type and the text it was added with. */
  lemma NormalSeen(t: ItemType, text: Text)
    requires NormalItemId(t).Some?
    ensures ViewItem(Item(NormalItemId(t).value, text)) == Normal(t, text)
  {
  }

  /** A private item is seen with the prefix and the value it was added with. */
  lemma PrivateSeen(prefix: Text, value: Text)
    requires |prefix| + 1 + |value| <= 255
    ensures ViewItem(Item(ID_PRIVATE, [|prefix|] + prefix + value)) == Private(prefix, value)
  {
    PrivRoundTrip(prefix, value);
  }

  /** What the accepted calls of a run say, as a client should see it. */
  function Expected(sent: Contents): Seen
    requires |sent.senders| == 1 && !sent.senders[0].NoReport?
  {
    Seen(SendersOf(sent.senders[0], |sent.blocks|), ReceivedAll(sent.blocks), ViewChunks(sent.chunks), sent.apps,
      sent.byes)
  }

  /** From calls to what the client learns: the packet of any run whose word counts fit carries to
      Receive exactly what the accepted calls added. */
  lemma RunReceived(ops: seq<Op>)
    requires NotEnded(ops) && DoEnd(Run(ops)).1 == Ok && WordCountsFit(Run(ops).chunks)
    ensures Carries(Bytes(Run(ops)), Run(ops))
    ensures
      var sent := Gather(Accepted(ops));
      |sent.senders| == 1 && !sent.senders[0].NoReport? && View(Sent(Run(ops))) == Expected(sent)
  {
    RunHolds(ops);
  }
}
