/** Whole runs of builder calls: what is kept, how far the size budget can be passed, and that a
    receiver reads back exactly the accepted additions. */
module BuilderRuns {
  import opened Wire
  import opened SdesFormat
  import opened SdesParser
  import opened ReportFormat
  import opened ByeAppFormat
  import opened BuilderModel
  import opened PacketSizes
  import opened CompoundPacket
  import opened RoundTrip

  /** The state after the calls `ops` on a new builder, whether they were accepted or not. */
  function Run(ops: seq<Op>): (s: Build)
    ensures s.Proper()
    decreases |ops|
  {
    if ops == [] then EMPTY
    else
      var before := Run(ops[..|ops| - 1]);
      StepProper(before, ops[|ops| - 1]);
      Step(before, ops[|ops| - 1]).0
  }

  /** The calls that were accepted, in order. */
  function Accepted(ops: seq<Op>): seq<Op>
    decreases |ops|
  {
    if ops == [] then []
    else
      var before, op := ops[..|ops| - 1], ops[|ops| - 1];
      Accepted(before) + if Step(Run(before), op).1 == Ok then [op] else []
  }

  lemma AcceptedLast(ops: seq<Op>)
    requires ops != []
    ensures
      var before, op := ops[..|ops| - 1], ops[|ops| - 1];
      Accepted(ops) == if Step(Run(before), op).1 == Ok then Accepted(before) + [op] else Accepted(before)
  {
    var before := ops[..|ops| - 1];
    assert Accepted(before) + [] == Accepted(before);
  }

  // ----- the size budget -----

  /** The one addition that is not counted: the first source, when fewer than 12 bytes are left. */
  predicate Overdraws(s: Build, op: Op) {
    op.AddSDESSource? && s.building && s.chunks == [] && s.max - 12 < Total(s) <= s.max
  }

  lemma FirstSourceSize(s: Build, ssrc: U32)
    requires s.chunks == []
    ensures Total(s.(chunks := [Chunk(ssrc, [])])) == Total(s) + 12
  {
    var c := Chunk(ssrc, []);
    ChunksSizeOne(c);
  }

  lemma ReportStartSize(s: Build, sender: Sender)
    requires s.Proper() && s.sender.NoReport? && !sender.NoReport?
    ensures Total(s.(sender := sender)) == Total(s) + FixedSize(sender)
  {
  }

  predicate Within(s: Build) {
    s.building ==> Total(s) <= s.max
  }

  lemma StartWithin(s: Build, sender: Sender)
    requires s.Proper() && Within(s) && !sender.NoReport?
    ensures Within(DoStart(s, sender).0)
  {
    if s.sender.NoReport? {
      ReportStartSize(s, sender);
    }
  }

  /** The budget is passed at a call if and only if that call overdraws it. */
  lemma StepBudget(s: Build, op: Op)
    requires s.Proper() && Within(s)
    ensures Within(Step(s, op).0) <==> !Overdraws(s, op)
  {
    match op
    case StartSenderReport(ssrc, info) => StartWithin(s, SR(ssrc, info));
    case StartReceiverReport(ssrc) => StartWithin(s, RR(ssrc));
    case AddSDESSource(ssrc) => SourceWithin(s, ssrc);
    case _ => OtherWithin(s, op);
  }

  lemma SourceWithin(s: Build, ssrc: U32)
    requires Within(s)
    ensures Within(DoAddSource(s, ssrc).0) <==> !Overdraws(s, AddSDESSource(ssrc))
  {
    if s.chunks == [] {
      FirstSourceSize(s, ssrc);
      assert [] + [Chunk(ssrc, [])] == [Chunk(ssrc, [])];
    }
  }

  lemma OtherWithin(s: Build, op: Op)
    requires s.Proper() && Within(s)
    ensures op.StartSenderReport? || op.StartReceiverReport? || op.AddSDESSource? || Within(Step(s, op).0)
  {
  }

  predicate NeverOverdraws(ops: seq<Op>)
    decreases |ops|
  {
    ops == [] || (NeverOverdraws(ops[..|ops| - 1]) && !Overdraws(Run(ops[..|ops| - 1]), ops[|ops| - 1]))
  }

  /** On a run whose first source is always added with 12 bytes to spare, the pending packet is
      never larger than the maximum. */
  lemma BudgetKept(ops: seq<Op>)
    requires NeverOverdraws(ops)
    ensures
      var s := Run(ops);
      s.building ==> |Bytes(s)| <= s.max
  {
    BudgetKeptTotal(ops);
    TotalExact(Run(ops));
  }

  lemma {:induction false} BudgetKeptTotal(ops: seq<Op>)
    requires NeverOverdraws(ops)
    ensures Within(Run(ops))
  {
    if ops != [] {
      BudgetKeptTotal(ops[..|ops| - 1]);
      StepBudget(Run(ops[..|ops| - 1]), ops[|ops| - 1]);
    }
  }

  /** The packet with an addition is not smaller, whether the addition was accepted or not. */
  predicate Grown(s: Build, t: Build) {
    Total(t) >= Total(s) && t.max == s.max
  }

  lemma KeepGrows(s: Build, added: Build)
    requires Grown(s, added)
    ensures Grown(s, Keep(s, added).0)
  {
  }

  lemma StartGrows(s: Build, sender: Sender)
    requires s.Proper() && !sender.NoReport?
    ensures Grown(s, DoStart(s, sender).0)
  {
    if s.sender.NoReport? {
      ReportStartSize(s, sender);
    }
  }

  lemma AddBlockGrows(s: Build, block: ReportBlock)
    ensures Grown(s, DoAddBlock(s, block).0)
  {
    if !s.sender.NoReport? {
      BlockGrows(s, block);
      KeepGrows(s, s.(blocks := s.blocks + [block]));
    }
  }

  lemma AddSourceGrows(s: Build, ssrc: U32)
    ensures Grown(s, DoAddSource(s, ssrc).0)
  {
    SourceGrows(s, ssrc);
    KeepGrows(s, s.(chunks := s.chunks + [Chunk(ssrc, [])]));
  }

  lemma AddItemGrows(s: Build, t: ItemType, d: Text)
    ensures Grown(s, DoAddNormalItem(s, t, d).0)
  {
    if s.chunks != [] && NormalItemId(t).Some? { ItemGrows(s, Item(NormalItemId(t).value, d)); }
  }

  lemma AddPrivateGrows(s: Build, p: Text, v: Text)
    ensures Grown(s, DoAddPrivateItem(s, p, v).0)
  {
    if s.chunks != [] && |p| + 1 + |v| <= 255 { ItemGrows(s, Item(ID_PRIVATE, [|p|] + p + v)); }
  }

  lemma AddByeGrows(s: Build, bye: Bye)
    ensures Grown(s, DoAddBye(s, bye).0)
  {
    ByeGrows(s, bye);
    KeepGrows(s, s.(byes := s.byes + [bye]));
    assert DoAddBye(s, bye).0 in {s, Keep(s, s.(byes := s.byes + [bye])).0};
  }

  lemma AddAppGrows(s: Build, app: App)
    ensures Grown(s, DoAddApp(s, app).0)
  {
    AppGrows(s, app);
    KeepGrows(s, s.(apps := s.apps + [app]));
    assert DoAddApp(s, app).0 in {s, Keep(s, s.(apps := s.apps + [app])).0};
  }

  /** No call makes the pending packet smaller or changes the maximum, until it ends. */
  lemma StepGrows(s: Build, op: Op)
    requires s.Proper() && s.building && Step(s, op).0.building
    ensures Grown(s, Step(s, op).0)
  {
    match op
    case StartSenderReport(ssrc, info) => StartGrows(s, SR(ssrc, info));
    case StartReceiverReport(ssrc) => StartGrows(s, RR(ssrc));
    case AddReportBlock(block) => AddBlockGrows(s, block);
    case AddSDESSource(ssrc) => AddSourceGrows(s, ssrc);
    case AddSDESNormalItem(t, d) => AddItemGrows(s, t, d);
    case AddSDESPrivateItem(p, v) => AddPrivateGrows(s, p, v);
    case AddBYEPacket(bye) => AddByeGrows(s, bye);
    case AddAPPPacket(app) => AddAppGrows(s, app);
    case InitBuild(_) =>
    case InitBuildExternal(_) =>
    case EndBuild =>
  }

  lemma StepWithin(s: Build, op: Op)
    requires s.Proper() && Step(s, op).0.building
    ensures Within(Step(s, op).0) <==> Within(s) && !Overdraws(s, op)
  {
    if Within(s) {
      StepBudget(s, op);
    } else {
      StepGrows(s, op);
    }
  }

  /** A build only starts once, and nothing is overdrawn before. */
  lemma StepStarts(s: Build, op: Op)
    ensures Step(s, op).0.building ==> s.building || !s.built
    ensures !Step(s, op).0.building && !Step(s, op).0.built ==> !s.building && !s.built
    ensures Overdraws(s, op) ==> s.building
  {
  }

  /** The pending packet is within the maximum if and only if no call of the run overdrew it. */
  lemma {:induction false} WithinIff(ops: seq<Op>)
    ensures Run(ops).building ==> (Within(Run(ops)) <==> NeverOverdraws(ops))
    ensures !Run(ops).building && !Run(ops).built ==> NeverOverdraws(ops)
  {
    if ops != [] {
      var before, op := ops[..|ops| - 1], ops[|ops| - 1];
      WithinIff(before);
      StepStarts(Run(before), op);
      if Run(ops).building {
        StepWithin(Run(before), op);
      }
    }
  }

  /** Once started, a build keeps its maximum until it ends, and no other starts. */
  lemma StepKeepsMax(s: Build, op: Op)
    requires s.building == !s.built
    ensures var t := Step(s, op).0; t.max == s.max && t.building == !t.built
  {
  }

  lemma InitAccepted(s: Build, n: Size)
    requires Step(s, InitBuildExternal(n)).1 == Ok
    ensures var t := Step(s, InitBuildExternal(n)).0; t.max == n && t.building && !t.built
  {
  }

  lemma {:induction false} ExternalMax(n: Size, ops: seq<Op>)
    requires InitBuildExternal(n) in Accepted(ops)
    ensures var s := Run(ops); s.max == n && s.building == !s.built
    decreases |ops|
  {
    var before, op := ops[..|ops| - 1], ops[|ops| - 1];
    AcceptedLast(ops);
    if InitBuildExternal(n) in Accepted(before) {
      ExternalMax(n, before);
      StepKeepsMax(Run(before), op);
    } else {
      InitAccepted(Run(before), n);
    }
  }

  /** After any run in which a buffer of the caller's was accepted, EndBuild stays within that buffer
      if and only if no call overdrew the budget. */
  lemma ExternalFitsIff(n: Size, ops: seq<Op>)
    requires InitBuildExternal(n) in Accepted(ops) && DoEnd(Run(ops)).1 == Ok
    ensures |Bytes(Run(ops))| <= n <==> NeverOverdraws(ops)
  {
    ExternalMax(n, ops);
    WithinIff(ops);
    TotalExact(Run(ops));
  }

  /** How far any run at all can pass the maximum: by the uncounted source, and then by a report,
      because the bytes left are computed by an unsigned subtraction. */
  function Excess(s: Build): nat {
    if s.sender.NoReport? then 12 else 40
  }

  predicate Bounded(s: Build) {
    s.building ==> Total(s) <= s.max + Excess(s)
  }

  lemma StartExcess(s: Build, sender: Sender)
    requires s.Proper() && Bounded(s) && !sender.NoReport?
    ensures Bounded(DoStart(s, sender).0)
  {
    if s.sender.NoReport? {
      ReportStartSize(s, sender);
    }
  }

  lemma SourceExcess(s: Build, ssrc: U32)
    requires Bounded(s)
    ensures Bounded(DoAddSource(s, ssrc).0)
  {
    if s.chunks == [] {
      FirstSourceSize(s, ssrc);
      assert [] + [Chunk(ssrc, [])] == [Chunk(ssrc, [])];
    }
  }

  /** An addition that is counted keeps the packet within the maximum, if it is accepted. */
  lemma KeepExcess(s: Build, added: Build)
    requires Bounded(s) && added.max == s.max
    ensures Bounded(Keep(s, added).0)
  {
  }

  lemma AddBlockExcess(s: Build, block: ReportBlock)
    requires Bounded(s)
    ensures Bounded(DoAddBlock(s, block).0)
  {
    KeepExcess(s, s.(blocks := s.blocks + [block]));
  }

  lemma AddItemExcess(s: Build, t: ItemType, d: Text)
    requires Bounded(s)
    ensures Bounded(DoAddNormalItem(s, t, d).0)
  {
    if s.chunks != [] && NormalItemId(t).Some? {
      KeepExcess(s, s.(chunks := WithItem(s.chunks, Item(NormalItemId(t).value, d))));
    }
  }

  lemma AddPrivateExcess(s: Build, p: Text, v: Text)
    requires Bounded(s)
    ensures Bounded(DoAddPrivateItem(s, p, v).0)
  {
    if s.chunks != [] && |p| + 1 + |v| <= 255 {
      KeepExcess(s, s.(chunks := WithItem(s.chunks, Item(ID_PRIVATE, [|p|] + p + v))));
    }
  }

  lemma AddByeExcess(s: Build, bye: Bye)
    requires Bounded(s)
    ensures Bounded(DoAddBye(s, bye).0)
  {
    KeepExcess(s, s.(byes := s.byes + [bye]));
    assert DoAddBye(s, bye).0 in {s, Keep(s, s.(byes := s.byes + [bye])).0};
  }

  lemma AddAppExcess(s: Build, app: App)
    requires Bounded(s)
    ensures Bounded(DoAddApp(s, app).0)
  {
    KeepExcess(s, s.(apps := s.apps + [app]));
    assert DoAddApp(s, app).0 in {s, Keep(s, s.(apps := s.apps + [app])).0};
  }

  lemma InitExcess(s: Build, n: Size, tooSmall: Status)
    requires s.Proper() && Bounded(s)
    ensures Bounded(DoInit(s, n, tooSmall).0)
  {
  }

  lemma StepExcess(s: Build, op: Op)
    requires s.Proper() && Bounded(s)
    ensures Bounded(Step(s, op).0)
  {
    match op
    case StartSenderReport(ssrc, info) => StartExcess(s, SR(ssrc, info));
    case StartReceiverReport(ssrc) => StartExcess(s, RR(ssrc));
    case AddReportBlock(block) => AddBlockExcess(s, block);
    case AddSDESSource(ssrc) => SourceExcess(s, ssrc);
    case AddSDESNormalItem(t, d) => AddItemExcess(s, t, d);
    case AddSDESPrivateItem(p, v) => AddPrivateExcess(s, p, v);
    case AddBYEPacket(bye) => AddByeExcess(s, bye);
    case AddAPPPacket(app) => AddAppExcess(s, app);
    case InitBuild(n) => InitExcess(s, n, MaxPacketSizeTooSmall);
    case InitBuildExternal(n) => InitExcess(s, n, BufferSizeTooSmall);
    case EndBuild =>
  }

  lemma {:induction false} BudgetBound(ops: seq<Op>)
    ensures
      var s := Run(ops);
      s.building ==> |Bytes(s)| <= s.max + Excess(s)
  {
    BudgetBoundTotal(ops);
    TotalExact(Run(ops));
  }

  lemma {:induction false} BudgetBoundTotal(ops: seq<Op>)
    ensures Bounded(Run(ops))
  {
    if ops != [] {
      BudgetBoundTotal(ops[..|ops| - 1]);
      StepExcess(Run(ops[..|ops| - 1]), ops[|ops| - 1]);
    }
  }

  /** The bound is reached: an APP packet that fills the budget, a source, and a sender report. If the
      buffer of 600 bytes is the caller's, EndBuild goes on to write 640 bytes to it. */
  lemma BudgetBoundReached(init: Op, data: seq<Byte>, name: Name, info: SenderInfo)
    requires init in {InitBuild(600), InitBuildExternal(600)} && |data| == 588
    ensures
      var ops := [init, AddAPPPacket(App(0, 1, name, data)), AddSDESSource(1), StartSenderReport(1, info)];
      var s := Run(ops);
      s.building && s.max == 600 && |Bytes(s)| == Total(s) == 640 && DoEnd(s).1 == Ok
  {
    var app := App(0, 1, name, data);
    var ops := [init, AddAPPPacket(app), AddSDESSource(1), StartSenderReport(1, info)];
    RunStep(ops, 0);
    RunStep(ops, 1);
    RunStep(ops, 2);
    RunStep(ops, 3);
    assert ops[..4] == ops;
    FullApp(EMPTY.(max := 600, building := true), app, info);
    TotalExact(Run(ops));
  }

  lemma FullApp(s: Build, app: App, info: SenderInfo)
    requires s == EMPTY.(max := 600, building := true) && |app.data| == 588 && app.subtype == 0
    ensures
      var t := Step(Step(Step(s, AddAPPPacket(app)).0, AddSDESSource(1)).0, StartSenderReport(1, info)).0;
      t.building && t.max == 600 && Total(t) == 640 && !t.sender.NoReport?
  {
    var s2 := s.(apps := [app]);
    assert [] + [app] == [app] && [app][..0] == [];
    assert AppsSize([app]) == 600;
    assert Step(s, AddAPPPacket(app)).0 == s2;
    FullSource(s2, info);
  }

  lemma FullSource(s: Build, info: SenderInfo)
    requires s.building && s.max == 600 && Total(s) == 600 && s.chunks == [] && s.sender.NoReport? && s.blocks == []
    ensures
      var t := Step(Step(s, AddSDESSource(1)).0, StartSenderReport(1, info)).0;
      t.building && t.max == 600 && Total(t) == 640 && !t.sender.NoReport?
  {
    FirstSourceSize(s, 1);
    assert [] + [Chunk(1, [])] == [Chunk(1, [])];
    assert Step(s, AddSDESSource(1)).0 == s.(chunks := [Chunk(1, [])]);
  }

  lemma RunStep(ops: seq<Op>, k: nat)
    requires k < |ops|
    ensures Run(ops[..k + 1]) == Step(Run(ops[..k]), ops[k]).0
    ensures k == 0 ==> Run(ops[..k]) == EMPTY
  {
    assert ops[..k + 1][..k] == ops[..k];
  }

  // ----- what was accepted is what is sent -----

  /** What one more addition says, read without regard to sizes or errors. */
  function GatherOne(c: Contents, op: Op): Contents {
    match op
    case StartSenderReport(ssrc, info) => c.(senders := c.senders + [SR(ssrc, info)])
    case StartReceiverReport(ssrc) => c.(senders := c.senders + [RR(ssrc)])
    case AddReportBlock(b) => c.(blocks := c.blocks + [b])
    case AddSDESSource(ssrc) => c.(chunks := c.chunks + [Chunk(ssrc, [])])
    case AddSDESNormalItem(t, d) =>
      if c.chunks == [] || NormalItemId(t).None? then c
      else c.(chunks := WithItem(c.chunks, Item(NormalItemId(t).value, d)))
    case AddSDESPrivateItem(p, v) =>
      if c.chunks == [] || |p| + 1 + |v| > 255 then c
      else c.(chunks := WithItem(c.chunks, Item(ID_PRIVATE, [|p|] + p + v)))
    case AddAPPPacket(a) => c.(apps := c.apps + [a])
    case AddBYEPacket(b) => c.(byes := c.byes + [b])
    case InitBuild(_) => c
    case InitBuildExternal(_) => c
    case EndBuild => c
  }

  /** What a list of additions says. */
  function Gather(ops: seq<Op>): Contents {
    if ops == [] then NOTHING else GatherOne(Gather(ops[..|ops| - 1]), ops[|ops| - 1])
  }

  lemma GatherLast(ops: seq<Op>, op: Op)
    ensures Gather(ops + [op]) == GatherOne(Gather(ops), op)
  {
    assert (ops + [op])[..|ops|] == ops;
  }

  /** No EndBuild call was accepted. */
  predicate NotEnded(ops: seq<Op>) {
    EndBuild !in Accepted(ops)
  }

  ghost predicate Holds(s: Build, c: Contents) {
    && c.senders == (if s.sender.NoReport? then [] else [s.sender])
    && c.blocks == s.blocks && c.chunks == s.chunks && c.apps == s.apps && c.byes == s.byes
  }

  /** `t` is what one call makes of `s`: it holds the addition if that was accepted. */
  ghost predicate HoldsNext(t: (Build, Status), c: Contents, added: Contents) {
    Holds(t.0, if t.1 == Ok then added else c)
  }

  lemma StartHolds(s: Build, sender: Sender, c: Contents)
    requires Holds(s, c) && !sender.NoReport?
    ensures HoldsNext(DoStart(s, sender), c, c.(senders := c.senders + [sender]))
  {
  }

  lemma BlockHolds(s: Build, block: ReportBlock, c: Contents)
    requires Holds(s, c)
    ensures HoldsNext(DoAddBlock(s, block), c, c.(blocks := c.blocks + [block]))
  {
  }

  lemma SourceHolds(s: Build, ssrc: U32, c: Contents)
    requires Holds(s, c)
    ensures HoldsNext(DoAddSource(s, ssrc), c, c.(chunks := c.chunks + [Chunk(ssrc, [])]))
  {
  }

  lemma ItemHolds(s: Build, t: ItemType, d: Text, c: Contents)
    requires Holds(s, c)
    ensures HoldsNext(DoAddNormalItem(s, t, d), c, GatherOne(c, AddSDESNormalItem(t, d)))
  {
  }

  lemma PrivateHolds(s: Build, p: Text, v: Text, c: Contents)
    requires Holds(s, c)
    ensures HoldsNext(DoAddPrivateItem(s, p, v), c, GatherOne(c, AddSDESPrivateItem(p, v)))
  {
  }

  lemma AppHolds(s: Build, app: App, c: Contents)
    requires Holds(s, c)
    ensures HoldsNext(DoAddApp(s, app), c, c.(apps := c.apps + [app]))
  {
  }

  lemma ByeHolds(s: Build, bye: Bye, c: Contents)
    requires Holds(s, c)
    ensures HoldsNext(DoAddBye(s, bye), c, c.(byes := c.byes + [bye]))
  {
  }

  /** One more call, if it does not end the build. */
  lemma StepHolds(s: Build, op: Op, c: Contents)
    requires Holds(s, c)
    ensures op.EndBuild? || HoldsNext(Step(s, op), c, GatherOne(c, op))
  {
    match op
    case StartSenderReport(ssrc, info) => StartHolds(s, SR(ssrc, info), c);
    case StartReceiverReport(ssrc) => StartHolds(s, RR(ssrc), c);
    case AddReportBlock(block) => BlockHolds(s, block, c);
    case AddSDESSource(ssrc) => SourceHolds(s, ssrc, c);
    case AddSDESNormalItem(t, d) => ItemHolds(s, t, d, c);
    case AddSDESPrivateItem(p, v) => PrivateHolds(s, p, v, c);
    case AddAPPPacket(app) => AppHolds(s, app, c);
    case AddBYEPacket(bye) => ByeHolds(s, bye, c);
    case InitBuild(_) =>
    case InitBuildExternal(_) =>
    case EndBuild =>
  }

  lemma NotEndedLast(ops: seq<Op>)
    requires ops != [] && NotEnded(ops)
    ensures
      var before, op := ops[..|ops| - 1], ops[|ops| - 1];
      NotEnded(before) && !(op.EndBuild? && Step(Run(before), op).1 == Ok)
  {
    AcceptedLast(ops);
  }

  lemma RefusedEnd(s: Build)
    requires Step(s, EndBuild).1 != Ok
    ensures Step(s, EndBuild).0 == s
  {
  }

  /** The state of a run that has not ended is what its accepted calls say. */
  lemma {:induction false} RunHolds(ops: seq<Op>)
    requires NotEnded(ops)
    ensures Holds(Run(ops), Gather(Accepted(ops)))
  {
    if ops != [] {
      var before, op := ops[..|ops| - 1], ops[|ops| - 1];
      AcceptedLast(ops);
      NotEndedLast(ops);
      RunHolds(before);
      StepHolds(Run(before), op, Gather(Accepted(before)));
      GatherLast(Accepted(before), op);
      if op.EndBuild? {
        RefusedEnd(Run(before));
      }
    }
  }

  lemma HeldRoundTrip(s: Build, c: Contents, list: seq<PacketRef>)
    requires s.Proper() && Holds(s, c) && !s.sender.NoReport? && WordCountsFit(s.chunks)
    requires AllProper(list) && Tiles(Bytes(s), Datas(list), true)
    ensures Datas(list) == Packets(s) && AllKnown(list) && c.senders == [s.sender]
    ensures ReadAll(list) == Contents(SendersOf(s.sender, |c.blocks|), ReceivedAll(c.blocks), c.chunks, c.apps, c.byes)
  {
    RoundTrip.RoundTrip(s, list);
  }

  /** The packets of a run, and objects that return what its accepted calls added. */
  ghost predicate Received(ops: seq<Op>, list: seq<PacketRef>) {
    var sent := Gather(Accepted(ops));
    && Datas(list) == Packets(Run(ops)) && AllKnown(list)
    && |sent.senders| == 1 && !sent.senders[0].NoReport?
    && ReadAll(list)
       == Contents(SendersOf(sent.senders[0], |sent.blocks|), ReceivedAll(sent.blocks), sent.chunks, sent.apps,
         sent.byes)
  }

  /** From calls to accessors: when the word counts fit, the compound packet of any run is one that
      ParseData accepts, and the objects that it makes are the packets of the run and return exactly what
      the accepted calls added, in order. */
  lemma RunRoundTrip(ops: seq<Op>, list: seq<PacketRef>)
    requires NotEnded(ops) && DoEnd(Run(ops)).1 == Ok
    requires WordCountsFit(Run(ops).chunks)
    ensures IsCompound(Bytes(Run(ops)))
    ensures AllProper(list) && Tiles(Bytes(Run(ops)), Datas(list), true) ==> Received(ops, list)
  {
    RunHolds(ops);
    BoundariesKept(Run(ops));
    if AllProper(list) && Tiles(Bytes(Run(ops)), Datas(list), true) {
      HeldRoundTrip(Run(ops), Gather(Accepted(ops)), list);
    }
  }

  // ----- the word count of an SDES packet -----

  lemma PieceSize(ps: seq<seq<Byte>>, i: nat)
    requires i < |ps|
    ensures |ps[i]| <= |Flatten(ps)|
  {
    FlattenSplit(ps, i);
  }

  /** If the whole packet is at most 262144 bytes, every word count fits. */
  lemma SmallPacketsFit(s: Build)
    requires s.Proper() && |Bytes(s)| <= MAX_WORD_COUNTED
    ensures WordCountsFit(s.chunks)
  {
    var d := SdesPackets(s.chunks);
    TotalExact(s);
    SdesSizeExact(s.chunks);
    forall i | 0 <= i < |d|
      ensures |d[i]| <= MAX_WORD_COUNTED
    {
      PieceSize(d, i);
    }
  }

  function Repeat(item: Item, n: nat): (r: seq<Item>)
    ensures |r| == n
  {
    if n == 0 then [] else Repeat(item, n - 1) + [item]
  }

  lemma {:induction false} RepeatSize(item: Item, n: nat)
    ensures ItemsSize(Repeat(item, n)) == n * ItemSize(item)
  {
    if n > 0 {
      RepeatSize(item, n - 1);
      ItemsSizeAppend(Repeat(item, n - 1), [item]);
      ItemsSizeOne(item);
    }
  }

  function ItemOps(n: nat, t: Text): seq<Op> {
    if n == 0 then [InitBuild(300000), StartReceiverReport(1), AddSDESSource(1)]
    else ItemOps(n - 1, t) + [AddSDESNormalItem(NOTE, t)]
  }

  lemma {:induction false} ItemOpsRun(n: nat, t: Text)
    requires |t| == 255 && n <= 1100
    ensures
      var s := Run(ItemOps(n, t));
      s == OneSource(Repeat(Item(7, t), n))
  {
    var ops := ItemOps(n, t);
    if n == 0 {
      var s1 := EMPTY.(max := 300000, building := true);
      var s2 := s1.(sender := RR(1));
      RunStep(ops, 0);
      RunStep(ops, 1);
      RunStep(ops, 2);
      assert Step(EMPTY, ops[0]).0 == s1;
      assert Step(s1, ops[1]).0 == s2;
      assert [] + [Chunk(1, [])] == [Chunk(1, [])];
      assert ops[..3] == ops;
    } else {
      ItemOpsRun(n - 1, t);
      assert ops[..|ops| - 1] == ItemOps(n - 1, t);
      ItemStep(t, n);
    }
  }

  /** The state of a run of ItemOps: one chunk of items. */
  function OneSource(items: seq<Item>): Build {
    Build(300000, true, false, RR(1), [], [Chunk(1, items)], [], [])
  }

  lemma OneSourceSize(t: Text, n: nat)
    requires |t| == 255
    ensures Total(OneSource(Repeat(Item(7, t), n))) == 16 + Align4(n * 257 + 1)
  {
    RepeatSize(Item(7, t), n);
    ChunksSizeOne(Chunk(1, Repeat(Item(7, t), n)));
  }

  /** One more item in a chunk that has fewer than 1100 of them is accepted. */
  lemma ItemStep(t: Text, n: nat)
    requires |t| == 255 && 0 < n <= 1100
    ensures
      Step(OneSource(Repeat(Item(7, t), n - 1)), AddSDESNormalItem(NOTE, t)) == (OneSource(Repeat(Item(7, t), n)), Ok)
  {
    var item := Item(7, t);
    assert WithItem([Chunk(1, Repeat(item, n - 1))], item) == [Chunk(1, Repeat(item, n))];
    OneSourceSize(t, n);
  }

  /** A run within its budget of 300000 bytes whose packet is not read back: 1021 items of 255
      bytes in one chunk need a word count of more than 16 bits. */
  lemma LongSourceLost(t: Text)
    requires |t| == 255
    ensures
      var s := Run(ItemOps(1021, t));
      && DoEnd(s).1 == Ok && Total(s) <= s.max
      && !WordCountsFit(s.chunks) && !Tiles(Bytes(s), Packets(s), true)
  {
    ItemOpsRun(1021, t);
    OneSourceSize(t, 1021);
    LongPacket(OneSource(Repeat(Item(7, t), 1021)));
  }

  lemma LongPacket(s: Build)
    requires s.Proper() && s.building && !s.sender.NoReport? && |s.chunks| == 1 && s.blocks == [] && s.apps == []
      && s.byes == []
    requires Total(s) > FixedSize(s.sender) + MAX_WORD_COUNTED
    ensures !WordCountsFit(s.chunks) && !Tiles(Bytes(s), Packets(s), true)
  {
    assert SdesPackets(s.chunks)[0] == SdesPacket(s.chunks);
    BoundariesKept(s);
  }
}
