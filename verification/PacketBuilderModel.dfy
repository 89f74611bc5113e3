/** What RTCPPacketBuilder does, as functions: how report blocks and SDES items are spread over
    successive compound packets with the "processed" marks of the sources and of the items. */
module PacketBuilderModel {
  import opened Wire
  import opened SdesParser
  import opened ReportFormat
  import opened ByeAppFormat
  import opened BuilderModel

  /** A source of the source table. Its report block is what its statistics amount to. */
  datatype Source = Source(block: ReportBlock, own: bool, csrc: bool, hassent: bool, lastrtp: real, processed: bool)

  /** One of the six items of the local participant that are not sent in every packet. */
  datatype LocalItem = LocalItem(kind: ItemType, value: Text, interval: int, due: bool, processed: bool)

  /** The order in which due items are sent. */
  const KINDS: seq<ItemType> := [NAME, EMAIL, LOC, PHONE, TOOL, NOTE]

  datatype Local = Local(
    init: bool, max: Size, first: bool, prev: real, cname: Text, items: seq<LocalItem>, processing: bool, count: nat)
  {
    predicate Shaped() {
      && |items| == |KINDS|
      && (forall k :: 0 <= k < |KINDS| ==> items[k].kind == KINDS[k])
      && (init ==> MIN_PACKET_SIZE <= max)
    }
  }

  /** What a call reads from elsewhere: the clock, the packet builder, the own source. */
  datatype Env = Env(ssrc: U32, sender: bool, info: SenderInfo, curtime: real)

  /** NullSource stands for a call that does not return: it follows a null pointer to a source. */
  datatype PackStatus =
    | Built | NotInit | AlreadyInit | IllegalMaxPackSize | IllegalTimestampUnit | PacketFilledTooSoon | LengthTooBig
    | Failed(status: Status) | NullSource

  // ----- the start of every packet -----

  function TooSoon(status: Status): (r: PackStatus) {
    if status == Ok then Built else if status == NotEnoughBytesLeft then PacketFilledTooSoon else Failed(status)
  }

  function ReportSender(env: Env, sender: bool): (s: Sender)
    ensures !s.NoReport?
  {
    if sender then SR(env.ssrc, env.info) else RR(env.ssrc)
  }

  /** A report without blocks, the own source and its CNAME. */
  function Begin(max: Size, sender: Sender, cname: Text): (r: (Build, PackStatus))
    requires !sender.NoReport?
  {
    var (b0, s0) := DoInit(EMPTY, max, MaxPacketSizeTooSmall);
    if s0 != Ok then (b0, Failed(s0))
    else
      var (b1, s1) := DoStart(b0, sender);
      if s1 != Ok then (b1, TooSoon(s1)) else AddCname(b1, sender.ssrc, cname)
  }

  function AddCname(b: Build, ssrc: U32, cname: Text): (r: (Build, PackStatus)) {
    var (b', s) := DoAddSource(b, ssrc);
    if s != Ok then (b', TooSoon(s))
    else
      var (b'', s') := DoAddNormalItem(b', CNAME, cname);
      (b'', TooSoon(s'))
  }

  // ----- report blocks -----

  /** Not ourselves, no contributing source, and something was received since the last packet. */
  predicate Reportable(s: Source, first: bool, prev: real) {
    !s.own && !s.csrc && s.hassent && (first || s.lastrtp > prev)
  }

  /** How a pass over the source table ends; `at` is where its cursor is, if not past the end. */
  datatype Filled = Filled(
    build: Build, table: seq<Source>, added: nat, skipped: nat, full: bool, at: Option<nat>, status: Status)

  function FillFrom(b: Build, table: seq<Source>, i: nat, first: bool, prev: real, max: int, added: nat,
      skipped: nat): (r: Filled)
    requires i < |table|
    ensures |r.table| == |table|
    ensures r.at.Some? ==> r.at.value < |table|
    decreases |table| - i
  {
    var s := table[i];
    if !Reportable(s, first, prev) then
      FillNext(b, table, i, first, prev, max, added, skipped)
    else if s.processed then
      FillNext(b, table, i, first, prev, max, added, skipped + 1)
    else
      var (b', status) := DoAddBlock(b, s.block);
      if status == NotEnoughBytesLeft then Filled(b', table, added, skipped, true, Some(i), Ok)
      else if status != Ok then Filled(b', table, added, skipped, false, Some(i), status)
      else
        var table' := table[i := s.(processed := true)];
        if added + 1 >= max then
          Filled(b', table', added + 1, skipped, false, if i + 1 < |table| then Some(i + 1) else None, Ok)
        else
          FillNext(b', table', i, first, prev, max, added + 1, skipped)
  }

  function FillNext(b: Build, table: seq<Source>, i: nat, first: bool, prev: real, max: int, added: nat,
      skipped: nat): (r: Filled)
    requires i < |table|
    ensures |r.table| == |table|
    ensures r.at.Some? ==> r.at.value < |table|
    decreases |table| - i, 0
  {
    if i + 1 < |table| then FillFrom(b, table, i + 1, first, prev, max, added, skipped)
    else Filled(b, table, added, skipped, false, None, Ok)
  }

  /** No source from `i` on is left to report. */
  predicate NoneLeft(table: seq<Source>, i: nat, first: bool, prev: real)
    decreases |table| - i
  {
    i < |table| ==> !(Reportable(table[i], first, prev) && !table[i].processed) && NoneLeft(table, i + 1, first, prev)
  }

  predicate AtEndOfList(r: Filled, first: bool, prev: real) {
    r.at.None? || NoneLeft(r.table, r.at.value, first, prev)
  }

  function ClearFlags(table: seq<Source>): (r: seq<Source>)
    ensures |r| == |table|
    ensures forall i :: 0 <= i < |table| ==> r[i] == table[i].(processed := false)
  {
    if table == [] then [] else [table[0].(processed := false)] + ClearFlags(table[1..])
  }

  // ----- SDES items -----

  predicate IsDue(item: LocalItem, count: nat) {
    item.interval > 0 && count % item.interval == 0
  }

  /** The items of cycle number `count`. */
  function StartCycle(items: seq<LocalItem>, count: nat): (r: seq<LocalItem>)
    ensures |r| == |items|
  {
    if items == [] then [] else [items[0].(due := IsDue(items[0], count))] + StartCycle(items[1..], count)
  }

  lemma {:induction false} StartCycleItem(items: seq<LocalItem>, count: nat, k: nat)
    requires k < |items|
    ensures StartCycle(items, count)[k] == items[k].(due := IsDue(items[k], count))
  {
    if k > 0 {
      StartCycleItem(items[1..], count, k - 1);
    }
  }

  function ClearProcessed(items: seq<LocalItem>): (r: seq<LocalItem>)
    ensures |r| == |items|
    ensures forall k :: 0 <= k < |items| ==> r[k] == items[k].(processed := false)
  {
    if items == [] then [] else [items[0].(processed := false)] + ClearProcessed(items[1..])
  }

  datatype SdesFilled = SdesFilled(build: Build, items: seq<LocalItem>, full: bool, added: nat)

  /** Adds the due items from number `k` on, up to the first that does not fit. Any other error of
      the builder is taken for success. */
  function FillItems(b: Build, items: seq<LocalItem>, k: nat, added: nat): (r: SdesFilled)
    requires k <= |items|
    ensures |r.items| == |items|
    ensures forall j :: 0 <= j < |items| ==> r.items[j] == items[j].(processed := r.items[j].processed)
    decreases |items| - k
  {
    if k == |items| then SdesFilled(b, items, false, added)
    else if !items[k].due || items[k].processed then FillItems(b, items, k + 1, added)
    else
      var (b', status) := DoAddNormalItem(b, items[k].kind, items[k].value);
      if status == NotEnoughBytesLeft then SdesFilled(b', items, true, added)
      else FillItems(b', items[k := items[k].(processed := true)], k + 1, added + 1)
  }

  // ----- the next packet -----

  /** The local state, the source table and the packet after a call. */
  datatype Outcome = Outcome(local: Local, table: seq<Source>, build: Build, status: PackStatus)

  /** Report blocks first; when all sources are covered, a new SDES cycle starts. With no source at
      all, the search for sources that are left looks at a current source that is not there. */
  function Fresh(l: Local, table: seq<Source>, b: Build): (o: Outcome)
    ensures |o.table| == |table|
  {
    if table == [] then Outcome(l, table, b, NullSource) else FreshBlocks(l, table, b)
  }

  function FreshBlocks(l: Local, table: seq<Source>, b: Build): (o: Outcome)
    requires table != []
    ensures |o.table| == |table|
  {
    AfterBlocks(l, FillFrom(b, table, 0, l.first, l.prev, |table|, 0, 0))
  }

  function AfterBlocks(l: Local, r: Filled): (o: Outcome)
    requires r.table != []
    ensures |o.table| == |r.table|
  {
    if r.status != Ok then Outcome(l, r.table, r.build, Failed(r.status))
    else if r.full && r.added == 0 then Outcome(l, r.table, r.build, PacketFilledTooSoon)
    else if r.full then Outcome(l, r.table, r.build, Built)
    else NewCycle(l, ClearFlags(r.table), r.build, r.skipped)
  }

  /** If all the items of the new cycle fit, what room is left goes to the sources that had been
      skipped because an earlier packet reported them. */
  function NewCycle(l: Local, table: seq<Source>, b: Build, skipped: nat): (o: Outcome)
    requires table != []
    ensures |o.table| == |table|
  {
    AfterItems(l, table, FillItems(b, StartCycle(l.items, l.count + 1), 0, 0), skipped)
  }

  function AfterItems(l: Local, table: seq<Source>, q: SdesFilled, skipped: nat): (o: Outcome)
    requires table != []
    ensures |o.table| == |table|
  {
    if q.full then Outcome(l.(processing := true, count := l.count + 1, items := q.items), table, q.build, Built)
    else Refill(l.(count := l.count + 1, items := ClearProcessed(q.items)), table, q.build, skipped)
  }

  function Refill(l: Local, table: seq<Source>, b: Build, skipped: nat): (o: Outcome)
    requires table != []
    ensures |o.table| == |table|
  {
    if skipped > 0 then
      var r := FillFrom(b, table, 0, l.first, l.prev, skipped, 0, 0);
      Outcome(l, r.table, r.build, if r.status != Ok then Failed(r.status) else Built)
    else Outcome(l, table, b, Built)
  }

  /** The rest of an unfinished SDES cycle first, given up if nothing could be added; then, if there
      is room, report blocks. */
  function Resume(l: Local, table: seq<Source>, b: Build): (o: Outcome)
    ensures |o.table| == |table|
  {
    AfterResumed(l, table, FillItems(b, l.items, 0, 0))
  }

  function AfterResumed(l: Local, table: seq<Source>, q: SdesFilled): (o: Outcome)
    ensures |o.table| == |table|
  {
    if q.added == 0 then Outcome(l.(items := q.items), table, q.build, PacketFilledTooSoon)
    else if q.full then Outcome(l.(items := q.items), table, q.build, Built)
    else AfterCycle(l.(processing := false, items := ClearProcessed(q.items)), table, q.build)
  }

  function AfterCycle(l: Local, table: seq<Source>, b: Build): (o: Outcome)
    ensures |o.table| == |table|
  {
    if table == [] then Outcome(l, table, b, NullSource) else AfterCycleBlocks(l, table, b)
  }

  function AfterCycleBlocks(l: Local, table: seq<Source>, b: Build): (o: Outcome)
    requires table != []
    ensures |o.table| == |table|
  {
    var r := FillFrom(b, table, 0, l.first, l.prev, |table|, 0, 0);
    if r.status != Ok then Outcome(l, r.table, r.build, Failed(r.status))
    else Outcome(l, if AtEndOfList(r, l.first, l.prev) then ClearFlags(r.table) else r.table, r.build, Built)
  }

  function Fill(l: Local, table: seq<Source>, b: Build): (o: Outcome)
    ensures |o.table| == |table|
  {
    if l.processing then Resume(l, table, b) else Fresh(l, table, b)
  }

  /** Fills a packet that was started and ends it. */
  function Complete(l: Local, table: seq<Source>, b: Build, curtime: real): (o: Outcome)
    ensures |o.table| == |table|
  {
    Ended(Fill(l, table, b), curtime)
  }

  function Ended(o: Outcome, curtime: real): (r: Outcome)
    ensures |r.table| == |o.table|
  {
    if o.status != Built then o
    else if DoEnd(o.build).1 != Ok then o.(status := Failed(DoEnd(o.build).1))
    else o.(local := o.local.(first := false, prev := curtime))
  }

  function NextPacket(l: Local, table: seq<Source>, env: Env): (o: Outcome)
    ensures |o.table| == |table|
  {
    if !l.init then Outcome(l, table, EMPTY, NotInit)
    else
      var (b, status) := Begin(l.max, ReportSender(env, env.sender), l.cname);
      if status != Built then Outcome(l, table, b, status) else Complete(l, table, b, env.curtime)
  }

  /** Adds the BYE packet and ends the packet. */
  function CompleteBye(b: Build, bye: Bye): (r: (Build, PackStatus)) {
    var (b', s) := DoAddBye(b, bye);
    if s != Ok then (b', TooSoon(s))
    else if DoEnd(b').1 != Ok then (b', Failed(DoEnd(b').1))
    else (b', Built)
  }

  /** A report, the CNAME and a BYE packet for the own source. */
  function ByePacket(l: Local, reason: seq<Byte>, usesr: bool, env: Env): (r: (Build, PackStatus)) {
    if !l.init then (EMPTY, NotInit)
    else
      var (b, status) := Begin(l.max, ReportSender(env, usesr && env.sender), l.cname);
      if status != Built then (b, status) else CompleteBye(b, Bye([env.ssrc], Truncated(reason)))
  }

  /** Longer texts are cut off. */
  function Truncated(t: seq<Byte>): (r: Text) {
    if |t| > 255 then t[..255] else t
  }

  // ----- the other calls -----

  /** The first state: nothing is set. */
  const NEW_ITEMS: seq<LocalItem> := [
    LocalItem(NAME, [], -1, false, false), LocalItem(EMAIL, [], -1, false, false), LocalItem(LOC, [], -1, false, false),
    LocalItem(PHONE, [], -1, false, false), LocalItem(TOOL, [], -1, false, false),
    LocalItem(NOTE, [], -1, false, false)]

  const NEW_LOCAL := Local(false, 0, true, 0.0, [], NEW_ITEMS, false, 0)

  function WithoutIntervals(items: seq<LocalItem>): (r: seq<LocalItem>)
    ensures |r| == |items|
    ensures forall k :: 0 <= k < |items| ==> r[k] == items[k].(interval := -1)
  {
    if items == [] then [] else [items[0].(interval := -1)] + WithoutIntervals(items[1..])
  }

  /** The marks and values of the items are left as they are. */
  function DoInitLocal(l: Local, max: Size, tsunit: real, cname: seq<Byte>): (r: (Local, PackStatus)) {
    if l.init then (l, AlreadyInit)
    else if max < MIN_PACKET_SIZE then (l, IllegalMaxPackSize)
    else if tsunit < 0.0 then (l, IllegalTimestampUnit)
    else (Local(true, max, true, l.prev, Truncated(cname), WithoutIntervals(l.items), false, 0), Built)
  }

  function DoSetMax(l: Local, max: Size): (r: (Local, PackStatus)) {
    if !l.init then (l, NotInit)
    else if max < MIN_PACKET_SIZE then (l, IllegalMaxPackSize)
    else (l.(max := max), Built)
  }

  function DoSetInterval(l: Local, k: nat, interval: int): (r: Local)
    requires k < |l.items|
  {
    if l.init then l.(items := l.items[k := l.items[k].(interval := interval)]) else l
  }

  function DoSetItem(l: Local, k: nat, value: seq<Byte>): (r: (Local, PackStatus))
    requires k < |l.items|
  {
    if !l.init then (l, NotInit)
    else if |value| > 255 then (l, LengthTooBig)
    else (l.(items := l.items[k := l.items[k].(value := value)]), Built)
  }
}
