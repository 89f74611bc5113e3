/** RTCPPacketBuilder and the source table it walks over, proved against the functions of
    PacketBuilderModel. */
module PacketBuilder {
  import opened Wire
  import opened SdesParser
  import opened ByeAppFormat
  import opened CompoundPacket
  import opened BuilderModel
  import opened PacketWriter
  import opened CompoundBuilder
  import opened PacketBuilderModel

  /** The part of RTPSources that is used: a list of sources and a cursor. */
  class RTPSources {
    var table: seq<Source>
    var current: nat

    constructor (sources: seq<Source>)
      ensures table == sources
    {
      table := sources;
      current := 0;
    }

    method GotoFirstSource() returns (found: bool)
      modifies this`current
      ensures current == 0 && found == (table != [])
    {
      current := 0;
      return |table| > 0;
    }

    method GotoNextSource() returns (found: bool)
      requires current < |table|
      modifies this`current
      ensures current == old(current) + 1 && found == (current < |table|)
    {
      current := current + 1;
      return current < |table|;
    }

    function GetCurrentSourceInfo(): Source
      requires current < |table|
      reads this
    {
      table[current]
    }

    method SetProcessedInRTCP(at: nat, v: bool)
      requires at < |table|
      modifies this`table
      ensures table == old(table)[at := old(table)[at].(processed := v)]
    {
      table := table[at := table[at].(processed := v)];
    }
  }

  class RTCPPacketBuilder {
    const sources: RTPSources
    var init: bool
    var maxpacketsize: Size
    var timestampunit: real
    var firstpacket: bool
    var prevbuildtime: real
    var cname: Text
    var items: seq<LocalItem>
    var processingsdes: bool
    var sdesbuildcount: nat

    function State(): Local
      reads this
    {
      Local(init, maxpacketsize, firstpacket, prevbuildtime, cname, items, processingsdes, sdesbuildcount)
    }

    constructor (s: RTPSources)
      ensures State() == NEW_LOCAL && sources == s
    {
      sources := s;
      init, maxpacketsize, timestampunit := false, 0, 0.0;
      firstpacket, prevbuildtime := true, 0.0;
      cname, items := [], NEW_ITEMS;
      processingsdes, sdesbuildcount := false, 0;
    }

    method Init(maxpacksize: Size, tsunit: real, name: seq<Byte>) returns (status: PackStatus)
      modifies this, sources
      ensures (State(), status) == DoInitLocal(old(State()), maxpacksize, tsunit, name)
      ensures sources.table == if status == Built then ClearFlags(old(sources.table)) else old(sources.table)
    {
      if init { return AlreadyInit; }
      if maxpacksize < MIN_PACKET_SIZE { return IllegalMaxPackSize; }
      if tsunit < 0.0 { return IllegalTimestampUnit; }
      maxpacketsize := maxpacksize;
      timestampunit := tsunit;
      cname := if |name| > 255 then name[..255] else name;
      ClearAllSourceFlags();
      items := WithoutIntervals(items);
      sdesbuildcount := 0;
      firstpacket := true;
      processingsdes := false;
      init := true;
      return Built;
    }

    method Destroy()
      modifies this`init
      ensures State() == old(State()).(init := false)
    {
      init := false;
    }

    method SetMaximumPacketSize(maxpacksize: Size) returns (status: PackStatus)
      modifies this`maxpacketsize
      ensures (State(), status) == DoSetMax(old(State()), maxpacksize)
    {
      if !init { return NotInit; }
      if maxpacksize < MIN_PACKET_SIZE { return IllegalMaxPackSize; }
      maxpacketsize := maxpacksize;
      return Built;
    }

    /** SetNameInterval and its five siblings. */
    method SetInterval(k: nat, count: int)
      requires k < |items|
      modifies this`items
      ensures State() == DoSetInterval(old(State()), k, count)
    {
      if !init { return; }
      items := items[k := items[k].(interval := count)];
    }

    /** SetLocalName and its five siblings. */
    method SetLocalItem(k: nat, s: seq<Byte>) returns (status: PackStatus)
      requires k < |items|
      modifies this`items
      ensures (State(), status) == DoSetItem(old(State()), k, s)
    {
      if !init { return NotInit; }
      if |s| > 255 { return LengthTooBig; }
      items := items[k := items[k].(value := s)];
      return Built;
    }

    method ClearAllSourceFlags()
      modifies sources
      ensures sources.table == ClearFlags(old(sources.table))
    {
      var more := sources.GotoFirstSource();
      while more
        invariant sources.current <= |sources.table| == |old(sources.table)|
          && more == (sources.current < |sources.table|)
        invariant forall i :: 0 <= i < |sources.table| ==>
          sources.table[i]
          == if i < sources.current then old(sources.table)[i].(processed := false) else old(sources.table)[i]
        decreases |sources.table| - sources.current
      {
        sources.SetProcessedInRTCP(sources.current, false);
        more := sources.GotoNextSource();
      }
    }

    /** Whether a source should be in the next packet at all. */
    method ShouldProcess(srcdat: Source) returns (shouldprocess: bool)
      ensures shouldprocess == Reportable(srcdat, firstpacket, prevbuildtime)
    {
      shouldprocess := false;
      if !srcdat.own {
        if !srcdat.csrc {
          if srcdat.hassent {
            if firstpacket {
              shouldprocess := true;
            } else {
              if srcdat.lastrtp > prevbuildtime {
                shouldprocess := true;
              }
            }
          }
        }
      }
    }

    /** Where the loop of FillInReportBlocks is: still to go on from the cursor, or finished. */
    ghost predicate LoopAt(whole: Filled, b: Build, maxcount: int, added: nat, skipped: nat, done: bool,
        filled: bool, atend: bool)
      reads this, sources
    {
      && sources.current <= |sources.table|
      && if done then
           && whole
              == Filled(b, sources.table, added, skipped, filled, if atend then None else Some(sources.current), Ok)
           && (atend || sources.current < |sources.table|)
         else
           && sources.current < |sources.table| && !filled && !atend
           && whole == FillFrom(b, sources.table, sources.current, firstpacket, prevbuildtime, maxcount, added, skipped)
    }

    /** Without any source the first loop is not entered, and the second begins with the current source,
        which is a null pointer: `crash`. */
    method FillInReportBlocks(pack: RTCPCompoundPacketBuilder, maxcount: int)
        returns (status: Status, full: bool, added: nat, skipped: nat, atendoflist: bool, crash: bool)
      requires pack.Valid()
      modifies pack.report, pack`state, sources
      ensures pack.Valid() && crash == (old(sources.table) == [])
      ensures crash ==> pack.state == old(pack.state) && sources.table == old(sources.table)
      ensures !crash ==>
        var r := FillFrom(old(pack.state), old(sources.table), 0, firstpacket, prevbuildtime, maxcount, 0, 0);
        && pack.state == r.build && sources.table == r.table && status == r.status
        && (status == Ok ==> full == r.full && added == r.added && skipped == r.skipped
                             && atendoflist == AtEndOfList(r, firstpacket, prevbuildtime))
    {
      crash := |sources.table| == 0;
      if crash { return Ok, false, 0, 0, false, true; }
      status, full, added, skipped, atendoflist := VisitSources(pack, maxcount);
      if status == Ok && !atendoflist {
        atendoflist := SearchAvailable();
      }
    }

    /** The first loop of FillInReportBlocks, over the sources. */
    method VisitSources(pack: RTCPCompoundPacketBuilder, maxcount: int)
        returns (status: Status, filled: bool, added: nat, skipped: nat, atend: bool)
      requires pack.Valid() && sources.table != []
      modifies pack.report, pack`state, sources
      ensures pack.Valid()
      ensures
        var r := FillFrom(old(pack.state), old(sources.table), 0, firstpacket, prevbuildtime, maxcount, 0, 0);
        if status != Ok then r.status == status && r.build == pack.state && r.table == sources.table
        else LoopAt(r, pack.state, maxcount, added, skipped, true, filled, atend)
    {
      ghost var whole := FillFrom(pack.state, sources.table, 0, firstpacket, prevbuildtime, maxcount, 0, 0);
      status, added, skipped := Ok, 0, 0;
      filled, atend := false, false;
      var done := false;
      var first := sources.GotoFirstSource();
      while !done
        invariant pack.Valid() && status == Ok
          && LoopAt(whole, pack.state, maxcount, added, skipped, done, filled, atend)
        decreases !done, |sources.table| - sources.current
      {
        status, added, skipped, done, filled, atend := VisitSource(pack, maxcount, added, skipped, whole);
        if status != Ok { return; }
      }
    }

    /** One turn of the loop above: the source at the cursor, and on to the next. */
    method VisitSource(pack: RTCPCompoundPacketBuilder, maxcount: int, before: nat, skippedbefore: nat,
        ghost whole: Filled)
        returns (status: Status, added: nat, skipped: nat, done: bool, filled: bool, atend: bool)
      requires pack.Valid() && LoopAt(whole, pack.state, maxcount, before, skippedbefore, false, false, false)
      modifies pack.report, pack`state, sources
      ensures pack.Valid() && (done || sources.current > old(sources.current))
        && |sources.table| == |old(sources.table)|
      ensures
        if status != Ok then whole.status == status && whole.build == pack.state && whole.table == sources.table
        else LoopAt(whole, pack.state, maxcount, added, skipped, done, filled, atend)
    {
      status, added, skipped, done, filled, atend := ConsiderSource(pack, maxcount, before, skippedbefore, whole);
      if status != Ok { return; }
      if !done {
        done, atend := NextSource(pack, maxcount, added, skipped, whole);
      }
    }

    /** Where the loop is after the source at the cursor: failed, finished, or about to go to the next. */
    ghost predicate Considered(whole: Filled, b: Build, maxcount: int, status: Status, added: nat, skipped: nat,
        done: bool, filled: bool, atend: bool)
      reads this, sources
    {
      if status != Ok then whole.status == status && whole.build == b && whole.table == sources.table
      else if done then LoopAt(whole, b, maxcount, added, skipped, true, filled, atend)
      else
        && !filled && !atend && sources.current < |sources.table|
        && whole == FillNext(b, sources.table, sources.current, firstpacket, prevbuildtime, maxcount, added, skipped)
    }

    method ConsiderSource(pack: RTCPCompoundPacketBuilder, maxcount: int, before: nat, skippedbefore: nat,
        ghost whole: Filled)
        returns (status: Status, added: nat, skipped: nat, done: bool, filled: bool, atend: bool)
      requires pack.Valid() && LoopAt(whole, pack.state, maxcount, before, skippedbefore, false, false, false)
      modifies pack.report, pack`state, sources
      ensures pack.Valid() && |sources.table| == |old(sources.table)|
      ensures !done ==> status == Ok && sources.current == old(sources.current)
      ensures Considered(whole, pack.state, maxcount, status, added, skipped, done, filled, atend)
    {
      status, added, skipped := Ok, before, skippedbefore;
      done, filled, atend := false, false, false;
      var srcdat := sources.GetCurrentSourceInfo();
      var shouldprocess := ShouldProcess(srcdat);
      if shouldprocess {
        if srcdat.processed {
          skipped := skipped + 1;
        } else {
          status, added, done, filled, atend := ReportSource(pack, maxcount, before, skipped, whole);
          if status != Ok { done := true; }
        }
      }
    }

    method NextSource(pack: RTCPCompoundPacketBuilder, ghost maxcount: int, ghost added: nat, ghost skipped: nat,
        ghost whole: Filled)
        returns (done: bool, atend: bool)
      requires sources.current < |sources.table|
      requires whole == FillNext(pack.state, sources.table, sources.current, firstpacket, prevbuildtime, maxcount,
        added, skipped)
      modifies sources`current
      ensures sources.current > old(sources.current)
      ensures LoopAt(whole, pack.state, maxcount, added, skipped, done, false, atend)
    {
      done, atend := false, false;
      var more := sources.GotoNextSource();
      if !more {
        atend := true;
        done := true;
      }
    }

    /** Adds a block for the source at the cursor and marks the source. */
    method ReportSource(pack: RTCPCompoundPacketBuilder, maxcount: int, before: nat, ghost skipped: nat,
        ghost whole: Filled)
        returns (status: Status, added: nat, done: bool, filled: bool, atend: bool)
      requires pack.Valid() && sources.current < |sources.table|
      requires Reportable(sources.table[sources.current], firstpacket, prevbuildtime)
        && !sources.table[sources.current].processed
      requires whole == FillFrom(pack.state, sources.table, sources.current, firstpacket, prevbuildtime, maxcount,
        before, skipped)
      modifies pack.report, pack`state, sources
      ensures pack.Valid() && |sources.table| == |old(sources.table)|
      ensures !done ==> sources.current == old(sources.current)
      ensures Considered(whole, pack.state, maxcount, status, added, skipped, done, filled, atend)
    {
      added := before;
      done, filled, atend := false, false, false;
      var srcdat := sources.GetCurrentSourceInfo();
      status := pack.AddReportBlock(srcdat.block);
      if status != Ok {
        if status == NotEnoughBytesLeft {
          status := Ok;
          done := true;
          filled := true;
        }
      } else {
        added, done, atend := BlockAdded(pack, maxcount, before, skipped, whole);
      }
    }

    /** The pass after the block of source `i` was added and the source marked. */
    ghost function AfterBlock(b: Build, table: seq<Source>, i: nat, maxcount: int, added: nat, skipped: nat): Filled
      requires i < |table|
      reads this
    {
      if added >= maxcount then
        Filled(b, table, added, skipped, false, if i + 1 < |table| then Some(i + 1) else None, Ok)
      else FillNext(b, table, i, firstpacket, prevbuildtime, maxcount, added, skipped)
    }

    method BlockAdded(ghost pack: RTCPCompoundPacketBuilder, maxcount: int, before: nat, ghost skipped: nat,
        ghost whole: Filled)
        returns (added: nat, done: bool, atend: bool)
      requires pack.Valid() && sources.current < |sources.table|
      requires
        var i := sources.current;
        whole == AfterBlock(pack.state, sources.table[i := sources.table[i].(processed := true)], i, maxcount,
          before + 1, skipped)
      modifies sources
      ensures pack.Valid() && |sources.table| == |old(sources.table)|
      ensures !done ==> sources.current == old(sources.current)
      ensures Considered(whole, pack.state, maxcount, Ok, added, skipped, done, false, atend)
    {
      added := before + 1;
      done, atend := MarkReported(added >= maxcount, pack);
    }

    /** Marks the source at the cursor; the cursor moves on if this was the last one allowed. */
    method MarkReported(last: bool, ghost pack: RTCPCompoundPacketBuilder) returns (done: bool, atend: bool)
      requires sources.current < |sources.table| && pack.Valid()
      modifies sources
      ensures pack.Valid()
      ensures
        var i := old(sources.current);
        && sources.table == old(sources.table)[i := old(sources.table)[i].(processed := true)]
        && done == last && sources.current == (if last then i + 1 else i)
        && atend == (last && i + 1 == |sources.table|)
    {
      done, atend := last, false;
      var at := sources.current;
      if last {
        var more := sources.GotoNextSource();
        if !more { atend := true; }
      }
      sources.SetProcessedInRTCP(at, true);
    }

    /** Looks for a source that could still be reported, from the cursor on. */
    method SearchAvailable() returns (atend: bool)
      requires sources.current < |sources.table|
      modifies sources`current
      ensures atend == NoneLeft(sources.table, old(sources.current), firstpacket, prevbuildtime)
    {
      ghost var none := NoneLeft(sources.table, sources.current, firstpacket, prevbuildtime);
      atend := false;
      var shouldprocess := false;
      while !atend && !shouldprocess
        invariant sources.current <= |sources.table|
        invariant if atend then none && sources.current == |sources.table| else sources.current < |sources.table|
        invariant !atend ==>
          none == if shouldprocess then false else NoneLeft(sources.table, sources.current, firstpacket, prevbuildtime)
        decreases !shouldprocess, |sources.table| - sources.current
      {
        var srcdat := sources.GetCurrentSourceInfo();
        shouldprocess := ShouldProcess(srcdat);
        if shouldprocess {
          if srcdat.processed { shouldprocess := false; }
        }
        if !shouldprocess {
          var more := sources.GotoNextSource();
          if !more { atend := true; }
        }
      }
    }

    /** The items from number `k` on are still to be tried. */
    ghost predicate ItemsLeft(whole: SdesFilled, b: Build, k: nat, added: nat)
      reads this
    {
      k <= |items| && whole == FillItems(b, items, k, added)
    }

    /** Adds item number `k` if it is due and not sent yet. */
    method AddLocalItem(pack: RTCPCompoundPacketBuilder, k: nat, before: nat, ghost whole: SdesFilled)
        returns (full: bool, added: nat)
      requires pack.Valid() && k < |items| && ItemsLeft(whole, pack.state, k, before)
      modifies pack.sdes, pack.sdes.sdessources, pack`state, this`items
      ensures pack.Valid() && pack.sdes.sdessources == old(pack.sdes.sdessources) && |items| == |old(items)|
      ensures if full then whole == SdesFilled(pack.state, items, true, added)
              else ItemsLeft(whole, pack.state, k + 1, added)
    {
      full, added := false, before;
      if items[k].due {
        if !items[k].processed {
          var status := pack.AddSDESNormalItem(items[k].kind, items[k].value);
          if status == NotEnoughBytesLeft {
            full := true;
            return;
          }
          added := added + 1;
          items := items[k := items[k].(processed := true)];
        }
      }
    }

    /** Name, e-mail, location, phone, tool and note, in this order. */
    method FillInSDES(pack: RTCPCompoundPacketBuilder) returns (full: bool, processedall: bool, added: nat)
      requires pack.Valid() && |items| == |KINDS|
      modifies pack.sdes, pack.sdes.sdessources, pack`state, this`items
      ensures pack.Valid() && pack.sdes.sdessources == old(pack.sdes.sdessources)
      ensures SdesFilled(pack.state, items, full, added) == FillItems(old(pack.state), old(items), 0, 0)
      ensures processedall == !full
    {
      ghost var whole := FillItems(pack.state, items, 0, 0);
      processedall := false;
      full, added := AddThreeItems(pack, 0, 0, whole);
      if full { return; }
      full, added := AddThreeItems(pack, 3, added, whole);
      if full { return; }
      processedall := true;
    }

    /** One half of the items. */
    method AddThreeItems(pack: RTCPCompoundPacketBuilder, k: nat, before: nat, ghost whole: SdesFilled)
        returns (full: bool, added: nat)
      requires pack.Valid() && k + 3 <= |items| && ItemsLeft(whole, pack.state, k, before)
      modifies pack.sdes, pack.sdes.sdessources, pack`state, this`items
      ensures pack.Valid() && pack.sdes.sdessources == old(pack.sdes.sdessources) && |items| == |old(items)|
      ensures if full then whole == SdesFilled(pack.state, items, true, added)
              else ItemsLeft(whole, pack.state, k + 3, added)
    {
      full, added := AddLocalItem(pack, k, before, whole);
      if full { return; }
      full, added := AddLocalItem(pack, k + 1, added, whole);
      if full { return; }
      full, added := AddLocalItem(pack, k + 2, added, whole);
    }

    /** The objects of a packet under construction are new. */
    twostate predicate NewObjects(new pack: RTCPCompoundPacketBuilder)
      reads pack, pack.sdes
    {
      && fresh(pack.report) && fresh(pack.sdes)
      && forall i :: 0 <= i < |pack.sdes.sdessources| ==> fresh(pack.sdes.sdessources[i])
    }

    /** The start of every packet: the report, the own source and its CNAME. */
    method StartPacket(env: Env, sender: bool) returns (pack: RTCPCompoundPacketBuilder, status: PackStatus)
      ensures fresh(pack) && NewObjects(pack) && pack.Valid()
      ensures (pack.state, status) == Begin(maxpacketsize, ReportSender(env, sender), cname)
      ensures status == Built ==> !pack.external
    {
      pack := new RTCPCompoundPacketBuilder();
      var s := pack.InitBuild(maxpacketsize);
      if s != Ok { return pack, Failed(s); }
      s := StartReport(pack, env, sender);
      if s != Ok { return pack, TooSoon(s); }
      status := AddOwnCname(pack, env.ssrc);
    }

    method StartReport(pack: RTCPCompoundPacketBuilder, env: Env, sender: bool) returns (s: Status)
      requires pack.Valid()
      modifies pack.report, pack`state
      ensures pack.Valid() && (pack.state, s) == DoStart(old(pack.state), ReportSender(env, sender))
    {
      if sender {
        s := pack.StartSenderReport(env.ssrc, env.info);
      } else {
        s := pack.StartReceiverReport(env.ssrc);
      }
    }

    method AddOwnCname(pack: RTCPCompoundPacketBuilder, ssrc: U32) returns (status: PackStatus)
      requires pack.Valid() && pack.sdes.sdessources == []
      modifies pack.sdes, pack`state
      ensures pack.Valid() && (pack.state, status) == AddCname(old(pack.state), ssrc, cname)
      ensures forall i :: 0 <= i < |pack.sdes.sdessources| ==> fresh(pack.sdes.sdessources[i])
    {
      var s := pack.AddSDESSource(ssrc);
      forall i | 0 <= i < |pack.sdes.sdessources|
        ensures fresh(pack.sdes.sdessources[i])
      {
        assert pack.sdes.sdessources[i] in pack.sdes.sdessources;
      }
      if s != Ok { return TooSoon(s); }
      s := pack.AddSDESNormalItem(CNAME, cname);
      return TooSoon(s);
    }

    // ----- the next packet -----

    /** When no SDES cycle is under way: report blocks, and if all sources are covered a new cycle. */
    method FillFresh(pack: RTCPCompoundPacketBuilder) returns (status: PackStatus)
      requires pack.Valid() && |items| == |KINDS| && !processingsdes
      modifies pack.report, pack.sdes, pack.sdes.sdessources, pack`state, sources, this
      ensures pack.Valid()
      ensures Outcome(State(), sources.table, pack.state, status)
        == Fresh(old(State()), old(sources.table), old(pack.state))
    {
      ghost var whole := Fresh(State(), sources.table, pack.state);
      var s, full, added, skipped, atend, crash := FillInReportBlocks(pack, |sources.table|);
      if crash { return NullSource; }
      if s != Ok { return Failed(s); }
      status := AfterReports(pack, full, added, skipped, whole);
    }

    method AfterReports(pack: RTCPCompoundPacketBuilder, full: bool, added: nat, skipped: nat, ghost whole: Outcome)
        returns (status: PackStatus)
      requires pack.Valid() && sources.table != [] && |items| == |KINDS| && !processingsdes
      requires
        exists at :: whole == AfterBlocks(State(), Filled(pack.state, sources.table, added, skipped, full, at, Ok))
      modifies pack.report, pack.sdes, pack.sdes.sdessources, pack`state, sources, this
      ensures pack.Valid() && Outcome(State(), sources.table, pack.state, status) == whole
    {
      if full && added == 0 { return PacketFilledTooSoon; }
      status := Built;
      if !full {
        ClearAllSourceFlags();
        status := StartSdesCycle(pack, skipped);
      }
    }

    method StartSdesCycle(pack: RTCPCompoundPacketBuilder, skipped: nat) returns (status: PackStatus)
      requires pack.Valid() && sources.table != [] && |items| == |KINDS| && !processingsdes
      modifies pack.report, pack.sdes, pack.sdes.sdessources, pack`state, sources, this
      ensures pack.Valid()
      ensures Outcome(State(), sources.table, pack.state, status)
        == NewCycle(old(State()), old(sources.table), old(pack.state), skipped)
    {
      ghost var before := State();
      ghost var whole := NewCycle(before, sources.table, pack.state, skipped);
      BeginCycle();
      status := FillCycle(pack, skipped, before, whole);
    }

    method BeginCycle()
      modifies this`processingsdes, this`sdesbuildcount, this`items
      ensures
        var l := old(State());
        State() == l.(processing := true, count := l.count + 1, items := StartCycle(l.items, l.count + 1))
    {
      processingsdes := true;
      sdesbuildcount := sdesbuildcount + 1;
      items := StartCycle(items, sdesbuildcount);
    }

    /** The items of the new cycle, which began in the state `before`. */
    method FillCycle(pack: RTCPCompoundPacketBuilder, skipped: nat, ghost before: Local, ghost whole: Outcome)
        returns (status: PackStatus)
      requires pack.Valid() && sources.table != [] && |items| == |KINDS| && !before.processing
      requires State() == before.(processing := true, count := before.count + 1, items := items)
      requires whole == AfterItems(before, sources.table, FillItems(pack.state, items, 0, 0), skipped)
      modifies pack.report, pack.sdes, pack.sdes.sdessources, pack`state, sources, this
      ensures pack.Valid() && Outcome(State(), sources.table, pack.state, status) == whole
    {
      var full, processedall, itemcount := FillInSDES(pack);
      status := EndCycle(pack, full, processedall, skipped, before, itemcount, whole);
    }

    /** Whether the new cycle is over already. */
    method EndCycle(pack: RTCPCompoundPacketBuilder, full: bool, processedall: bool, skipped: nat,
                    ghost before: Local, ghost added: nat, ghost whole: Outcome)
        returns (status: PackStatus)
      requires pack.Valid() && sources.table != [] && processedall == !full && !before.processing
      requires State() == before.(processing := true, count := before.count + 1, items := items)
      requires whole == AfterItems(before, sources.table, SdesFilled(pack.state, items, full, added), skipped)
      modifies pack.report, pack`state, sources, this
      ensures pack.Valid() && Outcome(State(), sources.table, pack.state, status) == whole
    {
      status := Built;
      if processedall {
        processingsdes := false;
        items := ClearProcessed(items);
        if !full && skipped > 0 {
          status := FillSkipped(pack, skipped);
        }
      }
    }

    method FillSkipped(pack: RTCPCompoundPacketBuilder, skipped: nat) returns (status: PackStatus)
      requires pack.Valid() && sources.table != [] && skipped > 0
      modifies pack.report, pack`state, sources
      ensures pack.Valid()
      ensures Outcome(State(), sources.table, pack.state, status)
        == Refill(State(), old(sources.table), old(pack.state), skipped)
    {
      var s, full, added, skippednow, atend, crash := FillInReportBlocks(pack, skipped);
      if s != Ok { return Failed(s); }
      return Built;
    }

    /** When a cycle is under way: the rest of it, and if it ends here report blocks. */
    method FillResumed(pack: RTCPCompoundPacketBuilder) returns (status: PackStatus)
      requires pack.Valid() && |items| == |KINDS|
      modifies pack.report, pack.sdes, pack.sdes.sdessources, pack`state, sources, this
      ensures pack.Valid()
      ensures Outcome(State(), sources.table, pack.state, status)
        == Resume(old(State()), old(sources.table), old(pack.state))
    {
      ghost var whole := Resume(State(), sources.table, pack.state);
      var full, processedall, itemcount := FillInSDES(pack);
      status := EndResumed(pack, full, processedall, itemcount, whole);
    }

    method EndResumed(pack: RTCPCompoundPacketBuilder, full: bool, processedall: bool, itemcount: nat,
        ghost whole: Outcome)
        returns (status: PackStatus)
      requires pack.Valid() && processedall == !full
      requires whole == AfterResumed(State(), sources.table, SdesFilled(pack.state, items, full, itemcount))
      modifies pack.report, pack`state, sources, this
      ensures pack.Valid() && Outcome(State(), sources.table, pack.state, status) == whole
    {
      if itemcount == 0 { return PacketFilledTooSoon; }
      status := Built;
      if processedall {
        processingsdes := false;
        items := ClearProcessed(items);
        if !full {
          status := FillAfterCycle(pack);
        }
      }
    }

    method FillAfterCycle(pack: RTCPCompoundPacketBuilder) returns (status: PackStatus)
      requires pack.Valid()
      modifies pack.report, pack`state, sources
      ensures pack.Valid()
      ensures Outcome(State(), sources.table, pack.state, status)
        == AfterCycle(State(), old(sources.table), old(pack.state))
    {
      var s, full, added, skipped, atend, crash := FillInReportBlocks(pack, |sources.table|);
      if crash { return NullSource; }
      if s != Ok { return Failed(s); }
      if atend {
        ClearAllSourceFlags();
      }
      return Built;
    }

    /** The finished packet: the bytes and the packet objects of a build. */
    ghost predicate Finished(pack: RTCPCompoundPacketBuilder, b: Build)
      requires b.Proper()
      reads pack, pack.compoundpacket
    {
      && pack.compoundpacket != null && pack.compoundpacketlength == |Bytes(b)|
      && Written(pack.compoundpacket, Bytes(b)) && Represents(pack.rtcppacklist, Packets(b))
    }

    /** EndBuild and its error. */
    method FinishPacket(p: RTCPCompoundPacketBuilder) returns (pack: RTCPCompoundPacketBuilder?, status: PackStatus)
      requires p.Valid() && !p.external
      modifies p, p.report, p.sdes
      ensures old(p.state).Proper()
      ensures
        var s := DoEnd(old(p.state)).1;
        if s != Ok then pack == null && status == Failed(s)
        else pack == p && status == Built && Finished(p, old(p.state))
    {
      var s := p.EndBuild();
      if s != Ok { return null, Failed(s); }
      return p, Built;
    }

    method FillPacket(pack: RTCPCompoundPacketBuilder) returns (status: PackStatus)
      requires pack.Valid() && |items| == |KINDS|
      modifies pack.report, pack.sdes, pack.sdes.sdessources, pack`state, sources, this
      ensures pack.Valid()
      ensures
        Outcome(State(), sources.table, pack.state, status) == Fill(old(State()), old(sources.table), old(pack.state))
    {
      if !processingsdes {
        status := FillFresh(pack);
      } else {
        status := FillResumed(pack);
      }
    }

    method CompletePacket(p: RTCPCompoundPacketBuilder, curtime: real)
        returns (pack: RTCPCompoundPacketBuilder?, status: PackStatus)
      requires p.Valid() && !p.external
      requires |items| == |KINDS|
      modifies p, p.report, p.sdes, p.sdes.sdessources, sources, this
      ensures
        var o := Complete(old(State()), old(sources.table), old(p.state), curtime);
        && State() == o.local && sources.table == o.table && status == o.status
        && (status == Built ==> pack != null && o.build.Proper() && Finished(pack, o.build))
    {
      ghost var o := Fill(State(), sources.table, p.state);
      status := FillPacket(p);
      if status != Built { return null, status; }
      pack, status := EndPacket(p, curtime, o);
    }

    /** The end of a packet that was filled. */
    method EndPacket(p: RTCPCompoundPacketBuilder, curtime: real, ghost o: Outcome)
        returns (pack: RTCPCompoundPacketBuilder?, status: PackStatus)
      requires p.Valid() && !p.external && o == Outcome(State(), sources.table, p.state, Built)
      modifies p, p.report, p.sdes, this`firstpacket, this`prevbuildtime
      ensures
        var e := Ended(o, curtime);
        && State() == e.local && sources.table == e.table && status == e.status
        && (status == Built ==> pack != null && e.build.Proper() && Finished(pack, e.build))
    {
      pack, status := FinishPacket(p);
      if status == Built {
        firstpacket := false;
        prevbuildtime := curtime;
      }
    }

    /** NullSource is no result of the code: it does not return. */
    method BuildNextPacket(env: Env) returns (pack: RTCPCompoundPacketBuilder?, status: PackStatus)
      requires |items| == |KINDS|
      modifies this, sources
      ensures
        var o := NextPacket(old(State()), old(sources.table), env);
        && State() == o.local && sources.table == o.table && status == o.status
        && (status == Built ==> pack != null && o.build.Proper() && Finished(pack, o.build))
    {
      if !init { return null, NotInit; }
      var p;
      p, status := StartPacket(env, env.sender);
      if status != Built { return null, status; }
      pack, status := CompletePacket(p, env.curtime);
    }

    method CompleteByePacket(p: RTCPCompoundPacketBuilder, bye: Bye)
        returns (pack: RTCPCompoundPacketBuilder?, status: PackStatus)
      requires p.Valid() && !p.external
      modifies p, p.report, p.sdes
      ensures
        var r := CompleteBye(old(p.state), bye);
        status == r.1 && (status == Built ==> pack != null && r.0.Proper() && Finished(pack, r.0))
    {
      var s := p.AddBYEPacket(bye);
      if s != Ok { return null, TooSoon(s); }
      pack, status := FinishPacket(p);
    }

    method BuildBYEPacket(reason: seq<Byte>, usesr: bool, env: Env)
        returns (pack: RTCPCompoundPacketBuilder?, status: PackStatus)
      ensures
        var r := ByePacket(State(), reason, usesr, env);
        && status == r.1
        && (status == Built ==> pack != null && r.0.Proper() && Finished(pack, r.0))
    {
      if !init { return null, NotInit; }
      var text: Text := if |reason| > 255 then reason[..255] else reason;
      var p;
      p, status := StartPacket(env, usesr && env.sender);
      if status != Built { return null, status; }
      pack, status := CompleteByePacket(p, Bye([env.ssrc], text));
    }
  }
}
