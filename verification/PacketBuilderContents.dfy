/** What one packet of RTCPPacketBuilder contains, in terms of the inputs of the call alone. */
module PacketBuilderContents {
  import opened Wire
  import opened SdesFormat
  import opened ReportFormat
  import opened ByeAppFormat
  import opened BuilderModel
  import opened PacketBuilderModel
  import opened PacketBuilderSizes
  import opened PacketBuilderRuns
  import opened PacketBuilderRoundRobin

  // ----- the fixed part -----

  /** Blocks and items may have been added, and nothing else has changed. */
  ghost predicate Extended(a: Build, b: Build) {
    && b == a.(blocks := b.blocks, chunks := b.chunks) && b.Proper()
    && |a.chunks| == |b.chunks| == 1 && a.chunks[0].ssrc == b.chunks[0].ssrc
    && a.chunks[0].items <= b.chunks[0].items && a.blocks <= b.blocks
  }

  lemma ExtendedTwice(a: Build, b: Build, c: Build)
    requires Extended(a, b) && Extended(b, c)
    ensures Extended(a, c)
  {
  }

  /** A packet to which blocks and items can be added. */
  ghost predicate Started(b: Build) {
    b.Proper() && b.building && !b.sender.NoReport? && |b.chunks| == 1
  }

  lemma AddBlockExtends(b: Build, block: ReportBlock)
    requires Started(b)
    ensures Extended(b, DoAddBlock(b, block).0)
  {
  }

  lemma {:induction false} FillFromExtends(b: Build, table: seq<Source>, i: nat, first: bool, prev: real, max: int,
      added: nat, skipped: nat)
    requires i < |table| && Started(b)
    ensures Extended(b, FillFrom(b, table, i, first, prev, max, added, skipped).build)
    decreases |table| - i, 1
  {
    var s := table[i];
    if !Reportable(s, first, prev) {
      FillNextExtends(b, table, i, first, prev, max, added, skipped);
    } else if s.processed {
      FillNextExtends(b, table, i, first, prev, max, added, skipped + 1);
    } else {
      var b' := DoAddBlock(b, s.block).0;
      AddBlockExtends(b, s.block);
      if DoAddBlock(b, s.block).1 == Ok && added + 1 < max {
        FillNextExtends(b', table[i := s.(processed := true)], i, first, prev, max, added + 1, skipped);
        ExtendedTwice(b, b', FillFrom(b, table, i, first, prev, max, added, skipped).build);
      }
    }
  }

  lemma {:induction false} FillNextExtends(b: Build, table: seq<Source>, i: nat, first: bool, prev: real, max: int,
      added: nat, skipped: nat)
    requires i < |table| && Started(b)
    ensures Extended(b, FillNext(b, table, i, first, prev, max, added, skipped).build)
    decreases |table| - i, 0
  {
    if i + 1 < |table| {
      FillFromExtends(b, table, i + 1, first, prev, max, added, skipped);
    }
  }

  lemma AddItemExtends(b: Build, kind: SdesParser.ItemType, value: Text)
    requires Started(b)
    ensures Extended(b, DoAddNormalItem(b, kind, value).0)
  {
    AddNormalItemProper(b, kind, value);
  }

  lemma {:induction false} FillItemsExtends(b: Build, items: seq<LocalItem>, k: nat, added: nat)
    requires k <= |items| && Started(b)
    ensures Extended(b, FillItems(b, items, k, added).build)
    decreases |items| - k
  {
    if k < |items| {
      if !items[k].due || items[k].processed {
        FillItemsExtends(b, items, k + 1, added);
      } else {
        var (b', status) := DoAddNormalItem(b, items[k].kind, items[k].value);
        AddItemExtends(b, items[k].kind, items[k].value);
        if status != NotEnoughBytesLeft {
          FillItemsExtends(b', items[k := items[k].(processed := true)], k + 1, added + 1);
          ExtendedTwice(b, b', FillItems(b, items, k, added).build);
        }
      }
    }
  }

  lemma RefillExtends(l: Local, table: seq<Source>, b: Build, skipped: nat)
    requires table != [] && Started(b)
    ensures Extended(b, Refill(l, table, b, skipped).build)
  {
    if skipped > 0 {
      FillFromExtends(b, table, 0, l.first, l.prev, skipped, 0, 0);
    }
  }

  lemma AfterItemsExtends(l: Local, table: seq<Source>, q: SdesFilled, skipped: nat)
    requires table != [] && Started(q.build)
    ensures Extended(q.build, AfterItems(l, table, q, skipped).build)
  {
    if !q.full {
      RefillExtends(l.(count := l.count + 1, items := ClearProcessed(q.items)), table, q.build, skipped);
    }
  }

  lemma NewCycleExtends(l: Local, table: seq<Source>, b: Build, skipped: nat)
    requires table != [] && Started(b)
    ensures Extended(b, NewCycle(l, table, b, skipped).build)
  {
    var q := FillItems(b, StartCycle(l.items, l.count + 1), 0, 0);
    FillItemsExtends(b, StartCycle(l.items, l.count + 1), 0, 0);
    AfterItemsExtends(l, table, q, skipped);
    ExtendedTwice(b, q.build, AfterItems(l, table, q, skipped).build);
  }

  lemma AfterBlocksExtends(l: Local, r: Filled)
    requires r.table != [] && Started(r.build)
    ensures Extended(r.build, AfterBlocks(l, r).build)
  {
    if r.status == Ok && !r.full {
      NewCycleExtends(l, ClearFlags(r.table), r.build, r.skipped);
    }
  }

  lemma FreshExtends(l: Local, table: seq<Source>, b: Build)
    requires Started(b)
    ensures Extended(b, Fresh(l, table, b).build)
  {
    if table != [] {
      var r := FillFrom(b, table, 0, l.first, l.prev, |table|, 0, 0);
      FillFromExtends(b, table, 0, l.first, l.prev, |table|, 0, 0);
      AfterBlocksExtends(l, r);
      ExtendedTwice(b, r.build, AfterBlocks(l, r).build);
    }
  }

  lemma ResumeExtends(l: Local, table: seq<Source>, b: Build)
    requires Started(b)
    ensures Extended(b, Resume(l, table, b).build)
  {
    var q := FillItems(b, l.items, 0, 0);
    FillItemsExtends(b, l.items, 0, 0);
    if q.added > 0 && !q.full && table != [] {
      FillFromExtends(q.build, table, 0, l.first, l.prev, |table|, 0, 0);
      ExtendedTwice(b, q.build, FillFrom(q.build, table, 0, l.first, l.prev, |table|, 0, 0).build);
    }
  }

  lemma BaseProper(max: Size, sender: Sender, cname: Text)
    requires !sender.NoReport?
    ensures Started(Base(max, sender, cname))
  {
  }

  lemma NextExtends(l: Local, table: seq<Source>, env: Env)
    requires Proper(l) && l.init
    ensures Extended(Base(l.max, ReportSender(env, env.sender), l.cname), NextPacket(l, table, env).build)
  {
    var b := Base(l.max, ReportSender(env, env.sender), l.cname);
    BaseProper(l.max, ReportSender(env, env.sender), l.cname);
    NextParts(l, table, env);
    if l.processing {
      ResumeExtends(l, table, b);
    } else {
      FreshExtends(l, table, b);
    }
  }

  /** The next packet is a sender report with the sender information if the own source has sent data, and
      a receiver report if not; then one source, the own one, whose first item is the CNAME; and no other
      packet. */
  lemma NextContents(l: Local, table: seq<Source>, env: Env)
    requires Proper(l) && l.init
    ensures
      var b := NextPacket(l, table, env).build;
      && b.Proper() && b.max == l.max && b.apps == [] && b.byes == []
      && b.sender == (if env.sender then SR(env.ssrc, env.info) else RR(env.ssrc))
      && |b.chunks| == 1 && b.chunks[0].ssrc == env.ssrc && [Item(1, l.cname)] <= b.chunks[0].items
  {
    NextExtends(l, table, env);
  }

  /** The bytes start with an unpadded packet of version 2, with this type and this source. */
  predicate StartsAs(d: seq<Byte>, ptype: Byte, ssrc: U32) {
    8 <= |d| && 128 <= d[0] < 160 && d[1] == ptype && d[4..8] == Net32(ssrc)
  }

  lemma FirstReportBytes(s: Sender, group: seq<ReportBlock>)
    requires !s.NoReport? && |group| <= MAX_COUNT
    ensures StartsAs(ReportPacket(s, group), if s.SR? then 200 else 201, s.ssrc)
  {
    ReportPacketHeader(s, group);
    ReportPacketFixed(s, group);
    U32AtBytes(ReportPacket(s, group), 4);
    FirstByte(ReportPacket(s, group));
  }

  lemma FirstPiece(ps: seq<seq<Byte>>, p: seq<Byte>)
    requires ps != [] && ps[0] == p
    ensures p <= Flatten(ps)
  {
  }

  lemma FirstPacket(s: Build)
    requires s.Proper() && !s.sender.NoReport?
    ensures
      var group := if |s.blocks| <= MAX_COUNT then s.blocks else s.blocks[..MAX_COUNT];
      |group| <= MAX_COUNT && ReportPacket(s.sender, group) <= Bytes(s)
  {
    var group := if |s.blocks| <= MAX_COUNT then s.blocks else s.blocks[..MAX_COUNT];
    assert ReportPackets(s.sender, s.blocks)[0] == ReportPacket(s.sender, group);
    FirstPiece(Packets(s), ReportPacket(s.sender, group));
  }

  lemma StartsLonger(p: seq<Byte>, d: seq<Byte>, ptype: Byte, ssrc: U32)
    requires StartsAs(p, ptype, ssrc) && p <= d
    ensures StartsAs(d, ptype, ssrc)
  {
    assert d[4..8] == p[4..8];
  }

  /** The start of the bytes that EndBuild writes tells the kind of report and who it is from. */
  lemma FirstBytes(s: Build)
    requires s.Proper() && !s.sender.NoReport?
    ensures StartsAs(Bytes(s), if s.sender.SR? then 200 else 201, s.sender.ssrc)
  {
    var group := if |s.blocks| <= MAX_COUNT then s.blocks else s.blocks[..MAX_COUNT];
    FirstPacket(s);
    FirstReportBytes(s.sender, group);
    StartsLonger(ReportPacket(s.sender, group), Bytes(s), if s.sender.SR? then 200 else 201, s.sender.ssrc);
  }

  ghost predicate SentAs(b: Build, ptype: Byte, ssrc: U32) {
    b.Proper() && StartsAs(Bytes(b), ptype, ssrc)
  }

  lemma NextFirstBytes(l: Local, table: seq<Source>, env: Env)
    requires Proper(l) && l.init
    ensures SentAs(NextPacket(l, table, env).build, if env.sender then 200 else 201, env.ssrc)
  {
    NextContents(l, table, env);
    FirstBytes(NextPacket(l, table, env).build);
  }

  /** The BYE packet of the own source after a report, with the CNAME; the report is a sender report only
      if the caller wants one and the own source has sent data. The reason is cut at 255 bytes. */
  lemma ByeContents(l: Local, reason: seq<Byte>, usesr: bool, env: Env)
    requires Proper(l) && l.init
    ensures
      var (b, status) := ByePacket(l, reason, usesr, env);
      && status == Built && b.max == l.max && b.blocks == [] && b.apps == []
      && b.sender == (if usesr && env.sender then SR(env.ssrc, env.info) else RR(env.ssrc))
      && b.chunks == [Chunk(env.ssrc, [Item(1, l.cname)])]
      && |b.byes| == 1 && b.byes[0].ssrcs == [env.ssrc] && b.byes[0].reason <= reason
      && |b.byes[0].reason| == (if |reason| <= 255 then |reason| else 255)
  {
    ByeOutcome(l, reason, usesr, env);
  }

  lemma ByeProper(b: Build, bye: Bye)
    requires Started(b) && b.byes == [] && |bye.ssrcs| == 1
    ensures b.(byes := [bye]).Proper()
  {
  }

  lemma ByeFirstBytes(l: Local, reason: seq<Byte>, usesr: bool, env: Env)
    requires Proper(l) && l.init
    ensures SentAs(ByePacket(l, reason, usesr, env).0, if usesr && env.sender then 200 else 201, env.ssrc)
  {
    var sender := ReportSender(env, usesr && env.sender);
    ByeOutcome(l, reason, usesr, env);
    ByeContents(l, reason, usesr, env);
    BaseProper(l.max, sender, l.cname);
    ByeProper(Base(l.max, sender, l.cname), Bye([env.ssrc], Truncated(reason)));
    FirstBytes(ByePacket(l, reason, usesr, env).0);
  }

  // ----- the clock -----

  /** A packet that was built is the last one to which the next compares; one that was not leaves that. */
  lemma NextClock(l: Local, table: seq<Source>, env: Env)
    requires Proper(l) && l.init
    ensures
      var o := NextPacket(l, table, env);
      if o.status == Built then !o.local.first && o.local.prev == env.curtime
      else o.local.first == l.first && o.local.prev == l.prev
  {
    NextParts(l, table, env);
  }

  // ----- which sources are reported -----

  lemma {:induction false} ReportableSource(table: seq<Source>, i: nat, first: bool, prev: real, x: ReportBlock)
    returns (k: nat)
    requires x in Reportables(table, i, first, prev)
    ensures i <= k < |table| && table[k].block == x
    ensures !table[k].own && !table[k].csrc && table[k].hassent && (first || table[k].lastrtp > prev)
    decreases if i < |table| then |table| - i else 0
  {
    if Reportable(table[i], first, prev) && table[i].block == x {
      k := i;
    } else {
      k := ReportableSource(table, i + 1, first, prev, x);
    }
  }

  lemma PacketBlocks(l: Local, table: seq<Source>, env: Env)
    requires Proper(l) && l.init
    ensures forall x :: x in NextPacket(l, table, env).build.blocks ==> x in Reportables(table, 0, l.first, l.prev)
  {
    UnmarkedAmong(table, l.first, l.prev);
    if l.processing {
      NextParts(l, table, env);
      ResumeUnmarked(l, table, ReportSender(env, env.sender));
    } else {
      var m := PacketExact(l, table, env);
    }
  }

  /** Every block is about a source that is neither the own one nor a contributing one, that has sent data,
      and that has been heard of since the last packet, or before the first. */
  lemma BlocksEligible(l: Local, table: seq<Source>, env: Env, x: ReportBlock) returns (k: nat)
    requires Proper(l) && l.init && x in NextPacket(l, table, env).build.blocks
    ensures k < |table| && table[k].block == x
    ensures !table[k].own && !table[k].csrc && table[k].hassent && (l.first || table[k].lastrtp > l.prev)
  {
    PacketBlocks(l, table, env);
    k := ReportableSource(table, 0, l.first, l.prev, x);
  }

  /** And such a source is reported: alone in the table and not marked, by any packet that does not go on
      with an SDES cycle. */
  lemma OneSource(l: Local, s: Source, env: Env)
    requires Proper(l) && l.init && !l.processing && !s.processed
    ensures NextPacket(l, [s], env).build.blocks
      == if !s.own && !s.csrc && s.hassent && (l.first || s.lastrtp > l.prev) then [s.block] else []
  {
    var all := Reportables([s], 0, l.first, l.prev);
    assert all == if !s.own && !s.csrc && s.hassent && (l.first || s.lastrtp > l.prev) then [s.block] else [];
    PacketReports(l, [s], env, 0);
  }

  // ----- which items are due -----

  lemma NoMultiple(n: nat, c: nat)
    requires 0 < c < n
    ensures c % n != 0
  {
  }

  /** An item with a positive interval `n` is due in cycle `n` and in no cycle before, and `n` cycles after
      a cycle if and only if it is due in that; with another interval it never is. */
  lemma DueEvery(item: LocalItem, count: nat)
    ensures item.interval <= 0 ==> !IsDue(item, count)
    ensures 0 < count < item.interval ==> !IsDue(item, count)
    ensures item.interval > 0 ==> IsDue(item, item.interval)
    ensures item.interval > 0 ==> (IsDue(item, count + item.interval) <==> IsDue(item, count))
  {
    if 0 < count < item.interval {
      NoMultiple(item.interval, count);
    }
    if item.interval > 0 {
      SameRemainder(count, item.interval);
    }
  }

  lemma SameRemainder(c: nat, n: nat)
    requires n > 0
    ensures (c + n) % n == c % n && n % n == 0
  {
    var q := c / n;
    assert c + n == (q + 1) * n + c % n;
    Remainder(c + n, q + 1, n, c % n);
    Remainder(n, 1, n, 0);
  }

  lemma Remainder(x: nat, q: nat, n: nat, r: nat)
    requires r < n && x == q * n + r
    ensures x % n == r
  {
    assert x == x / n * n + x % n;
    OneQuotient(n, x / n, x % n, q, r);
  }

  lemma OneQuotient(n: nat, p: nat, m: nat, q: nat, r: nat)
    requires m < n && r < n && p * n + m == q * n + r
    ensures p == q
  {
    assert (p - q) * n == p * n - q * n == r - m;
    assert (q - p) * n == q * n - p * n == m - r;
    if p > q {
      AtLeast(p - q, n);
    } else if p < q {
      AtLeast(q - p, n);
    }
  }

  lemma AtLeast(d: nat, n: nat)
    requires d >= 1
    ensures d * n >= n
  {
  }

  // ----- the other calls -----

  /** Init succeeds once, with at least 600 bytes and a timestamp unit that is not negative. It keeps at most
      255 bytes of the name, and no item is due until an interval is set. */
  lemma InitLaw(l: Local, max: Size, tsunit: real, name: seq<Byte>)
    ensures
      var (t, status) := DoInitLocal(l, max, tsunit, name);
      && (status == AlreadyInit <==> l.init)
      && (status == IllegalMaxPackSize <==> !l.init && max < 600)
      && (status == IllegalTimestampUnit <==> !l.init && 600 <= max && tsunit < 0.0)
      && (status == Built <==> !l.init && 600 <= max && 0.0 <= tsunit)
      && (status != Built ==> t == l)
      && (status == Built ==>
            && t.init && t.max == max && t.first && !t.processing && t.count == 0 && t.prev == l.prev
            && t.cname <= name && |t.cname| == (if |name| <= 255 then |name| else 255)
            && |t.items| == |l.items|
            && forall k, count :: 0 <= k < |t.items| && count > 0 ==> !IsDue(t.items[k], count))
  {
  }

  /** The setters. A text of more than 255 bytes is refused; others are kept whole, for that item alone. */
  lemma SetterLaw(l: Local, k: nat, value: seq<Byte>, interval: int, max: Size)
    requires k < |l.items|
    ensures
      var (t, status) := DoSetItem(l, k, value);
      && (status == NotInit <==> !l.init) && (status == LengthTooBig <==> l.init && |value| > 255)
      && (status == Built <==> l.init && |value| <= 255)
      && (status != Built ==> t == l)
      && (status == Built ==> |t.items| == |l.items| && t.items[k].value == value && OtherItemsSame(l, t, k))
    ensures
      var (t, status) := DoSetMax(l, max);
      && (status == NotInit <==> !l.init) && (status == IllegalMaxPackSize <==> l.init && max < 600)
      && (status == Built <==> l.init && 600 <= max)
      && t == if status == Built then l.(max := max) else l
    ensures
      var t := DoSetInterval(l, k, interval);
      && (!l.init ==> t == l)
      && (l.init ==> |t.items| == |l.items| && t.items[k].interval == interval && OtherItemsSame(l, t, k))
  {
  }

  predicate OtherItemsSame(a: Local, b: Local, k: nat)
    requires |a.items| == |b.items|
  {
    && b == a.(items := b.items)
    && forall j :: 0 <= j < |a.items| && j != k ==> b.items[j] == a.items[j]
  }

  /** Neither packet is built before Init. */
  lemma NothingBeforeInit(l: Local, table: seq<Source>, reason: seq<Byte>, usesr: bool, env: Env)
    requires !l.init
    ensures NextPacket(l, table, env) == Outcome(l, table, EMPTY, NotInit)
    ensures ByePacket(l, reason, usesr, env) == (EMPTY, NotInit)
  {
  }
}
