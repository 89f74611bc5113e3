/** One call of RTCPPacketBuilder, whatever its state: what it sends, what it leaves pending, and that
    no run of calls ever meets a packet that is filled too soon. */
module PacketBuilderRuns {
  import opened Wire
  import opened SdesFormat
  import opened ReportFormat
  import opened ByeAppFormat
  import opened BuilderModel
  import opened PacketBuilderModel
  import opened PacketBuilderSizes

  // ----- one call -----

  /** What every reachable state satisfies: an unfinished cycle has an item left to send. */
  predicate Proper(l: Local) {
    l.Shaped() && (l.processing ==> Pending(l.items) != [])
  }

  predicate SameSettings(a: Local, b: Local) {
    && a.init == b.init && a.max == b.max && a.cname == b.cname && |a.items| == |b.items|
    && forall k :: 0 <= k < |a.items| ==> SameItem(a.items[k], b.items[k])
  }

  predicate SameItem(a: LocalItem, b: LocalItem) {
    a.kind == b.kind && a.value == b.value && a.interval == b.interval
  }

  predicate Clean(items: seq<LocalItem>) {
    forall k :: 0 <= k < |items| ==> !items[k].processed
  }

  /** The items of a packet after the CNAME. */
  function Extra(b: Build): seq<Item> {
    if |b.chunks| == 1 && b.chunks[0].items != [] then b.chunks[0].items[1..] else []
  }

  predicate WithinMax(b: Build, l: Local) {
    b.building && !b.sender.NoReport? && Total(b) <= b.max == l.max
  }

  lemma ExtraOf(max: Size, sender: Sender, blocks: seq<ReportBlock>, cname: Text, p: seq<Item>)
    requires !sender.NoReport?
    ensures
      var b := Filling(max, sender, blocks, [Item(1, cname)]);
      WithItems(b, p) == Filling(max, sender, blocks, [Item(1, cname)] + p) && Extra(WithItems(b, p)) == p
  {
  }

  /** After the report blocks of a call: where the SDES cycle stands. */
  ghost predicate CycleStep(l: Local, due: seq<Item>, l': Local, b: Build) {
    && SameSettings(l, l')
    && var m := |Extra(b)|;
    && m <= |due| && Extra(b) == due[..m]
    && l'.processing == (m < |due|)
    && if m < |due| then Pending(l'.items) == due[m..] else Clean(l'.items)
  }

  /** What a pass over the items of a packet that has only its CNAME and report blocks so far sent. */
  ghost predicate PassSent(l: Local, b: Build, items: seq<LocalItem>, q: SdesFilled)
    requires |b.chunks| == 1
  {
    var p := Pending(items);
    && WithinMax(q.build, l) && q.added <= |p| && Extra(q.build) == p[..q.added] && q.build.blocks == b.blocks
    && (q.full <==> q.added < |p|) && Pending(q.items) == p[q.added..]
    && |q.items| == |l.items| && (forall k :: 0 <= k < |q.items| ==> SameItem(q.items[k], l.items[k]))
    && (q.full ==> Total(WithItems(b, p[..q.added + 1])) > b.max)
  }

  lemma PassSends(l: Local, b: Build, items: seq<LocalItem>)
    requires l.Shaped() && !b.sender.NoReport? && |items| == |l.items|
    requires forall k :: 0 <= k < |items| ==> SameItem(items[k], l.items[k])
    requires b == Filling(l.max, b.sender, b.blocks, [Item(1, l.cname)]) && Total(b) <= l.max
    ensures PassSent(l, b, items, FillItems(b, items, 0, 0))
  {
    ShapedSendable(l);
    forall k | 0 <= k < |items|
      ensures NormalItemId(items[k].kind).Some?
    {
      assert SameItem(items[k], l.items[k]);
    }
    FillItemsSends(b, items, 0, 0);
    SentOfSends(l, b, items, FillItems(b, items, 0, 0));
  }

  lemma SentOfSends(l: Local, b: Build, items: seq<LocalItem>, q: SdesFilled)
    requires !b.sender.NoReport? && |items| == |l.items| == |q.items|
    requires forall k :: 0 <= k < |items| ==> SameItem(items[k], l.items[k])
    requires forall k :: 0 <= k < |items| ==> q.items[k] == items[k].(processed := q.items[k].processed)
    requires b == Filling(l.max, b.sender, b.blocks, [Item(1, l.cname)]) && Sends(b, items, 0, 0, q)
    ensures PassSent(l, b, items, q)
  {
    assert items[0..] == items && q.items[0..] == q.items;
    ExtraOf(l.max, b.sender, b.blocks, l.cname, Pending(items)[..q.added]);
    forall k | 0 <= k < |items|
      ensures SameItem(q.items[k], l.items[k])
    {
      assert SameItem(items[k], l.items[k]) && q.items[k] == items[k].(processed := q.items[k].processed);
    }
  }

  lemma StartCycleSame(items: seq<LocalItem>, count: nat)
    ensures forall k :: 0 <= k < |items| ==> SameItem(StartCycle(items, count)[k], items[k])
  {
  }

  lemma RefillOutcome(l: Local, table: seq<Source>, b: Build, skipped: nat)
    requires WithinMax(b, l) && table != []
    ensures
      var o := Refill(l, table, b, skipped);
      o.status == Built && o.local == l && WithinMax(o.build, l) && Extra(o.build) == Extra(b)
  {
    if skipped > 0 {
      FillFromAdds(b, table, 0, l.first, l.prev, skipped, 0, 0);
    }
  }

  /** A call that started a cycle, with the items `due`. */
  ghost predicate CycleStarted(l: Local, due: seq<Item>, o: Outcome) {
    o.status == Built && WithinMax(o.build, l) && o.local.count == l.count + 1 && CycleStep(l, due, o.local, o.build)
  }

  lemma NewCycleOutcome(l: Local, table: seq<Source>, b: Build, skipped: nat)
    requires l.Shaped() && !l.processing && table != [] && !b.sender.NoReport?
    requires b == Filling(l.max, b.sender, b.blocks, [Item(1, l.cname)]) && Total(b) <= l.max
    ensures CycleStarted(l, Pending(StartCycle(l.items, l.count + 1)), NewCycle(l, table, b, skipped))
  {
    var items := StartCycle(l.items, l.count + 1);
    StartCycleSame(l.items, l.count + 1);
    PassSends(l, b, items);
    ItemsOutcome(l, table, FillItems(b, items, 0, 0), Pending(items), skipped);
  }

  lemma ItemsOutcome(l: Local, table: seq<Source>, q: SdesFilled, due: seq<Item>, skipped: nat)
    requires !l.processing && table != [] && WithinMax(q.build, l)
    requires q.added <= |due| && Extra(q.build) == due[..q.added] && Pending(q.items) == due[q.added..]
    requires q.full <==> q.added < |due|
    requires |q.items| == |l.items| && forall k :: 0 <= k < |q.items| ==> SameItem(q.items[k], l.items[k])
    ensures CycleStarted(l, due, AfterItems(l, table, q, skipped))
  {
    if q.full {
      CycleStopped(l, table, q, due);
    } else {
      CycleFinished(l, table, q, due, skipped);
    }
  }

  lemma CycleStopped(l: Local, table: seq<Source>, q: SdesFilled, due: seq<Item>)
    requires !l.processing && WithinMax(q.build, l) && q.full
    requires q.added < |due| && Extra(q.build) == due[..q.added] && Pending(q.items) == due[q.added..]
    requires |q.items| == |l.items| && forall k :: 0 <= k < |q.items| ==> SameItem(q.items[k], l.items[k])
    ensures
      var l' := l.(processing := true, count := l.count + 1, items := q.items);
      CycleStarted(l, due, Outcome(l', table, q.build, Built))
  {
  }

  lemma CycleFinished(l: Local, table: seq<Source>, q: SdesFilled, due: seq<Item>, skipped: nat)
    requires !l.processing && table != [] && WithinMax(q.build, l)
    requires q.added == |due| && Extra(q.build) == due[..q.added]
    requires |q.items| == |l.items| && forall k :: 0 <= k < |q.items| ==> SameItem(q.items[k], l.items[k])
    ensures
      var l' := l.(count := l.count + 1, items := ClearProcessed(q.items));
      CycleStarted(l, due, Refill(l', table, q.build, skipped))
  {
    var l' := l.(count := l.count + 1, items := ClearProcessed(q.items));
    RefillOutcome(l', table, q.build, skipped);
    PassEnded(l, l', due, q, Refill(l', table, q.build, skipped).build);
  }

  lemma PassStopped(l: Local, l': Local, due: seq<Item>, q: SdesFilled)
    requires q.full && q.added < |due| && Extra(q.build) == due[..q.added] && Pending(q.items) == due[q.added..]
    requires |q.items| == |l.items| && forall k :: 0 <= k < |q.items| ==> SameItem(q.items[k], l.items[k])
    requires l' == l.(processing := true, count := l'.count, items := q.items)
    ensures CycleStep(l, due, l', q.build)
  {
  }

  lemma PassEnded(l: Local, l': Local, due: seq<Item>, q: SdesFilled, b: Build)
    requires q.added == |due| && Extra(b) == Extra(q.build) == due[..q.added]
    requires |q.items| == |l.items| && forall k :: 0 <= k < |q.items| ==> SameItem(q.items[k], l.items[k])
    requires l' == l.(processing := false, count := l'.count, items := ClearProcessed(q.items))
    ensures CycleStep(l, due, l', b)
  {
  }

  /** A packet that is filled up with blocks has at least one. */
  lemma FirstBlockFits(l: Local, table: seq<Source>, sender: Sender)
    requires l.Shaped() && l.init && table != [] && !sender.NoReport?
    ensures
      var r := FillFrom(Base(l.max, sender, l.cname), table, 0, l.first, l.prev, |table|, 0, 0);
      r.added == |r.build.blocks| && (r.full ==> r.added > 0)
  {
    var b, x := Base(l.max, sender, l.cname), table[0].block;
    var r := FillFrom(b, table, 0, l.first, l.prev, |table|, 0, 0);
    BaseSize(l.max, sender, l.cname);
    BaseWithBlockSize(l.max, sender, l.cname, x);
    FillFromCounts(b, table, 0, l.first, l.prev, |table|, 0, 0);
    FillFromAdds(b, table, 0, l.first, l.prev, |table|, 0, 0);
    FillFromFull(b, table, 0, l.first, l.prev, |table|, 0, 0, x);
    if r.added == 0 {
      assert r.build.blocks + [x] == [x];
    }
  }

  lemma FreshOutcome(l: Local, table: seq<Source>, sender: Sender)
    requires l.Shaped() && l.init && !l.processing && table != [] && !sender.NoReport?
    ensures
      var o := Fresh(l, table, Base(l.max, sender, l.cname));
      && o.status == Built && WithinMax(o.build, l)
      && if o.local.count == l.count then o.local == l && Extra(o.build) == [] && o.build.blocks != []
         else o.local.count == l.count + 1 && CycleStep(l, Pending(StartCycle(l.items, l.count + 1)), o.local, o.build)
  {
    var b := Base(l.max, sender, l.cname);
    BaseSize(l.max, sender, l.cname);
    FillFromAdds(b, table, 0, l.first, l.prev, |table|, 0, 0);
    FirstBlockFits(l, table, sender);
    var r := FillFrom(b, table, 0, l.first, l.prev, |table|, 0, 0);
    if !r.full {
      NewCycleOutcome(l, ClearFlags(r.table), r.build, r.skipped);
    }
  }

  /** The rest of the cycle fits in one packet. */
  predicate RestFits(l: Local, sender: Sender)
    requires !sender.NoReport?
  {
    Total(Filling(l.max, sender, [], [Item(1, l.cname)] + Pending(l.items))) <= l.max
  }

  /** A resumed cycle always moves on; a null pointer is followed when it ends and there is no source. */
  lemma ResumeOutcome(l: Local, table: seq<Source>, sender: Sender)
    requires Proper(l) && l.init && l.processing && !sender.NoReport?
    ensures
      var o := Resume(l, table, Base(l.max, sender, l.cname));
      && WithinMax(o.build, l) && Extra(o.build) != []
      && o.local.count == l.count && CycleStep(l, Pending(l.items), o.local, o.build)
      && o.status == (if table == [] && RestFits(l, sender) then NullSource else Built)
  {
    var b := Base(l.max, sender, l.cname);
    BaseSize(l.max, sender, l.cname);
    PassSends(l, b, l.items);
    ShapedSendable(l);
    StoppedIff(l.max, sender, [], l.cname, l.items);
    var q, p := FillItems(b, l.items, 0, 0), Pending(l.items);
    BaseWithItemSize(l.max, sender, l.cname, p[0]);
    assert [Item(1, l.cname)] + [p[0]] == [Item(1, l.cname), p[0]] && p[..1] == [p[0]];
    if q.full {
      PassStopped(l, l.(items := q.items), p, q);
    } else {
      if table != [] {
        FillFromAdds(q.build, table, 0, l.first, l.prev, |table|, 0, 0);
      }
      PassEnded(l, l.(processing := false, items := ClearProcessed(q.items)), p, q, Resume(l, table, b).build);
    }
  }

  /** A pass that counts an addition has added a block. */
  lemma {:induction false} FillFromCounts(b: Build, table: seq<Source>, i: nat, first: bool, prev: real, max: int,
      added: nat, skipped: nat)
    requires i < |table| && b.building && !b.sender.NoReport? && Total(b) <= b.max
    ensures
      var r := FillFrom(b, table, i, first, prev, max, added, skipped);
      |r.build.blocks| == |b.blocks| + (r.added - added)
    decreases |table| - i
  {
    var s := table[i];
    if !Reportable(s, first, prev) {
      if i + 1 < |table| { FillFromCounts(b, table, i + 1, first, prev, max, added, skipped); }
    } else if s.processed {
      if i + 1 < |table| { FillFromCounts(b, table, i + 1, first, prev, max, added, skipped + 1); }
    } else {
      var (b', status) := DoAddBlock(b, s.block);
      if status == Ok && added + 1 < max && i + 1 < |table| {
        FillFromCounts(b', table[i := s.(processed := true)], i + 1, first, prev, max, added + 1, skipped);
      }
    }
  }

  /** The call follows a null pointer: there is no source, and the report blocks are reached. */
  predicate FollowsNull(l: Local, table: seq<Source>, env: Env) {
    l.init && table == [] && (l.processing ==> RestFits(l, ReportSender(env, env.sender)))
  }

  /** No call gives up: from every proper state the next packet is built, within the maximum, unless a
      null pointer is followed, and that happens exactly when there is no source and it is time for
      report blocks. */
  lemma NextOutcome(l: Local, table: seq<Source>, env: Env)
    requires Proper(l) && l.init
    ensures
      var o := NextPacket(l, table, env);
      && o.status == (if FollowsNull(l, table, env) then NullSource else Built)
      && Proper(o.local) && SameSettings(l, o.local)
      && Total(o.build) <= l.max && !o.build.sender.NoReport?
    ensures
      var o := NextPacket(l, table, env);
      if l.processing then
        Extra(o.build) != [] && o.local.count == l.count && CycleStep(l, Pending(l.items), o.local, o.build)
      else if o.local.count == l.count then
        && o.local.items == l.items && !o.local.processing && Extra(o.build) == []
        && (o.status == Built ==> o.build.blocks != [])
      else
        o.local.count == l.count + 1 && CycleStep(l, Pending(StartCycle(l.items, l.count + 1)), o.local, o.build)
  {
    var sender := ReportSender(env, env.sender);
    NextParts(l, table, env);
    BaseSize(l.max, sender, l.cname);
    if l.processing {
      ResumeOutcome(l, table, sender);
    } else if table != [] {
      FreshOutcome(l, table, sender);
    }
    ShapeKept(l, NextPacket(l, table, env).local);
  }

  /** The next packet is the start of every packet, filled in one of two ways. */
  lemma NextParts(l: Local, table: seq<Source>, env: Env)
    requires Proper(l) && l.init
    ensures
      var o, b := NextPacket(l, table, env), Base(l.max, ReportSender(env, env.sender), l.cname);
      var inner := if l.processing then Resume(l, table, b) else Fresh(l, table, b);
      && o.status == inner.status == (if FollowsNull(l, table, env) then NullSource else Built)
      && o.build == inner.build && o.table == inner.table
      && o.local == if o.status == Built then inner.local.(first := false, prev := env.curtime) else inner.local
  {
    var sender := ReportSender(env, env.sender);
    BeginOk(l.max, sender, l.cname);
    if l.processing {
      ResumeOutcome(l, table, sender);
    } else if table != [] {
      FreshOutcome(l, table, sender);
    }
  }

  lemma ShapeKept(l: Local, l': Local)
    requires l.Shaped() && SameSettings(l, l')
    ensures l'.Shaped()
  {
  }

  lemma ByeOutcome(l: Local, reason: seq<Byte>, usesr: bool, env: Env)
    requires Proper(l) && l.init
    ensures
      var sender := ReportSender(env, usesr && env.sender);
      ByePacket(l, reason, usesr, env)
      == (Base(l.max, sender, l.cname).(byes := [Bye([env.ssrc], Truncated(reason))]), Built)
  {
    var sender := ReportSender(env, usesr && env.sender);
    var bye := Bye([env.ssrc], Truncated(reason));
    BeginOk(l.max, sender, l.cname);
    BaseWithByeSize(l.max, sender, l.cname, bye);
    CompleteByeOk(Base(l.max, sender, l.cname), bye);
  }

  lemma CompleteByeOk(b: Build, bye: Bye)
    requires b.building && !b.sender.NoReport? && b.byes == [] && |bye.ssrcs| == 1 && Total(b.(byes := [bye])) <= b.max
    ensures CompleteBye(b, bye) == (b.(byes := [bye]), Built)
  {
  }

  // ----- all calls, in any order -----

  datatype Action =
    | Init(max: Size, tsunit: real, name: seq<Byte>)
    | Destroy
    | SetMaximumPacketSize(max: Size)
    | SetInterval(which: nat, interval: int)
    | SetLocalItem(which: nat, value: seq<Byte>)
    | BuildNextPacket(table: seq<Source>, env: Env)
    | BuildBYEPacket(reason: seq<Byte>, usesr: bool, env: Env)

  /** Items are numbered 0 to 5. */
  predicate Sensible(a: Action) {
    a.SetInterval? || a.SetLocalItem? ==> a.which < |KINDS|
  }

  /** The status of a packet: the one that lack of room would give is not among these. */
  function PacketStatus(l: Local, a: Action): PackStatus {
    if !l.init then NotInit
    else if a.BuildNextPacket? && FollowsNull(l, a.table, a.env) then NullSource
    else Built
  }

  function Act(l: Local, a: Action): (r: (Local, PackStatus))
    requires Proper(l) && Sensible(a)
  {
    match a
    case Init(max, tsunit, name) => DoInitLocal(l, max, tsunit, name)
    case Destroy => (l.(init := false), Built)
    case SetMaximumPacketSize(max) => DoSetMax(l, max)
    case SetInterval(k, n) => (DoSetInterval(l, k, n), Built)
    case SetLocalItem(k, v) => DoSetItem(l, k, v)
    case BuildNextPacket(table, env) => (NextPacket(l, table, env).local, NextPacket(l, table, env).status)
    case BuildBYEPacket(reason, usesr, env) => (l, ByePacket(l, reason, usesr, env).1)
  }

  lemma {:induction false} PendingChanged(items: seq<LocalItem>, others: seq<LocalItem>)
    requires |items| == |others|
    requires forall k :: 0 <= k < |items| ==> items[k].due == others[k].due && items[k].processed == others[k].processed
    ensures |Pending(items)| == |Pending(others)|
  {
    if items != [] {
      PendingChanged(items[1..], others[1..]);
    }
  }

  /** Every call keeps the state proper, and none ever gives up for lack of room. */
  lemma ActOk(l: Local, a: Action)
    requires Proper(l) && Sensible(a)
    ensures Proper(Act(l, a).0)
    ensures a.BuildNextPacket? || a.BuildBYEPacket? ==> Act(l, a).1 == PacketStatus(l, a)
  {
    match a
    case SetInterval(_, _) => PendingChanged(l.items, Act(l, a).0.items);
    case SetLocalItem(_, _) => PendingChanged(l.items, Act(l, a).0.items);
    case BuildNextPacket(table, env) => if l.init { NextOutcome(l, table, env); }
    case BuildBYEPacket(reason, usesr, env) => if l.init { ByeOutcome(l, reason, usesr, env); }
    case Init(_, _, _) =>
    case Destroy =>
    case SetMaximumPacketSize(_) =>
  }

  function Acts(l: Local, actions: seq<Action>): (r: seq<PackStatus>)
    requires Proper(l) && forall i :: 0 <= i < |actions| ==> Sensible(actions[i])
    ensures |r| == |actions|
    decreases |actions|
  {
    if actions == [] then []
    else
      ActOk(l, actions[0]);
      [Act(l, actions[0]).1] + Acts(Act(l, actions[0]).0, actions[1..])
  }

  lemma {:induction false} NeverTooSoon(l: Local, actions: seq<Action>, i: nat)
    requires Proper(l) && i < |actions| && forall j :: 0 <= j < |actions| ==> Sensible(actions[j])
    requires actions[i].BuildNextPacket? || actions[i].BuildBYEPacket?
    ensures Acts(l, actions)[i] in {Built, NotInit} || (Acts(l, actions)[i] == NullSource && NoSource(actions[i]))
    decreases |actions|
  {
    ActOk(l, actions[0]);
    if i > 0 {
      NeverTooSoon(Act(l, actions[0]).0, actions[1..], i - 1);
    }
  }

  predicate NoSource(a: Action) {
    a.BuildNextPacket? && a.table == []
  }

  /** The 600-byte minimum is sufficient: whatever calls are made on a new builder, in whatever
      order and with whatever sizes and texts, no packet is ever "filled too soon". */
  lemma MinimumSuffices(actions: seq<Action>, i: nat)
    requires i < |actions| && forall j :: 0 <= j < |actions| ==> Sensible(actions[j])
    requires actions[i].BuildNextPacket? || actions[i].BuildBYEPacket?
    ensures Proper(NEW_LOCAL)
    ensures
      var status := Acts(NEW_LOCAL, actions)[i];
      status in {Built, NotInit} || (status == NullSource && NoSource(actions[i]))
  {
    NeverTooSoon(NEW_LOCAL, actions, i);
  }

  /** The call follows the null source pointer. */
  ghost predicate MeetsNull(l: Local, table: seq<Source>, env: Env) {
    Proper(l) && l.init && NextPacket(l, table, env).status == NullSource
  }

  lemma MeetsNullIff(l: Local, table: seq<Source>, env: Env)
    requires Proper(l) && l.init
    ensures MeetsNull(l, table, env) <==> FollowsNull(l, table, env)
  {
    NextOutcome(l, table, env);
  }

  /** It is reached by asking a new builder for a packet before there is any source. */
  lemma NullReached(env: Env, cname: seq<Byte>)
    ensures MeetsNull(DoInitLocal(NEW_LOCAL, 600, 0.0, cname).0, [], env)
  {
    InitialState(cname);
    MeetsNullIff(DoInitLocal(NEW_LOCAL, 600, 0.0, cname).0, [], env);
  }

  lemma InitialState(cname: seq<Byte>)
    ensures DoInitLocal(NEW_LOCAL, 600, 0.0, cname).0
      == Local(true, 600, true, 0.0, Truncated(cname), NEW_ITEMS, false, 0)
  {
    assert WithoutIntervals(NEW_ITEMS) == NEW_ITEMS;
  }
}
