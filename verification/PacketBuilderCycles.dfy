/** SDES cycles over whole runs: every item that is due is delivered exactly once and in order,
    over at most seven packets; and the one way to lose an item. */
module PacketBuilderCycles {
  import opened Wire
  import opened SdesFormat
  import opened ReportFormat
  import opened BuilderModel
  import opened PacketBuilderModel
  import opened PacketBuilderSizes
  import opened PacketBuilderRuns

  /** The items whose interval divides the cycle number, in order. */
  function Due(items: seq<LocalItem>, count: nat): (p: seq<Item>) {
    if items == [] then []
    else if IsDue(items[0], count) then [ToItem(items[0])] + Due(items[1..], count)
    else Due(items[1..], count)
  }

  /** For the six items that is: name, e-mail, location, phone, tool, note. */
  lemma DueInOrder(l: Local, count: nat)
    requires l.Shaped()
    ensures Due(l.items, count)
      == DueOne(l, 0, 2, count) + (DueOne(l, 1, 3, count) + (DueOne(l, 2, 5, count)
       + (DueOne(l, 3, 4, count) + (DueOne(l, 4, 6, count) + DueOne(l, 5, 7, count)))))
  {
    assert l.items[0..] == l.items;
    DueTail(l, 0, 2, count);
    DueTail(l, 1, 3, count);
    DueTail(l, 2, 5, count);
    LastThree(l, count);
  }

  lemma LastThree(l: Local, count: nat)
    requires l.Shaped()
    ensures Due(l.items[3..], count) == DueOne(l, 3, 4, count) + (DueOne(l, 4, 6, count) + DueOne(l, 5, 7, count))
  {
    DueTail(l, 3, 4, count);
    DueTail(l, 4, 6, count);
    DueTail(l, 5, 7, count);
    assert Due(l.items[6..], count) == [];
    assert DueOne(l, 5, 7, count) + [] == DueOne(l, 5, 7, count);
  }

  function DueOne(l: Local, k: nat, id: Byte, count: nat): seq<Item>
    requires k < |l.items|
  {
    if IsDue(l.items[k], count) then [Item(id, l.items[k].value)] else []
  }

  lemma DueTail(l: Local, k: nat, id: Byte, count: nat)
    requires l.Shaped() && k < |KINDS| && NormalItemId(KINDS[k]) == Some(id)
    ensures Due(l.items[k..], count) == DueOne(l, k, id, count) + Due(l.items[k + 1..], count)
  {
  }

  lemma {:induction false} DueStart(items: seq<LocalItem>, count: nat)
    requires Clean(items)
    ensures Pending(StartCycle(items, count)) == Due(items, count)
  {
    if items != [] {
      DueStart(items[1..], count);
      assert StartCycle(items, count)[1..] == StartCycle(items[1..], count);
    }
  }

  lemma {:induction false} DueSame(a: seq<LocalItem>, b: seq<LocalItem>, count: nat)
    requires |a| == |b| && forall k :: 0 <= k < |a| ==> SameItem(a[k], b[k])
    ensures Due(a, count) == Due(b, count)
  {
    if a != [] {
      assert SameItem(a[0], b[0]);
      DueSame(a[1..], b[1..], count);
    }
  }

  /** A state whose last cycle, if it has ended, left no marks behind. */
  predicate Tidy(l: Local) {
    Proper(l) && (!l.processing ==> Clean(l.items))
  }

  predicate Ready(l: Local) {
    Tidy(l) && l.init
  }

  /** What the current cycle still has to send. */
  function Left(l: Local): seq<Item> {
    if l.processing then Pending(l.items) else []
  }

  /** What a packet with the items `sent` sends and leaves to send is what was left, or what a new
      cycle has to send. */
  ghost predicate Balanced(l: Local, l': Local, sent: seq<Item>) {
    if l.processing then l'.count == l.count && sent != [] && sent + Left(l') == Left(l)
    else if l'.count == l.count then sent + Left(l') == []
    else l'.count == l.count + 1 && sent + Left(l') == Due(l.items, l.count + 1)
  }

  /** Every packet is balanced. */
  lemma NextDelivers(l: Local, table: seq<Source>, env: Env)
    requires Ready(l)
    ensures
      var o := NextPacket(l, table, env);
      Ready(o.local) && SameSettings(l, o.local) && Balanced(l, o.local, Extra(o.build))
  {
    NextOutcome(l, table, env);
    var o := NextPacket(l, table, env);
    if l.processing {
      StepBalance(l, Pending(l.items), o.local, o.build);
    } else if o.local.count != l.count {
      DueStart(l.items, l.count + 1);
      StepBalance(l, Due(l.items, l.count + 1), o.local, o.build);
    }
  }

  lemma StepBalance(l: Local, due: seq<Item>, l': Local, b: Build)
    requires CycleStep(l, due, l', b)
    ensures Extra(b) + Left(l') == due && (!l'.processing ==> Clean(l'.items))
  {
  }

  // ----- all calls, in any order -----

  /** What tells the items apart: their types. */
  function Ids(p: seq<Item>): (r: seq<Byte>)
    ensures |r| == |p|
  {
    if p == [] then [] else [p[0].id] + Ids(p[1..])
  }

  lemma {:induction false} IdsAppend(a: seq<Item>, b: seq<Item>)
    ensures Ids(a + b) == Ids(a) + Ids(b)
  {
    if a == [] {
      assert a + b == b;
    } else {
      IdsAppend(a[1..], b);
      assert (a + b)[1..] == a[1..] + b;
      Associate([a[0].id], Ids(a[1..]), Ids(b));
    }
  }

  /** Initialising a builder that was destroyed in the middle of a cycle, which is the end of the cycle. */
  predicate Abandons(l: Local, a: Action) {
    a.Init? && l.processing && DoInitLocal(l, a.max, a.tsunit, a.name).1 == Built
  }

  /** Calls that all return and give up no cycle. */
  predicate Undisturbed(l: Local, actions: seq<Action>)
    requires Proper(l)
    decreases |actions|
  {
    actions == []
    || (&& Sensible(actions[0]) && !Abandons(l, actions[0]) && Act(l, actions[0]).1 != NullSource
        && (ActOk(l, actions[0]); Undisturbed(Act(l, actions[0]).0, actions[1..])))
  }

  /** A call that builds the next packet. */
  predicate Asks(l: Local, a: Action) {
    l.init && a.BuildNextPacket?
  }

  /** The packet that a call builds. */
  function Sent(l: Local, a: Action): seq<Build> {
    if !l.init then []
    else if a.BuildNextPacket? then [NextPacket(l, a.table, a.env).build]
    else if a.BuildBYEPacket? then [ByePacket(l, a.reason, a.usesr, a.env).0]
    else []
  }

  /** The types of the items that are due in the cycle that a call starts. */
  function StartedBy(l: Local, a: Action): seq<Byte> {
    if l.init && a.BuildNextPacket? && NextPacket(l, a.table, a.env).local.count != l.count
    then Ids(Due(l.items, l.count + 1)) else []
  }

  /** The last state, the packets, the items of the cycles that were started, and how many of the packets
      came from BuildNextPacket. */
  datatype Trace = Trace(local: Local, packets: seq<Build>, started: seq<Byte>, nexts: nat)

  function Traced(l: Local, actions: seq<Action>): (r: Trace)
    requires Proper(l) && Undisturbed(l, actions)
    decreases |actions|
  {
    if actions == [] then Trace(l, [], [], 0)
    else
      ActOk(l, actions[0]);
      var rest := Traced(Act(l, actions[0]).0, actions[1..]);
      Trace(rest.local, Sent(l, actions[0]) + rest.packets, StartedBy(l, actions[0]) + rest.started,
        rest.nexts + if Asks(l, actions[0]) then 1 else 0)
  }

  /** All the items that some packets sent beside the CNAME. */
  function Delivered(bs: seq<Build>): seq<Item> {
    if bs == [] then [] else Extra(bs[0]) + Delivered(bs[1..])
  }

  lemma DeliveredOne(b: Build)
    ensures Delivered([b]) == Extra(b)
  {
    assert [b][1..] == [];
  }

  lemma DeliveredFirst(x: seq<Build>, rest: seq<Build>)
    requires |x| <= 1
    ensures Delivered(x + rest) == Delivered(x) + Delivered(rest)
  {
    if x == [] {
      assert x + rest == rest;
    } else {
      assert (x + rest)[1..] == rest && x[1..] == [];
    }
  }

  lemma {:induction false} PendingIds(a: seq<LocalItem>, b: seq<LocalItem>)
    requires |a| == |b|
    requires forall k :: 0 <= k < |a| ==>
      a[k].kind == b[k].kind && a[k].due == b[k].due && a[k].processed == b[k].processed
    ensures Ids(Pending(a)) == Ids(Pending(b))
  {
    if a != [] {
      PendingIds(a[1..], b[1..]);
      IdsAppend([ToItem(a[0])], Pending(a[1..]));
      IdsAppend([ToItem(b[0])], Pending(b[1..]));
    }
  }

  /** One call keeps the account: what it sends and what it leaves to send is what was left and what it
      starts. */
  ghost predicate Accounted(l: Local, sent: seq<Build>, started: seq<Byte>, l': Local) {
    Tidy(l') && Ids(Delivered(sent)) + Ids(Left(l')) == Ids(Left(l)) + started
  }

  lemma ActAccounted(l: Local, a: Action)
    requires Tidy(l) && Sensible(a) && !Abandons(l, a)
    ensures Accounted(l, Sent(l, a), StartedBy(l, a), Act(l, a).0)
  {
    ActOk(l, a);
    match a
    case BuildNextPacket(table, env) => if l.init { NextAccounted(l, table, env); }
    case BuildBYEPacket(reason, usesr, env) => if l.init { ByeAccounted(l, reason, usesr, env); }
    case SetInterval(k, n) => ItemsAccounted(l, DoSetInterval(l, k, n));
    case SetLocalItem(k, v) => ItemsAccounted(l, DoSetItem(l, k, v).0);
    case Init(max, tsunit, name) => InitAccounted(l, max, tsunit, name);
    case Destroy => SameAccounted(l, l.(init := false));
    case SetMaximumPacketSize(max) => SameAccounted(l, DoSetMax(l, max).0);
  }

  lemma SameAccounted(l: Local, l': Local)
    requires Tidy(l) && Proper(l') && l'.processing == l.processing && l'.items == l.items
    ensures Accounted(l, [], [], l')
  {
  }

  lemma InitAccounted(l: Local, max: Size, tsunit: real, name: seq<Byte>)
    requires Tidy(l) && !Abandons(l, Init(max, tsunit, name)) && Proper(DoInitLocal(l, max, tsunit, name).0)
    ensures Accounted(l, [], [], DoInitLocal(l, max, tsunit, name).0)
  {
    if DoInitLocal(l, max, tsunit, name).1 != Built {
      SameAccounted(l, l);
    }
  }

  lemma ItemsAccounted(l: Local, l': Local)
    requires Tidy(l) && Proper(l')
    requires l'.processing == l.processing && |l'.items| == |l.items|
    requires forall k :: 0 <= k < |l.items| ==>
      && l'.items[k].kind == l.items[k].kind && l'.items[k].due == l.items[k].due
      && l'.items[k].processed == l.items[k].processed
    ensures Accounted(l, [], [], l')
  {
    PendingIds(l.items, l'.items);
  }

  lemma PacketAccounted(l: Local, l': Local, b: Build, started: seq<Byte>)
    requires Tidy(l') && Balanced(l, l', Extra(b))
    requires started == if l'.count != l.count then Ids(Due(l.items, l.count + 1)) else []
    ensures Accounted(l, [b], started, l')
  {
    DeliveredOne(b);
    IdsAppend(Extra(b), Left(l'));
  }

  lemma NextAccounted(l: Local, table: seq<Source>, env: Env)
    requires Ready(l)
    ensures
      var o, a := NextPacket(l, table, env), BuildNextPacket(table, env);
      Accounted(l, [o.build], StartedBy(l, a), o.local)
  {
    var o := NextPacket(l, table, env);
    NextDelivers(l, table, env);
    PacketAccounted(l, o.local, o.build, StartedBy(l, BuildNextPacket(table, env)));
  }

  lemma ByeAccounted(l: Local, reason: seq<Byte>, usesr: bool, env: Env)
    requires Ready(l)
    ensures Accounted(l, [ByePacket(l, reason, usesr, env).0], [], l)
  {
    var b := ByePacket(l, reason, usesr, env).0;
    ByeOutcome(l, reason, usesr, env);
    DeliveredOne(b);
  }

  /** Every SDES cycle delivers every item that is due exactly once, in the order NAME, EMAIL, LOC,
      PHONE, TOOL, NOTE, however many packets it takes and whatever calls come in between: over any
      run, the types of what was sent followed by those still pending are the types of what was
      pending at first followed by those of the cycles started. */
  lemma {:induction false} CyclesDelivered(l: Local, actions: seq<Action>)
    requires Tidy(l) && Undisturbed(l, actions)
    ensures
      var r := Traced(l, actions);
      Tidy(r.local) && Ids(Delivered(r.packets)) + Ids(Left(r.local)) == Ids(Left(l)) + r.started
    decreases |actions|
  {
    if actions != [] {
      var a, l' := actions[0], Act(l, actions[0]).0;
      ActOk(l, a);
      ActAccounted(l, a);
      CyclesDelivered(l', actions[1..]);
      var rest := Traced(l', actions[1..]);
      DeliveredFirst(Sent(l, a), rest.packets);
      IdsAppend(Delivered(Sent(l, a)), Delivered(rest.packets));
      Regroup(Ids(Delivered(Sent(l, a))), Ids(Delivered(rest.packets)), Ids(Left(rest.local)),
              Ids(Left(l)) + StartedBy(l, a), Ids(Left(l')), rest.started);
      Associate(Ids(Left(l)), StartedBy(l, a), rest.started);
    }
  }

  lemma {:induction false} PendingCount(items: seq<LocalItem>)
    ensures |Pending(items)| <= |items|
  {
    if items != [] {
      PendingCount(items[1..]);
    }
  }

  lemma {:induction false} UndisturbedFirst(l: Local, actions: seq<Action>, i: nat)
    requires Proper(l) && Undisturbed(l, actions) && i <= |actions|
    ensures Undisturbed(l, actions[..i])
    decreases i
  {
    if i > 0 {
      ActOk(l, actions[0]);
      UndisturbedFirst(Act(l, actions[0]).0, actions[1..], i - 1);
      assert actions[..i][1..] == actions[1..][..i - 1];
    }
  }

  /** The first call of a run and some calls after it. */
  lemma TracedFirst(l: Local, actions: seq<Action>, i: nat, l': Local, rest: Trace)
    requires Proper(l) && Undisturbed(l, actions) && 0 < i <= |actions| && l' == Act(l, actions[0]).0
    requires Proper(l') && Undisturbed(l', actions[1..][..i - 1]) && rest == Traced(l', actions[1..][..i - 1])
    ensures Undisturbed(l, actions[..i])
    ensures
      var r := Traced(l, actions[..i]);
      && r.local == rest.local && r.nexts == rest.nexts + (if Asks(l, actions[0]) then 1 else 0)
      && Delivered(r.packets) == Delivered(Sent(l, actions[0])) + Delivered(rest.packets)
  {
    UndisturbedFirst(l, actions, i);
    assert actions[..i][1..] == actions[1..][..i - 1];
    DeliveredFirst(Sent(l, actions[0]), rest.packets);
  }

  /** A call in the middle of a cycle: only the next packet takes from what is left, and at least one item. */
  ghost predicate Continues(l: Local, l': Local, asks: bool, sent: seq<Byte>) {
    && Tidy(l') && sent + Ids(Left(l')) == Ids(Left(l))
    && if asks then sent != [] else sent == [] && l'.processing
  }

  lemma CycleStepOn(l: Local, a: Action)
    requires Tidy(l) && l.processing && Sensible(a) && !Abandons(l, a)
    ensures Continues(l, Act(l, a).0, Asks(l, a), Ids(Delivered(Sent(l, a))))
  {
    ActOk(l, a);
    ActAccounted(l, a);
    if Asks(l, a) {
      NextDelivers(l, a.table, a.env);
      DeliveredOne(NextPacket(l, a.table, a.env).build);
    } else {
      QuietCall(l, a);
    }
  }

  /** The other calls, a BYE packet among them, send no item and end no cycle. */
  lemma QuietCall(l: Local, a: Action)
    requires Tidy(l) && l.processing && Sensible(a) && !Abandons(l, a) && !Asks(l, a)
    ensures Act(l, a).0.processing && Delivered(Sent(l, a)) == [] && StartedBy(l, a) == []
  {
    if l.init && a.BuildBYEPacket? {
      ByeOutcome(l, a.reason, a.usesr, a.env);
      DeliveredOne(ByePacket(l, a.reason, a.usesr, a.env).0);
    }
  }

  /** Each resumed packet makes progress, so a cycle that its first packet did not finish ends within
      as many packets as items are left, and that is at most six, whatever other calls come in between. */
  lemma {:induction false} CycleEnds(l: Local, actions: seq<Action>) returns (i: nat)
    requires Tidy(l) && l.processing && Undisturbed(l, actions) && Traced(l, actions).nexts >= |Left(l)|
    ensures i <= |actions| && Undisturbed(l, actions[..i])
    ensures
      var r := Traced(l, actions[..i]);
      0 < r.nexts <= |Left(l)| <= 6 && !r.local.processing && Ids(Delivered(r.packets)) == Ids(Left(l))
    decreases |actions|
  {
    PendingCount(l.items);
    var a := actions[0];
    var l', rest := Act(l, a).0, actions[1..];
    ActOk(l, a);
    CycleStepOn(l, a);
    var sent := Delivered(Sent(l, a));
    var j := 0;
    if l'.processing {
      j := CycleEnds(l', rest);
    }
    i := j + 1;
    var r := Traced(l', rest[..j]);
    TracedFirst(l, actions, i, l', r);
    IdsAppend(sent, Delivered(r.packets));
  }

  /** The balance of a packet and the balance of the packets after it make one balance. */
  lemma Regroup<T>(x: seq<T>, s: seq<T>, left: seq<T>, before: seq<T>, between: seq<T>, due: seq<T>)
    requires x + between == before && s + left == between + due
    ensures (x + s) + left == before + due
  {
    assert (x + s) + left == x + (s + left);
    assert (x + between) + due == x + (between + due);
  }

  lemma Associate<T>(a: seq<T>, b: seq<T>, c: seq<T>)
    ensures (a + b) + c == a + (b + c)
  {
  }

  lemma {:induction false} PendingCurrent(items: seq<LocalItem>, x: Item)
    requires x in Pending(items)
    ensures exists k :: 0 <= k < |items| && x == ToItem(items[k])
  {
    if items[0].due && !items[0].processed && x == ToItem(items[0]) {
    } else {
      PendingCurrent(items[1..], x);
      var k :| 0 <= k < |items| - 1 && x == ToItem(items[1..][k]);
      assert x == ToItem(items[k + 1]);
    }
  }

  /** An item is sent with the text that it has at that moment. */
  lemma SentCurrent(l: Local, table: seq<Source>, env: Env, x: Item)
    requires Proper(l) && l.init && x in Extra(NextPacket(l, table, env).build)
    ensures exists k :: 0 <= k < |l.items| && x == ToItem(l.items[k])
  {
    NextOutcome(l, table, env);
    if l.processing {
      PendingCurrent(l.items, x);
    } else {
      StartedCurrent(l.items, l.count + 1, x);
    }
  }

  lemma StartedCurrent(items: seq<LocalItem>, count: nat, x: Item)
    requires x in Pending(StartCycle(items, count))
    ensures exists k :: 0 <= k < |items| && x == ToItem(items[k])
  {
    var started := StartCycle(items, count);
    PendingCurrent(started, x);
    var k :| 0 <= k < |started| && x == ToItem(started[k]);
    StartCycleSame(items, count);
    assert SameItem(started[k], items[k]);
  }

  // ----- runs of packets alone -----

  datatype Call = Call(table: seq<Source>, env: Env)

  predicate Tables(calls: seq<Call>) {
    forall i :: 0 <= i < |calls| ==> calls[i].table != []
  }

  /** The state after some calls of BuildNextPacket, and the packets they built. */
  function Run(l: Local, calls: seq<Call>): (r: (Local, seq<Build>))
    requires Tables(calls)
    ensures |r.1| == |calls|
    decreases |calls|
  {
    if calls == [] then (l, [])
    else
      var o := NextPacket(l, calls[0].table, calls[0].env);
      var rest := Run(o.local, calls[1..]);
      (rest.0, [o.build] + rest.1)
  }

  /** The items of the cycles after number `from`, up to number `to`. */
  function DueBetween(items: seq<LocalItem>, from: nat, to: nat): seq<Item>
    decreases if from < to then to - from else 0
  {
    if to <= from then [] else Due(items, from + 1) + DueBetween(items, from + 1, to)
  }

  lemma {:induction false} DueBetweenSame(a: seq<LocalItem>, b: seq<LocalItem>, from: nat, to: nat)
    requires |a| == |b| && forall k :: 0 <= k < |a| ==> SameItem(a[k], b[k])
    ensures DueBetween(a, from, to) == DueBetween(b, from, to)
    decreases if from < to then to - from else 0
  {
    if from < to {
      DueSame(a, b, from + 1);
      DueBetweenSame(a, b, from + 1, to);
    }
  }

  /** What packets sent followed by what is still pending is what was pending at first followed by the
      items of the cycles started. */
  ghost predicate TextsAccounted(l: Local, r: (Local, seq<Build>)) {
    && Ready(r.0) && l.count <= r.0.count
    && Delivered(r.1) + Left(r.0) == Left(l) + DueBetween(l.items, l.count, r.0.count)
  }

  /** With packets alone the texts are the same throughout, and they are accounted for. */
  lemma {:induction false} TextsDelivered(l: Local, calls: seq<Call>)
    requires Ready(l) && Tables(calls)
    ensures TextsAccounted(l, Run(l, calls))
    decreases |calls|
  {
    if calls == [] {
      assert [] + Left(l) == Left(l) == Left(l) + [];
    } else {
      var o := NextPacket(l, calls[0].table, calls[0].env);
      NextDelivers(l, calls[0].table, calls[0].env);
      TextsDelivered(o.local, calls[1..]);
      RunCons(l, calls);
      TextsJoin(l, o.local, o.build, Run(o.local, calls[1..]), Run(l, calls));
    }
  }

  lemma TextsJoin(l: Local, l': Local, b: Build, rest: (Local, seq<Build>), r: (Local, seq<Build>))
    requires SameSettings(l, l') && Balanced(l, l', Extra(b)) && TextsAccounted(l', rest)
    requires r.0 == rest.0 && Delivered(r.1) == Extra(b) + Delivered(rest.1)
    ensures TextsAccounted(l, r)
  {
    var before := if l'.count == l.count then Left(l) else Due(l.items, l.count + 1);
    DueFrom(l, l', before, rest.0.count);
    Regroup(Extra(b), Delivered(rest.1), Left(rest.0), before, Left(l'),
      DueBetween(l'.items, l'.count, rest.0.count));
  }

  /** What was left and what the cycles up to number `to` have due, seen from one packet later. */
  lemma DueFrom(l: Local, l': Local, before: seq<Item>, to: nat)
    requires SameSettings(l, l') && l'.count <= to
    requires if l'.count == l.count then before == Left(l)
             else l'.count == l.count + 1 && Left(l) == [] && before == Due(l.items, l.count + 1)
    ensures before + DueBetween(l'.items, l'.count, to) == Left(l) + DueBetween(l.items, l.count, to)
  {
    DueBetweenSame(l'.items, l.items, l'.count, to);
    assert [] + DueBetween(l.items, l.count, to) == DueBetween(l.items, l.count, to);
  }

  /** The first packet of a run and the rest. */
  lemma RunCons(l: Local, calls: seq<Call>)
    requires Tables(calls) && calls != []
    ensures
      var o := NextPacket(l, calls[0].table, calls[0].env);
      var r, rest := Run(l, calls), Run(o.local, calls[1..]);
      r.0 == rest.0 && Delivered(r.1) == Extra(o.build) + Delivered(rest.1)
  {
    var o := NextPacket(l, calls[0].table, calls[0].env);
    var rest := Run(o.local, calls[1..]);
    assert ([o.build] + rest.1)[1..] == rest.1;
  }

  // ----- the marks of an abandoned cycle -----

  lemma {:induction false} PendingOfStart(items: seq<LocalItem>, count: nat)
    ensures
      var p, d := Pending(StartCycle(items, count)), Due(items, count);
      && |p| <= |d|
      && (p == d <==> forall k :: 0 <= k < |items| && IsDue(items[k], count) ==> !items[k].processed)
  {
    if items != [] {
      var rest := items[1..];
      PendingOfStart(rest, count);
      assert StartCycle(items, count)[1..] == StartCycle(rest, count);
      assert items == [items[0]] + rest;
      var p, d := Pending(StartCycle(rest, count)), Due(rest, count);
      var x := [ToItem(items[0])];
      if IsDue(items[0], count) && !items[0].processed {
        assert p != d ==> (x + p)[1..] != (x + d)[1..];
      }
    }
  }

  /** A cycle starts with all the items that are due if and only if none of them still carries the
      mark of an earlier cycle. */
  lemma CycleCompleteIff(l: Local)
    ensures Pending(StartCycle(l.items, l.count + 1)) == Due(l.items, l.count + 1)
      <==> forall k :: 0 <= k < |l.items| && IsDue(l.items[k], l.count + 1) ==> !l.items[k].processed
  {
    PendingOfStart(l.items, l.count + 1);
  }

  lemma {:induction false} NoneDue(items: seq<LocalItem>, count: nat)
    requires forall k :: 0 <= k < |items| ==> items[k].interval <= 0
    ensures Due(items, count) == []
  {
    if items != [] {
      NoneDue(items[1..], count);
    }
  }

  /** The state after the calls Destroy, Init and SetNameInterval. */
  function Again(l: Local, cname: seq<Byte>): (l': Local)
    requires Proper(l)
  {
    Act(Act(Act(l, Destroy).0, Init(600, 0.0, cname)).0, SetInterval(0, 1)).0
  }

  /** Destroying a builder and initialising it again keeps the marks. */
  lemma MarksKept(l: Local, cname: seq<Byte>)
    requires Proper(l) && l.init && l.items[0].processed
    ensures
      var l' := Again(l, cname);
      && Proper(l') && l'.init && !l'.processing && l'.count == 0
      && Due(l'.items, 1) == [Item(2, l.items[0].value)] && Pending(StartCycle(l'.items, 1)) == []
  {
    var l' := Again(l, cname);
    assert l'.items[0].kind == KINDS[0];
    NoneDue(l'.items[1..], 1);
    PendingOfStart(l'.items[1..], 1);
    assert StartCycle(l'.items, 1)[1..] == StartCycle(l'.items[1..], 1);
  }

  /** The name and the e-mail address are due and too long for one packet; nothing else is. */
  predicate TwoLong(l: Local) {
    && Ready(l) && !l.processing && l.max == 600 && |l.cname| == 255
    && (forall k :: 0 <= k < 2 ==> l.items[k].interval == 1 && |l.items[k].value| == 255)
    && (forall k :: 2 <= k < 6 ==> l.items[k].interval <= 0)
  }

  lemma TwoLongDue(l: Local)
    requires TwoLong(l)
    ensures Due(l.items, l.count + 1) == [Item(2, l.items[0].value), Item(3, l.items[1].value)]
  {
    DueInOrder(l, l.count + 1);
  }

  /** Together with the CNAME, one item of 255 bytes fits in 600 bytes and two do not. */
  lemma TwoLongSizes(sender: Sender, cname: Text, x: Item, y: Item)
    requires !sender.NoReport? && |cname| == |x.data| == |y.data| == 255
    ensures Total(Filling(600, sender, [], [Item(1, cname)] + [x])) <= 600
    ensures Total(Filling(600, sender, [], [Item(1, cname)] + [x, y])) > 600
  {
    var cn := [Item(1, cname)];
    ItemsSizeOne(Item(1, cname));
    ItemsSizeOne(x);
    ItemsSizeOne(y);
    ItemsSizeAppend(cn, [x]);
    ItemsSizeAppend([x], [y]);
    assert [x] + [y] == [x, y];
    ItemsSizeAppend(cn, [x, y]);
    FillingSize(600, sender, [], cn + [x]);
    FillingSize(600, sender, [], cn + [x, y]);
  }

  lemma CycleSendable(l: Local, count: nat)
    requires l.Shaped()
    ensures Sendable(StartCycle(l.items, count))
  {
    var items := StartCycle(l.items, count);
    StartCycleSame(l.items, count);
    forall k | 0 <= k < |items|
      ensures NormalItemId(items[k].kind).Some?
    {
      assert SameItem(items[k], l.items[k]);
    }
  }

  /** The pass over the two items stops after the name. */
  lemma TwoLongStops(l: Local, sender: Sender)
    requires TwoLong(l) && !sender.NoReport?
    ensures
      var q := FillItems(Base(600, sender, l.cname), StartCycle(l.items, l.count + 1), 0, 0);
      q.full && Pending(q.items) == [Item(3, l.items[1].value)]
  {
    var b, items := Base(600, sender, l.cname), StartCycle(l.items, l.count + 1);
    var x, y := Item(2, l.items[0].value), Item(3, l.items[1].value);
    TwoLongDue(l);
    DueStart(l.items, l.count + 1);
    TwoLongSizes(sender, l.cname, x, y);
    BaseSize(600, sender, l.cname);
    CycleSendable(l, l.count + 1);
    StartCycleSame(l.items, l.count + 1);
    StoppedIff(600, sender, [], l.cname, items);
    PassSends(l, b, items);
    ExtraOf(600, sender, [], l.cname, [x]);
    assert [x, y][..1] == [x] && [x, y][1..] == [y];
  }

  lemma FirstPending(items: seq<LocalItem>)
    requires items != [] && items[0].due && items[0].kind == KINDS[0]
    ensures !items[0].processed ==> Pending(items) != [] && Pending(items)[0].id == 2
  {
  }

  /** So the name is marked. */
  lemma TwoLongPass(l: Local, sender: Sender)
    requires TwoLong(l) && !sender.NoReport?
    ensures
      var q := FillItems(Base(600, sender, l.cname), StartCycle(l.items, l.count + 1), 0, 0);
      q.full && q.items[0].processed
  {
    var items := StartCycle(l.items, l.count + 1);
    var q := FillItems(Base(600, sender, l.cname), items, 0, 0);
    TwoLongStops(l, sender);
    StartCycleItem(l.items, l.count + 1, 0);
    assert q.items[0] == items[0].(processed := q.items[0].processed);
    assert l.items[0].kind == KINDS[0];
    assert q.items[0].due && q.items[0].kind == KINDS[0];
    FirstPending(q.items);
  }

  /** With only the own source there is nothing to report. */
  lemma OwnSourceFresh(l: Local, own: Source, b: Build)
    requires own.own
    ensures Fresh(l, [own], b) == NewCycle(l, ClearFlags([own]), b, 0)
  {
    assert FillFrom(b, [own], 0, l.first, l.prev, 1, 0, 0) == Filled(b, [own], 0, 0, false, None, Ok);
  }

  lemma OwnSourcePacket(l: Local, own: Source, env: Env)
    requires Ready(l) && !l.processing && own.own
    ensures
      var b := Base(l.max, ReportSender(env, env.sender), l.cname);
      NextPacket(l, [own], env).local
      == NewCycle(l, ClearFlags([own]), b, 0).local.(first := false, prev := env.curtime)
  {
    NextParts(l, [own], env);
    OwnSourceFresh(l, own, Base(l.max, ReportSender(env, env.sender), l.cname));
  }

  lemma CycleStopsShort(l: Local, table: seq<Source>, b: Build, skipped: nat)
    requires table != []
    ensures
      var q := FillItems(b, StartCycle(l.items, l.count + 1), 0, 0);
      q.full ==> NewCycle(l, table, b, skipped).local == l.(processing := true, count := l.count + 1, items := q.items)
  {
  }

  /** A new builder after the calls Init, SetNameInterval, SetEMailInterval, SetLocalName and SetLocalEMail:
      both texts are due in every cycle. */
  function LongTexts(t: Text): (l: Local) {
    var l1 := DoInitLocal(NEW_LOCAL, 600, 0.0, t).0;
    var l2 := DoSetInterval(DoSetInterval(l1, 0, 1), 1, 1);
    DoSetItem(DoSetItem(l2, 0, t).0, 1, t).0
  }

  lemma LongTextsState(t: Text)
    ensures
      var items :=
        NEW_ITEMS[0 := LocalItem(KINDS[0], t, 1, false, false)][1 := LocalItem(KINDS[1], t, 1, false, false)];
      LongTexts(t) == Local(true, 600, true, 0.0, t, items, false, 0)
  {
    assert WithoutIntervals(NEW_ITEMS) == NEW_ITEMS;
  }

  lemma LongTextsTwoLong(t: Text)
    requires |t| == 255
    ensures TwoLong(LongTexts(t)) && LongTexts(t).items[0].value == t
  {
    LongTextsState(t);
  }

  /** After the packet the builder is in the middle of a cycle and the name is marked. */
  lemma NameMarked(l: Local, own: Source, env: Env)
    requires TwoLong(l) && own.own
    ensures
      var l' := NextPacket(l, [own], env).local;
      Proper(l') && l'.init && l'.processing && l'.items[0].processed && l'.items[0].value == l.items[0].value
  {
    var sender := ReportSender(env, env.sender);
    TwoLongPass(l, sender);
    OwnSourcePacket(l, own, env);
    CycleStopsShort(l, ClearFlags([own]), Base(600, sender, l.cname), 0);
    NextOutcome(l, [own], env);
    assert SameItem(l.items[0], NextPacket(l, [own], env).local.items[0]);
  }

  lemma NothingSent(l: Local)
    requires Proper(l) && l.init && !l.processing && Pending(StartCycle(l.items, l.count + 1)) == []
    ensures forall table, env :: Extra(NextPacket(l, table, env).build) == []
  {
    forall table, env
      ensures Extra(NextPacket(l, table, env).build) == []
    {
      NextOutcome(l, table, env);
    }
  }

  /** From the middle of a cycle: when the builder is destroyed and initialised again, the name is due,
      but it was marked before and no packet sends it. */
  ghost predicate NameLost(l: Local, cname: seq<Byte>) {
    && Proper(l) && l.init && l.processing
    && var again := Again(l, cname);
    && again.init && !again.processing && Due(again.items, again.count + 1) == [Item(2, l.items[0].value)]
    && forall table, env :: Extra(NextPacket(again, table, env).build) == []
  }

  lemma MarkLosesName(l: Local, cname: seq<Byte>)
    requires Proper(l) && l.init && l.processing && l.items[0].processed
    ensures NameLost(l, cname)
  {
    MarksKept(l, cname);
    NothingSent(Again(l, cname));
  }

  lemma TwoLongLosesName(l: Local, own: Source, env: Env, cname: seq<Byte>)
    requires TwoLong(l) && own.own
    ensures NameLost(NextPacket(l, [own], env).local, cname)
  {
    NameMarked(l, own, env);
    MarkLosesName(NextPacket(l, [own], env).local, cname);
  }

  /** Calls on a new builder lead to that. */
  lemma MarksSurvive(t: Text, own: Source, env: Env, cname: seq<Byte>)
    requires |t| == 255 && own.own
    ensures NameLost(NextPacket(LongTexts(t), [own], env).local, cname)
  {
    LongTextsTwoLong(t);
    TwoLongLosesName(LongTexts(t), own, env, cname);
  }
}
