/** What each call of RTCPScheduler does, as relations between the values before and after it: the interval
    that is drawn (section 6.3.1 of RFC 3550 and appendix A.7), and the effect on times and averages. */
module SchedulerLaws {
  import opened Scheduler

  // ----- the interval -----

  /** `y` is `m` times the least duration that is not shorter than `tmin` and in which `n` members that
      share the bandwidth `share` can send a packet of the average size each. */
  predicate LeastInterval(y: real, m: real, tmin: real, n: int, average: nat, share: real) {
    && y >= m * tmin && y * share >= m * ((n as real) * (average as real))
    && (y == m * tmin || y * share == m * ((n as real) * (average as real)))
  }

  lemma OneInterval(x: real, y: real, m: real, tmin: real, n: int, average: nat, share: real)
    requires share > 0.0
    requires LeastInterval(x, m, tmin, n, average, share) && LeastInterval(y, m, tmin, n, average, share)
    ensures x == y
  {
    if x < y {
      ProductStrict(x, y, share);
    } else if y < x {
      ProductStrict(y, x, share);
    }
  }

  /** Who shares which part of the bandwidth: the senders their fraction and the receivers the rest, unless
      the senders are more than that fraction of all members. */
  function Sharing(p: Params, e: Env): (nc: (int, real)) {
    var total := if e.members == 0 then 1 else e.members;
    if (e.senders as real) > p.senderfraction * (total as real) then (total, p.bandwidth)
    else if e.aresender then (e.senders, p.senderfraction * p.bandwidth)
    else (total - e.senders, (1.0 - p.senderfraction) * p.bandwidth)
  }

  /** The interval before an ordinary packet. The factor between 0.5 and 1.5 is random, and the divisor
      compensates for reconsideration. */
  predicate PacketInterval(s: State, e: Env, random: real, x: real) {
    var half := !s.hassentrtcp && s.params.usehalfatstartup;
    var tmin := if half then s.params.mininterval / 2.0 else s.params.mininterval;
    var (n, share) := Sharing(s.params, e);
    LeastInterval(x * 1.21828, random + 0.5, tmin, n, s.avgrtcppacksize, share)
  }

  /** The interval before a BYE packet: the members seen to leave share the receivers' part. */
  predicate ByeInterval(s: State, random: real, x: real) {
    if s.sendbyenow then x == 0.0
    else
      var tmin := if s.params.usehalfatstartup then s.params.mininterval / 2.0 else s.params.mininterval;
      LeastInterval(x * 1.21828, random + 0.5, tmin, s.byemembers, s.avgbyepacketsize,
        (1.0 - s.params.senderfraction) * s.params.bandwidth)
  }

  lemma LargerIsLeast(m: real, tmin: real, n: int, average: nat, share: real)
    requires share > 0.0 && m > 0.0
    ensures LeastInterval(Larger(tmin, NTimesC(n as real, average, share)) * m, m, tmin, n, average, share)
  {
    var na, ntimesC := (n as real) * (average as real), NTimesC(n as real, average, share);
    NTimesShare(n as real, average, share);
    var td := Larger(tmin, ntimesC);
    ProductMonotone(tmin, td, m);
    ProductMonotone(ntimesC, td, share);
    ProductMonotone(na, td * share, m);
    Reorder(td, m, share);
  }

  lemma Reorder(td: real, m: real, share: real)
    ensures td * m * share == m * (td * share) == td * share * m
  {
  }

  lemma NTimesShare(n: real, average: nat, share: real)
    requires share > 0.0
    ensures NTimesC(n, average, share) * share == n * (average as real)
  {
    var q := (average as real) / share;
    Quotient(average as real, share);
    assert n * q * share == n * (q * share);
  }

  lemma Compensated(td: real, random: real)
    ensures Randomised(td, random) * 1.21828 == td * (random + 0.5)
  {
    Quotient(td * (random + 0.5), 1.21828);
  }

  /** The test on the share of the senders, without a division. */
  lemma ShareTest(senders: nat, total: nat, f: real)
    requires total > 0
    ensures (senders as real) / (total as real) <= f <==> (senders as real) <= f * (total as real)
  {
    var q := (senders as real) / (total as real);
    Quotient(senders as real, total as real);
    if q <= f {
      ProductMonotone(q, f, total as real);
    } else {
      ProductStrict(f, q, total as real);
    }
  }

  lemma SharingIsShare(p: Params, e: Env)
    requires p.Usable()
    ensures
      var (n, share) := Sharing(p, e);
      0 <= n && share > 0.0 && Share(p, e.aresender, e.senders, e.members) == (n as real, share)
  {
    var total := if e.members == 0 then 1 else e.members;
    ShareTest(e.senders, total, p.senderfraction);
    Parts(p);
    if (e.senders as real) / (total as real) <= p.senderfraction {
      FewerSenders(e.senders, total, p.senderfraction);
    }
  }

  lemma Parts(p: Params)
    requires p.Usable()
    ensures SenderShare(p) == p.senderfraction * p.bandwidth
    ensures ReceiverShare(p) == (1.0 - p.senderfraction) * p.bandwidth
  {
  }

  lemma PacketIntervalDrawn(s: State, e: Env, random: real)
    requires s.params.Usable() && 0.0 <= random
    ensures PacketInterval(s, e, random, Transmission(s, e, random))
  {
    var p, average := s.params, s.avgrtcppacksize;
    var (n, share) := Sharing(p, e);
    SharingIsShare(p, e);
    var td := Deterministic(p, average, s.hassentrtcp, e.aresender, e.senders, e.members);
    DrawnIsLeast(td, random, MinInterval(p, !s.hassentrtcp), n, average, share);
  }

  lemma DrawnIsLeast(td: real, random: real, tmin: real, n: int, average: nat, share: real)
    requires share > 0.0 && 0.0 <= random && td == Larger(tmin, NTimesC(n as real, average, share))
    ensures LeastInterval(Randomised(td, random) * 1.21828, random + 0.5, tmin, n, average, share)
  {
    Compensated(td, random);
    LargerIsLeast(random + 0.5, tmin, n, average, share);
  }

  lemma ByeIntervalDrawn(s: State, random: real)
    requires s.params.Usable() && 0.0 <= random && s.byescheduled
    ensures ByeInterval(s, random, ByeTransmission(s, random))
  {
    if !s.sendbyenow {
      var tmin := MinInterval(s.params, true);
      var ntimesC := NTimesC(s.byemembers as real, s.avgbyepacketsize, ReceiverShare(s.params));
      DrawnIsLeast(Larger(tmin, ntimesC), random, tmin, s.byemembers, s.avgbyepacketsize, ReceiverShare(s.params));
      Parts(s.params);
    }
  }

  lemma OnePacketInterval(s: State, e: Env, random: real, x: real, y: real)
    requires s.params.Usable() && PacketInterval(s, e, random, x) && PacketInterval(s, e, random, y)
    ensures x == y
  {
    var (n, share) := Sharing(s.params, e);
    var half := !s.hassentrtcp && s.params.usehalfatstartup;
    var tmin := if half then s.params.mininterval / 2.0 else s.params.mininterval;
    SharingIsShare(s.params, e);
    OneInterval(x * 1.21828, y * 1.21828, random + 0.5, tmin, n, s.avgrtcppacksize, share);
  }

  lemma OneByeInterval(s: State, random: real, x: real, y: real)
    requires s.params.Usable() && ByeInterval(s, random, x) && ByeInterval(s, random, y)
    ensures x == y
  {
    if !s.sendbyenow {
      var p := s.params;
      var tmin := if p.usehalfatstartup then p.mininterval / 2.0 else p.mininterval;
      Parts(p);
      OneInterval(x * 1.21828, y * 1.21828, random + 0.5, tmin, s.byemembers, s.avgbyepacketsize,
        (1.0 - p.senderfraction) * p.bandwidth);
    }
  }

  // ----- the timer -----

  /** The interval with which IsTime checks whether it is time. */
  predicate CheckInterval(s: State, e: Env, x: real) {
    if s.byescheduled then ByeInterval(s, e.random, x) else PacketInterval(s, e, e.random, x)
  }

  /** Exactly one interval is drawn for given random values, so the laws below determine every call. */
  lemma OneCheckInterval(s: State, e: Env) returns (x: real)
    requires s.params.Usable() && e.Sane()
    ensures CheckInterval(s, e, x) && forall y :: CheckInterval(s, e, y) ==> x == y
  {
    if s.byescheduled {
      x := ByeTransmission(s, e.random);
      ByeIntervalDrawn(s, e.random);
    } else {
      x := Transmission(s, e, e.random);
      PacketIntervalDrawn(s, e, e.random);
    }
    forall y | CheckInterval(s, e, y)
      ensures x == y
    {
      if s.byescheduled {
        OneByeInterval(s, e.random, x, y);
      } else {
        OnePacketInterval(s, e, e.random, x, y);
      }
    }
  }

  /** The first call starts the timer: from the second reading of the clock, for an interval drawn with the
      second random value. */
  predicate TimerStarted(s: State, e: Env, t: State) {
    && t == s.(firstcall := false, prev := e.now, pmembers := e.members, next := t.next)
    && PacketInterval(s, e, e.random2, t.next - e.later)
  }

  /** IsTime: before the timer has run out nothing happens. Then the interval is drawn again, and it is time
      if the last packet is that long ago; if it is not, the timer is set to when it will be. */
  lemma IsTimeLaw(s: State, e: Env)
    requires s.params.Usable() && e.Sane()
    ensures
      var (t, fired) := DoIsTime(s, e);
      && (s.firstcall ==> !fired && TimerStarted(s, e, t))
      && (!s.firstcall && e.now < s.next ==> !fired && t == s)
      && (!s.firstcall && s.next <= e.now ==>
            && (fired <==> forall x :: CheckInterval(s, e, x) ==> s.prev + x <= e.now)
            && (!fired ==> t == s.(next := t.next, pmembers := e.members) && CheckInterval(s, e, t.next - s.prev))
            && (fired ==>
                  && t == s.(byescheduled := false, prev := e.now, pmembers := e.members, next := t.next)
                  && PacketInterval(s, e, e.random2, t.next - e.later)))
  {
    PacketIntervalDrawn(s, e, e.random2);
    var x := OneCheckInterval(s, e);
    var (t, fired) := DoIsTime(s, e);
    if !s.firstcall && s.next <= e.now {
      DrawnAt(s, e, x);
    }
  }

  /** The interval that IsTime draws. */
  lemma DrawnAt(s: State, e: Env, x: real)
    requires s.params.Usable() && e.Sane() && CheckInterval(s, e, x)
    ensures x == if s.byescheduled then ByeTransmission(s, e.random) else Transmission(s, e, e.random)
  {
    if s.byescheduled {
      ByeIntervalDrawn(s, e.random);
      OneByeInterval(s, e.random, x, ByeTransmission(s, e.random));
    } else {
      PacketIntervalDrawn(s, e, e.random);
      OnePacketInterval(s, e, e.random, x, Transmission(s, e, e.random));
    }
  }

  /** GetTransmissionDelay: the time until the timer runs out, and none when it has; only the first call
      changes anything. */
  lemma DelayLaw(s: State, e: Env)
    requires s.params.Usable() && e.Sane()
    ensures
      var (t, delay) := DoDelay(s, e);
      && (if s.firstcall then TimerStarted(s, e, t) else t == s)
      && delay >= 0.0
      && (delay > 0.0 ==> e.latest + delay == t.next) && (delay == 0.0 ==> t.next <= e.latest)
  {
    PacketIntervalDrawn(s, e, e.random2);
  }

  /** As long as the delay has not passed, IsTime says no. */
  lemma DelayIsShortEnough(s: State, e: Env, again: Env)
    requires s.params.Usable() && e.Sane() && again.Sane()
    requires e.latest <= again.now < e.latest + DoDelay(s, e).1
    ensures DoIsTime(DoDelay(s, e).0, again) == (DoDelay(s, e).0, false)
  {
  }

  // ----- BYE -----

  /** ScheduleBYEPacket: once until the packet is sent. The members that leave are counted from one, and the
      packet may go at once if that is allowed and there are fewer than 50 members. */
  lemma ScheduleByeLaw(s: State, packetsize: nat, e: Env)
    requires s.params.Usable() && e.Sane()
    ensures
      var t := DoScheduleBye(s, packetsize, e);
      && (s.byescheduled ==> t == s)
      && (!s.byescheduled ==>
            && t == s.(firstcall := false, pmembers := t.pmembers, byescheduled := true,
                 avgbyepacketsize := packetsize + s.headeroverhead, byemembers := 1, sendbyenow := t.sendbyenow,
                 prev := e.now, next := t.next)
            && t.pmembers == (if s.firstcall then e.members else s.pmembers)
            && (t.sendbyenow <==> s.params.immediatebye && e.members < 50)
            && ByeInterval(t, e.random, t.next - e.now))
  {
    if !s.byescheduled {
      ByeIntervalDrawn(PreparedBye(s, packetsize, e), e.random);
    }
  }

  // ----- averages -----

  /** One sixteenth of the new size and fifteen of the old average, less than one byte too small. */
  predicate Averaged(a: nat, size: nat, average: nat) {
    16 * a <= size + 15 * average < 16 * a + 16
  }

  /** AnalyseIncoming: a compound packet without a BYE changes the average packet size and nothing else; one
      with a BYE counts one more leaving member, and enters the average BYE packet size, if a BYE packet of
      our own is scheduled, and otherwise changes nothing. */
  lemma IncomingLaw(s: State, length: nat, isbye: bool)
    ensures
      var t := DoIncoming(s, length, isbye);
      && (!isbye ==>
            && t == s.(avgrtcppacksize := t.avgrtcppacksize)
            && Averaged(t.avgrtcppacksize, s.headeroverhead + length, s.avgrtcppacksize))
      && (isbye && s.byescheduled ==>
            && t == s.(avgbyepacketsize := t.avgbyepacketsize, byemembers := s.byemembers + 1)
            && Averaged(t.avgbyepacketsize, s.headeroverhead + length, s.avgbyepacketsize))
      && (isbye && !s.byescheduled ==> t == s)
  {
  }

  /** AnalyseOutgoing: after a packet was sent the timer no longer starts with half the minimum interval; a
      compound packet without a BYE enters the average. */
  lemma OutgoingLaw(s: State, length: nat, isbye: bool)
    ensures
      var t := DoOutgoing(s, length, isbye);
      && t == s.(hassentrtcp := true, avgrtcppacksize := t.avgrtcppacksize)
      && (isbye ==> t.avgrtcppacksize == s.avgrtcppacksize)
      && (!isbye ==> Averaged(t.avgrtcppacksize, s.headeroverhead + length, s.avgrtcppacksize))
  {
  }

  // ----- reverse reconsideration -----

  /** The part of a duration is to the duration as the new member count to the old. */
  lemma ScaledProportion(members: nat, pmembers: nat, x: real)
    ensures Scaled(members, pmembers, x) * ((if pmembers == 0 then 1 else pmembers) as real) == (members as real) * x
  {
    var p := (if pmembers == 0 then 1 else pmembers) as real;
    var q := (members as real) / p;
    Quotient(members as real, p);
    assert q * x * p == q * p * x;
  }

  /** PerformReverseReconsideration: the time to the next packet and the time since the last one change in
      proportion to the member count; an old count of none counts as one, a time that is past on its own
      side of now becomes now, and before the timer was first set nothing happens. */
  lemma ReverseProportion(s: State, members: nat, now: real)
    ensures s.firstcall ==> DoReverse(s, members, now) == s
    ensures !s.firstcall ==>
      var t, p := DoReverse(s, members, now), (if s.pmembers == 0 then 1 else s.pmembers) as real;
      && t == s.(next := t.next, prev := t.prev, pmembers := members)
      && (t.next - now) * p == (members as real) * (if s.next >= now then s.next - now else 0.0)
      && (now - t.prev) * p == (members as real) * (if s.prev <= now then now - s.prev else 0.0)
  {
    ScaledProportion(members, s.pmembers, Ahead(s.next, now));
    ScaledProportion(members, s.pmembers, Ahead(now, s.prev));
  }

  /** ActiveMemberDecrease does that exactly when the count fell. */
  lemma DecreaseLaw(s: State, members: nat, now: real)
    ensures members >= s.pmembers ==> DoDecrease(s, members, now) == s
    ensures members < s.pmembers ==> DoDecrease(s, members, now) == DoReverse(s, members, now)
  {
  }

  /** With half the members left, both times are halved: 10 ahead and 10 ago become 5. */
  lemma HalfTheMembers(s: State)
    requires !s.firstcall && s.prev == 0.0 && s.next == 20.0 && s.pmembers == 10
    ensures var t := DoDecrease(s, 5, 10.0); t.next == 15.0 && t.prev == 5.0
  {
    ReverseProportion(s, 5, 10.0);
  }

  /** Reset. */
  lemma ResetLaw(s: State)
    ensures
      var t := DoReset(s);
      && t.firstcall && !t.byescheduled && !t.sendbyenow && !t.hassentrtcp
      && t.headeroverhead == 0 && t.avgrtcppacksize == 1000
      && t.params == s.params
  {
  }
}
