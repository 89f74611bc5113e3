/** Whole runs of the scheduler: packets are never closer than half the compensated minimum interval,
    and reverse reconsideration only brings the timer forward. */
module SchedulerRuns {
  import opened Scheduler

  // ----- one interval -----

  /** The shortest interval the current state allows. */
  function LeastGap(s: State): real {
    if s.byescheduled && s.sendbyenow then 0.0
    else MinInterval(s.params, s.byescheduled || !s.hassentrtcp) * 0.5 / COMPENSATION
  }

  /** The interval that IsTime draws to see whether it is time. */
  function Interval(s: State, e: Env): real
    requires s.params.Usable()
  {
    if s.byescheduled then ByeTransmission(s, e.random) else Transmission(s, e, e.random)
  }

  lemma IntervalBound(s: State, e: Env)
    requires s.params.Usable() && e.Sane()
    ensures Interval(s, e) >= LeastGap(s) >= 0.0
  {
    var min := MinInterval(s.params, s.byescheduled || !s.hassentrtcp);
    if s.byescheduled {
      var ntimesC := NTimesC(s.byemembers as real, s.avgbyepacketsize, ReceiverShare(s.params));
      RandomisedBound(Larger(MinInterval(s.params, true), ntimesC), min, e.random);
    } else {
      var td := Deterministic(s.params, s.avgrtcppacksize, s.hassentrtcp, e.aresender, e.senders, e.members);
      RandomisedBound(td, min, e.random);
    }
  }

  lemma RandomisedBound(td: real, min: real, random: real)
    requires td >= min >= 0.0 && random >= 0.0
    ensures Randomised(td, random) >= min * 0.5 / COMPENSATION
  {
    ProductMonotone(min, td, 0.5);
    ProductMonotone(0.5, random + 0.5, td);
    QuotientMonotone(min * 0.5, td * (random + 0.5), COMPENSATION);
  }

  // ----- reverse reconsideration -----

  /** The part of a duration is not negative, and not longer when the count fell. */
  lemma ScaledPart(members: nat, pmembers: nat, x: real)
    requires x >= 0.0
    ensures 0.0 <= Scaled(members, pmembers, x) && (members < pmembers ==> Scaled(members, pmembers, x) <= x)
  {
    var p := if pmembers == 0 then 1 else pmembers;
    var q := (members as real) / (p as real);
    QuotientMonotone(0.0, members as real, p as real);
    ProductSign(q, x);
    if members < pmembers {
      QuotientMonotone(members as real, p as real, p as real);
      ProductMonotone(q, 1.0, x);
    }
  }

  /** Reverse reconsideration restores prev <= now <= next from any state. */
  lemma ReverseRestores(s: State, members: nat, now: real)
    requires !s.firstcall
    ensures
      var t := DoReverse(s, members, now);
      t.prev <= now <= t.next
  {
    ScaledPart(members, s.pmembers, Ahead(s.next, now));
    ScaledPart(members, s.pmembers, Ahead(now, s.prev));
  }

  /** When members have left, the last sending time does not move back, and a time that is still to
      come does not move away. */
  lemma DecreaseForward(s: State, members: nat, now: real)
    requires !s.firstcall && s.prev <= now
    ensures
      var t := DoDecrease(s, members, now);
      && s.prev <= t.prev <= now && (now <= s.next ==> t.next <= s.next)
      && (members < s.pmembers ==> now <= t.next)
  {
    ScaledPart(members, s.pmembers, Ahead(s.next, now));
    ScaledPart(members, s.pmembers, Ahead(now, s.prev));
  }

  lemma ScaledTwice(a: nat, b: nat, p: nat, x: real)
    requires 0 < a && 0 < p
    ensures Scaled(b, a, Scaled(a, p, x)) == Scaled(b, p, x)
  {
    var q, r := (b as real) / (a as real), (a as real) / (p as real);
    Quotient(b as real, a as real);
    Quotient(a as real, p as real);
    assert q * r * (p as real) == q * (r * (p as real)) == b as real;
    SameQuotient(q * r, b as real, p as real);
    assert q * (r * x) == q * r * x;
  }

  lemma SameQuotient(z: real, a: real, b: real)
    requires b > 0.0 && z * b == a
    ensures z == a / b
  {
  }

  /** Two drops at one instant are one drop. */
  lemma TwoDrops(s: State, a: nat, b: nat, now: real)
    requires !s.firstcall && b < a < s.pmembers
    ensures DoDecrease(DoDecrease(s, a, now), b, now) == DoDecrease(s, b, now)
  {
    var x, y := Ahead(s.next, now), Ahead(now, s.prev);
    ScaledPart(a, s.pmembers, x);
    ScaledPart(a, s.pmembers, y);
    ScaledTwice(a, b, s.pmembers, x);
    ScaledTwice(a, b, s.pmembers, y);
  }

  /** The state after the member count was reported several times at one instant. */
  function Drops(s: State, counts: seq<nat>, now: real): State
    decreases |counts|
  {
    if counts == [] then s else DoDecrease(Drops(s, counts[..|counts| - 1], now), counts[|counts| - 1], now)
  }

  function Least(counts: seq<nat>): nat
    requires counts != []
  {
    if |counts| == 1 then counts[0]
    else
      var rest, last := Least(counts[..|counts| - 1]), counts[|counts| - 1];
      if last < rest then last else rest
  }

  /** Any series of member counts at one instant gives the times that the least of them alone gives. */
  lemma {:induction false} DropsAreOne(s: State, counts: seq<nat>, now: real)
    requires !s.firstcall && counts != []
    ensures Drops(s, counts, now) == DoDecrease(s, Least(counts), now)
    decreases |counts|
  {
    var before, last := counts[..|counts| - 1], counts[|counts| - 1];
    if before == [] {
      assert Drops(s, before, now) == s;
    } else {
      DropsAreOne(s, before, now);
      var m := Least(before);
      if m < s.pmembers && last < m {
        TwoDrops(s, m, last, now);
      }
    }
  }

  // ----- runs -----

  datatype Event =
    | IsTime(e: Env)
    | GetTransmissionDelay(e: Env)
    | ScheduleBYEPacket(packetsize: nat, e: Env)
    | ActiveMemberDecrease(members: nat, now: real)
    | AnalyseIncoming(length: nat, isbye: bool)
    | AnalyseOutgoing(length: nat, isbye: bool)
    | SetParameters(p: Params)
    | SetHeaderOverhead(n: nat)

  function Step(s: State, ev: Event): (r: (State, bool))
    requires s.params.Usable()
  {
    match ev
    case IsTime(e) => DoIsTime(s, e)
    case GetTransmissionDelay(e) => (DoDelay(s, e).0, false)
    case ScheduleBYEPacket(n, e) => (DoScheduleBye(s, n, e), false)
    case ActiveMemberDecrease(m, now) => (DoDecrease(s, m, now), false)
    case AnalyseIncoming(n, isbye) => (DoIncoming(s, n, isbye), false)
    case AnalyseOutgoing(n, isbye) => (DoOutgoing(s, n, isbye), false)
    case SetParameters(p) => (s.(params := p), false)
    case SetHeaderOverhead(n) => (s.(headeroverhead := n), false)
  }

  /** The clock after a call, if it reads the clock at all. */
  function Clock(ev: Event, clock: real): real {
    match ev
    case IsTime(e) => e.latest
    case GetTransmissionDelay(e) => e.latest
    case ScheduleBYEPacket(_, e) => e.latest
    case ActiveMemberDecrease(_, now) => now
    case _ => clock
  }

  predicate Possible(ev: Event, clock: real) {
    match ev
    case IsTime(e) => e.Sane() && clock <= e.now
    case GetTransmissionDelay(e) => e.Sane() && clock <= e.now
    case ScheduleBYEPacket(_, e) => e.Sane() && clock <= e.now
    case ActiveMemberDecrease(_, now) => clock <= now
    case SetParameters(p) => p.Usable()
    case _ => true
  }

  predicate AllPossible(evs: seq<Event>, clock: real)
    decreases |evs|
  {
    evs == [] || (Possible(evs[0], clock) && AllPossible(evs[1..], Clock(evs[0], clock)))
  }

  /** A true result of IsTime: when, and the shortest interval that was allowed then. */
  datatype Firing = Firing(time: real, gap: real)

  lemma StepUsable(s: State, ev: Event, clock: real)
    requires s.params.Usable() && Possible(ev, clock)
    ensures Step(s, ev).0.params.Usable()
  {
  }

  function Firings(s: State, evs: seq<Event>, clock: real): (r: seq<Firing>)
    requires s.params.Usable() && AllPossible(evs, clock)
    decreases |evs|
  {
    if evs == [] then []
    else
      var (s', fired) := Step(s, evs[0]);
      StepUsable(s, evs[0], clock);
      var rest := Firings(s', evs[1..], Clock(evs[0], clock));
      if fired then [Firing(evs[0].e.now, LeastGap(s))] + rest else rest
  }

  /** Each firing is at least its gap after the one before, the first after `from`. */
  predicate Spaced(from: real, fs: seq<Firing>)
    decreases |fs|
  {
    fs == [] || (fs[0].time >= from + fs[0].gap && Spaced(fs[0].time, fs[1..]))
  }

  /** The last packet was sent at `t`, and nothing since has made the scheduler believe it was earlier. */
  predicate Since(s: State, t: real, clock: real) {
    s.params.Usable() && t <= clock && (s.firstcall || t <= s.prev <= clock)
  }

  lemma StepSince(s: State, ev: Event, t: real, clock: real)
    requires Since(s, t, clock) && Possible(ev, clock)
    ensures
      var (s', fired) := Step(s, ev);
      if fired then ev.e.now >= t + LeastGap(s) && Since(s', ev.e.now, Clock(ev, clock))
      else Since(s', t, Clock(ev, clock))
  {
    match ev
    case IsTime(e) => IntervalBound(s, e);
    case ActiveMemberDecrease(m, now) => if !s.firstcall { DecreaseForward(s, m, now); }
    case _ =>
  }

  /** Minimum spacing over whole runs: with a clock that does not go back, two successive packets are
      at least half the compensated minimum interval apart, whatever member counts, packet sizes,
      random values, parameter changes, drops and BYE packets come in between. */
  lemma {:induction false} MinimumSpacing(s: State, evs: seq<Event>, t: real, clock: real)
    requires Since(s, t, clock) && AllPossible(evs, clock)
    ensures Spaced(t, Firings(s, evs, clock))
    decreases |evs|
  {
    if evs != [] {
      var (s', fired) := Step(s, evs[0]);
      StepSince(s, evs[0], t, clock);
      if fired {
        MinimumSpacing(s', evs[1..], evs[0].e.now, Clock(evs[0], clock));
        var rest := Firings(s', evs[1..], Clock(evs[0], clock));
        assert Firings(s, evs, clock) == [Firing(evs[0].e.now, LeastGap(s))] + rest;
        assert ([Firing(evs[0].e.now, LeastGap(s))] + rest)[1..] == rest;
      } else {
        MinimumSpacing(s', evs[1..], t, Clock(evs[0], clock));
      }
    }
  }

  /** An interval is drawn unless a BYE packet may be sent immediately, and then it is at least a
      quarter of the compensated minimum interval. */
  lemma GapIsPositive(s: State, e: Env)
    requires s.params.Usable() && e.Sane()
    ensures Interval(s, e) > 0.0 <==> !(s.byescheduled && s.sendbyenow)
    ensures Interval(s, e) > 0.0 ==> Interval(s, e) >= LeastGap(s) >= s.params.mininterval * 0.25 / COMPENSATION
  {
    IntervalBound(s, e);
  }

  /** An immediate BYE packet does fire without any interval, at the very moment of another packet. */
  lemma ImmediateBye(s: State, e: Env, packetsize: nat, bye: Env, again: Env)
    requires s.params.Usable() && e.Sane() && bye.Sane() && again.Sane() && DoIsTime(s, e).1
    requires bye.now == again.now == e.now && s.params.immediatebye && bye.members < 50
    ensures DoIsTime(DoScheduleBye(DoIsTime(s, e).0, packetsize, bye), again).1
  {
  }

  /** Called again right away after a true result, IsTime returns false. */
  lemma NotTwice(s: State, e: Env, again: Env)
    requires s.params.Usable() && e.Sane() && DoIsTime(s, e).1 && again.now <= e.later
    ensures DoIsTime(DoIsTime(s, e).0, again) == (DoIsTime(s, e).0, false)
  {
  }
}
