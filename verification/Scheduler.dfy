/** RTCPScheduler: when the next RTCP packet should be sent (sections 6.2 and 6.3 of RFC 3550).
    Times, bandwidths and random values are reals. */
module Scheduler {
  import opened Wire

  const MIN_INTERVAL := 1.0
  /** Compensates for reconsideration converging below the intended average. */
  const COMPENSATION := 1.21828

  datatype Params = Params(
    bandwidth: real, senderfraction: real, mininterval: real, usehalfatstartup: bool, immediatebye: bool)
  {
    /** A bandwidth and shares to divide by: the setters also accept no bandwidth and an empty share. */
    predicate Usable() {
      bandwidth > 0.0 && 0.0 < senderfraction < 1.0 && mininterval >= MIN_INTERVAL
    }
  }

  datatype State = State(
    params: Params, headeroverhead: nat, avgrtcppacksize: nat, hassentrtcp: bool, firstcall: bool,
    next: real, prev: real, pmembers: nat,
    byescheduled: bool, byemembers: nat, avgbyepacketsize: nat, sendbyenow: bool)

  /** What a call reads: the source table, the random generator up to twice and the clock up to
      three times. */
  datatype Env = Env(
    members: nat, senders: nat, aresender: bool, random: real, random2: real, now: real, later: real, latest: real)
  {
    predicate Sane() {
      0.0 <= random < 1.0 && 0.0 <= random2 < 1.0 && now <= later <= latest
    }
  }

  // ----- intervals -----

  function Larger(a: real, b: real): real {
    if a > b then a else b
  }

  function SenderShare(p: Params): (r: real)
    requires p.Usable()
    ensures r > 0.0
  {
    p.senderfraction * p.bandwidth
  }

  function ReceiverShare(p: Params): (r: real)
    requires p.Usable()
    ensures r > 0.0
  {
    Product(1.0 - p.senderfraction, p.bandwidth)
  }

  function Product(x: real, y: real): (r: real)
    ensures x > 0.0 && y > 0.0 ==> r > 0.0
  {
    x * y
  }

  /** The number of participants that share a part of the bandwidth, and that part. */
  function Share(p: Params, sender: bool, senders: nat, members: nat): (nc: (real, real))
    requires p.Usable()
    ensures nc.1 > 0.0
  {
    var total := if members == 0 then 1 else members;
    if (senders as real) / (total as real) <= p.senderfraction then
      if sender then (senders as real, SenderShare(p)) else ((total - senders) as real, ReceiverShare(p))
    else (total as real, p.bandwidth)
  }

  function MinInterval(p: Params, half: bool): real {
    if half && p.usehalfatstartup then p.mininterval / 2.0 else p.mininterval
  }

  function NTimesC(n: real, average: nat, share: real): real
    requires share > 0.0
  {
    n * ((average as real) / share)
  }

  function Deterministic(p: Params, average: nat, hassent: bool, sender: bool, senders: nat, members: nat): (td: real)
    requires p.Usable()
    ensures td >= MinInterval(p, !hassent)
  {
    var (n, share) := Share(p, sender, senders, members);
    Larger(MinInterval(p, !hassent), NTimesC(n, average, share))
  }

  function Randomised(td: real, random: real): (t: real)
  {
    td * (random + 0.5) / COMPENSATION
  }

  function Transmission(s: State, e: Env, random: real): real
    requires s.params.Usable()
  {
    Randomised(Deterministic(s.params, s.avgrtcppacksize, s.hassentrtcp, e.aresender, e.senders, e.members), random)
  }

  function ByeTransmission(s: State, random: real): real
    requires s.params.Usable()
  {
    if !s.byescheduled || s.sendbyenow then 0.0
    else
      var ntimesC := NTimesC(s.byemembers as real, s.avgbyepacketsize, ReceiverShare(s.params));
      Randomised(Larger(MinInterval(s.params, true), ntimesC), random)
  }

  // ----- products and quotients -----

  lemma ProductSign(x: real, y: real)
    requires x >= 0.0 && y >= 0.0
    ensures x * y >= 0.0
  {
  }

  lemma ProductMonotone(x: real, y: real, z: real)
    requires x <= y && z >= 0.0
    ensures x * z <= y * z
  {
    ProductSign(y - x, z);
    assert (y - x) * z == y * z - x * z;
  }

  lemma ProductStrict(x: real, y: real, z: real)
    requires x < y && z > 0.0
    ensures x * z < y * z
  {
    assert (y - x) * z > 0.0;
    assert (y - x) * z == y * z - x * z;
  }

  lemma Quotient(a: real, b: real)
    requires b > 0.0
    ensures a / b * b == a
  {
  }

  lemma QuotientMonotone(a: real, c: real, b: real)
    requires b > 0.0 && a <= c
    ensures a / b <= c / b
  {
    var u, v := a / b, c / b;
    Quotient(a, b);
    Quotient(c, b);
    if u > v {
      ProductStrict(v, u, b);
    }
  }

  /** If the share of the senders is at most a part of one, the unsigned difference does not wrap around. */
  lemma FewerSenders(senders: nat, total: nat, f: real)
    requires total > 0 && f < 1.0 && (senders as real) / (total as real) <= f
    ensures senders <= total
  {
    Quotient(senders as real, total as real);
    ProductMonotone((senders as real) / (total as real), 1.0, total as real);
  }

  // ----- the calls -----

  function DoReset(s: State): State {
    s.(headeroverhead := 0, hassentrtcp := false, firstcall := true, avgrtcppacksize := 1000, byescheduled := false,
      sendbyenow := false)
  }

  /** One sixteenth of the new size and fifteen of the old average, cut off. */
  function Average(size: nat, average: nat): (a: nat)
  {
    (size + 15 * average) / 16
  }

  function DoIncoming(s: State, length: nat, isbye: bool): State {
    if !isbye then s.(avgrtcppacksize := Average(s.headeroverhead + length, s.avgrtcppacksize))
    else if s.byescheduled then
      s.(avgbyepacketsize := Average(s.headeroverhead + length, s.avgbyepacketsize), byemembers := s.byemembers + 1)
    else s
  }

  function DoOutgoing(s: State, length: nat, isbye: bool): State {
    var s' := s.(hassentrtcp := true);
    if isbye then s' else s'.(avgrtcppacksize := Average(s.headeroverhead + length, s.avgrtcppacksize))
  }

  /** The first timer. */
  function First(s: State, e: Env): State
    requires s.params.Usable()
  {
    s.(firstcall := false, prev := e.now, pmembers := e.members, next := e.later + Transmission(s, e, e.random2))
  }

  function DoIsTime(s: State, e: Env): (r: (State, bool))
    requires s.params.Usable()
  {
    if s.firstcall then (First(s, e), false)
    else if e.now < s.next then (s, false)
    else
      var interval := if s.byescheduled then ByeTransmission(s, e.random) else Transmission(s, e, e.random);
      var checktime := interval + s.prev;
      if checktime <= e.now then
        (s.(byescheduled := false, prev := e.now, pmembers := e.members,
            next := e.later + Transmission(s, e, e.random2)), true)
      else (s.(next := checktime, pmembers := e.members), false)
  }

  function DoDelay(s: State, e: Env): (r: (State, real))
    requires s.params.Usable()
  {
    var s' := if s.firstcall then First(s, e) else s;
    (s', if e.latest > s'.next then 0.0 else s'.next - e.latest)
  }

  function Ahead(a: real, b: real): real {
    if a > b then a - b else 0.0
  }

  /** A duration in proportion to the change of the member count. */
  function Scaled(members: nat, pmembers: nat, x: real): real {
    (members as real) / ((if pmembers == 0 then 1 else pmembers) as real) * x
  }

  function DoReverse(s: State, members: nat, now: real): State {
    if s.firstcall then s
    else
      s.(next := now + Scaled(members, s.pmembers, Ahead(s.next, now)),
         prev := now - Scaled(members, s.pmembers, Ahead(now, s.prev)),
         pmembers := members)
  }

  function DoDecrease(s: State, members: nat, now: real): State {
    if members < s.pmembers then DoReverse(s, members, now) else s
  }

  function PreparedBye(s: State, packetsize: nat, e: Env): State {
    s.(firstcall := false, pmembers := if s.firstcall then e.members else s.pmembers,
       byescheduled := true, avgbyepacketsize := packetsize + s.headeroverhead, byemembers := 1,
       sendbyenow := s.params.immediatebye && e.members < 50, prev := e.now)
  }

  function DoScheduleBye(s: State, packetsize: nat, e: Env): State
    requires s.params.Usable()
  {
    if s.byescheduled then s
    else
      var s' := PreparedBye(s, packetsize, e);
      s'.(next := e.now + ByeTransmission(s', e.random))
  }

  // ----- the object -----

  class RTCPScheduler {
    var schedparams: Params
    var headeroverhead: nat
    var avgrtcppacksize: nat
    var hassentrtcp: bool
    var firstcall: bool
    var nextrtcptime: real
    var prevrtcptime: real
    var pmembers: nat
    var byescheduled: bool
    var byemembers: nat
    var pbyemembers: nat
    var avgbyepacketsize: nat
    var sendbyenow: bool

    function Now(): State
      reads this
    {
      State(schedparams, headeroverhead, avgrtcppacksize, hassentrtcp, firstcall, nextrtcptime, prevrtcptime, pmembers,
            byescheduled, byemembers, avgbyepacketsize, sendbyenow)
    }

    constructor (p: Params)
      ensures firstcall && !byescheduled && schedparams == p && Now() == DoReset(Now())
      ensures prevrtcptime == nextrtcptime == 0.0
    {
      schedparams := p;
      nextrtcptime, prevrtcptime := 0.0, 0.0;
      pmembers, byemembers, pbyemembers, avgbyepacketsize := 0, 0, 0, 0;
      headeroverhead := 0;
      hassentrtcp := false;
      firstcall := true;
      avgrtcppacksize := 1000;
      byescheduled := false;
      sendbyenow := false;
    }

    method Reset()
      modifies this
      ensures Now() == DoReset(old(Now()))
    {
      headeroverhead := 0;
      hassentrtcp := false;
      firstcall := true;
      avgrtcppacksize := 1000;
      byescheduled := false;
      sendbyenow := false;
    }

    /** Looks for a BYE packet in a compound packet, given by the types of its packets. */
    static method HasBye(types: seq<Byte>) returns (isbye: bool)
      ensures isbye <==> TYPE_BYE in types
    {
      isbye := false;
      var i := 0;
      while !isbye && i < |types|
        invariant i <= |types| && (isbye <==> TYPE_BYE in types[..i])
        decreases !isbye, |types| - i
      {
        if types[i] == TYPE_BYE {
          isbye := true;
        }
        i := i + 1;
      }
    }

    method AnalyseIncoming(types: seq<Byte>, length: nat)
      modifies this
      ensures Now() == DoIncoming(old(Now()), length, TYPE_BYE in types)
    {
      var isbye := HasBye(types);
      if !isbye {
        var packsize := headeroverhead + length;
        avgrtcppacksize := Average(packsize, avgrtcppacksize);
      } else {
        if byescheduled {
          var packsize := headeroverhead + length;
          avgbyepacketsize := Average(packsize, avgbyepacketsize);
          byemembers := byemembers + 1;
        }
      }
    }

    method AnalyseOutgoing(types: seq<Byte>, length: nat)
      modifies this
      ensures Now() == DoOutgoing(old(Now()), length, TYPE_BYE in types)
    {
      var isbye := HasBye(types);
      if !isbye {
        var packsize := headeroverhead + length;
        avgrtcppacksize := Average(packsize, avgrtcppacksize);
      }
      hassentrtcp := true;
    }

    method CalculateDeterministicInterval(sender: bool, e: Env) returns (td: real)
      requires schedparams.Usable()
      ensures td == Deterministic(schedparams, avgrtcppacksize, hassentrtcp, sender, e.senders, e.members)
    {
      var numsenders, numtotal := e.senders, e.members;
      if numtotal == 0 {
        numtotal := numtotal + 1;
      }
      var sfraction := (numsenders as real) / (numtotal as real);
      var share, n := SenderShare(schedparams), 0.0;
      if sfraction <= schedparams.senderfraction {
        if sender {
          n := numsenders as real;
        } else {
          FewerSenders(numsenders, numtotal, schedparams.senderfraction);
          share := ReceiverShare(schedparams);
          n := (numtotal - numsenders) as real;
        }
      } else {
        share := schedparams.bandwidth;
        n := numtotal as real;
      }
      assert (n, share) == Share(schedparams, sender, e.senders, e.members);
      var tmin := schedparams.mininterval;
      if !hassentrtcp && schedparams.usehalfatstartup {
        tmin := tmin / 2.0;
      }
      var ntimesC := NTimesC(n, avgrtcppacksize, share);
      td := if tmin > ntimesC then tmin else ntimesC;
    }

    method CalculateTransmissionInterval(sender: bool, e: Env, random: real) returns (t: real)
      requires schedparams.Usable() && sender == e.aresender
      ensures t == Transmission(Now(), e, random)
    {
      var td := CalculateDeterministicInterval(sender, e);
      var mul := random + 0.5;
      t := td * mul / COMPENSATION;
    }

    method CalculateBYETransmissionInterval(random: real) returns (t: real)
      requires schedparams.Usable()
      ensures t == ByeTransmission(Now(), random)
    {
      if !byescheduled { return 0.0; }
      if sendbyenow { return 0.0; }
      var tmin := schedparams.mininterval;
      if schedparams.usehalfatstartup {
        tmin := tmin / 2.0;
      }
      var ntimesC := NTimesC(byemembers as real, avgbyepacketsize, ReceiverShare(schedparams));
      var td := if tmin > ntimesC then tmin else ntimesC;
      var mul := random + 0.5;
      t := td * mul / COMPENSATION;
    }

    method CalculateNextRTCPTime(e: Env)
      requires schedparams.Usable()
      modifies this`nextrtcptime
      ensures Now() == old(Now()).(next := e.later + Transmission(old(Now()), e, e.random2))
    {
      var interval := CalculateTransmissionInterval(e.aresender, e, e.random2);
      nextrtcptime := e.later;
      nextrtcptime := nextrtcptime + interval;
    }

    method StartTimer(e: Env)
      requires schedparams.Usable()
      modifies this
      ensures Now() == First(old(Now()), e)
    {
      firstcall := false;
      prevrtcptime := e.now;
      pmembers := e.members;
      CalculateNextRTCPTime(e);
    }

    method GetTransmissionDelay(e: Env) returns (delay: real)
      requires schedparams.Usable()
      modifies this
      ensures (Now(), delay) == DoDelay(old(Now()), e)
    {
      if firstcall {
        StartTimer(e);
      }
      if e.latest > nextrtcptime { return 0.0; }
      return nextrtcptime - e.latest;
    }

    method IsTime(e: Env) returns (istime: bool)
      requires schedparams.Usable()
      modifies this
      ensures (Now(), istime) == DoIsTime(old(Now()), e)
    {
      if firstcall {
        StartTimer(e);
        return false;
      }
      var currenttime := e.now;
      if currenttime < nextrtcptime { return false; }
      var checktime;
      if !byescheduled {
        checktime := CalculateTransmissionInterval(e.aresender, e, e.random);
      } else {
        checktime := CalculateBYETransmissionInterval(e.random);
      }
      checktime := checktime + prevrtcptime;
      if checktime <= currenttime {
        byescheduled := false;
        prevrtcptime := currenttime;
        pmembers := e.members;
        CalculateNextRTCPTime(e);
        return true;
      }
      nextrtcptime := checktime;
      pmembers := e.members;
      return false;
    }

    method PerformReverseReconsideration(members: nat, tc: real)
      modifies this
      ensures Now() == DoReverse(old(Now()), members, tc)
    {
      if firstcall { return; }
      var tnmintc := if nextrtcptime > tc then nextrtcptime - tc else 0.0;
      var tcmintp := if tc > prevrtcptime then tc - prevrtcptime else 0.0;
      if pmembers == 0 {
        pmembers := pmembers + 1;
      }
      var diff1 := (members as real) / (pmembers as real) * tnmintc;
      var diff2 := (members as real) / (pmembers as real) * tcmintp;
      nextrtcptime := tc;
      prevrtcptime := tc;
      nextrtcptime := nextrtcptime + diff1;
      prevrtcptime := prevrtcptime - diff2;
      pmembers := members;
    }

    method ActiveMemberDecrease(members: nat, now: real)
      modifies this
      ensures Now() == DoDecrease(old(Now()), members, now)
    {
      if members < pmembers {
        PerformReverseReconsideration(members, now);
      }
    }

    method ScheduleBYEPacket(packetsize: nat, e: Env)
      requires schedparams.Usable()
      modifies this
      ensures Now() == DoScheduleBye(old(Now()), packetsize, e)
    {
      if byescheduled { return; }
      PrepareBye(packetsize, e);
      var interval := CalculateBYETransmissionInterval(e.random);
      nextrtcptime := nextrtcptime + interval;
    }

    /** The state of a scheduled BYE packet, the timer still without its interval. */
    method PrepareBye(packetsize: nat, e: Env)
      modifies this
      ensures Now() == PreparedBye(old(Now()), packetsize, e).(next := e.now)
    {
      if firstcall {
        firstcall := false;
        pmembers := e.members;
      }
      byescheduled := true;
      avgbyepacketsize := packetsize + headeroverhead;
      byemembers := 1;
      pbyemembers := 1;
      if schedparams.immediatebye && e.members < 50 {
        sendbyenow := true;
      } else {
        sendbyenow := false;
      }
      prevrtcptime := e.now;
      nextrtcptime := prevrtcptime;
    }
  }
}
