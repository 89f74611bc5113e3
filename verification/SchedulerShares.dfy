/** Two long-term properties of the scheduler: the average packet size settles, and a group whose
    members use the deterministic interval stays within the RTCP bandwidth (section 6.2 of RFC 3550). */
module SchedulerShares {
  import opened Scheduler

  // ----- the average packet size -----

  /** The integer form of the floating-point expression in the source. */
  lemma AverageIsCutOff(size: nat, average: nat)
    ensures Average(size, average) == (1.0 / 16.0 * (size as real) + 15.0 / 16.0 * (average as real)).Floor
  {
  }

  /** The packets a scheduler is told about: outgoing or incoming, with or without a BYE. */
  datatype Seen = Incoming(length: nat, isbye: bool) | Outgoing(length: nat, isbye: bool)

  function After(s: State, seen: seq<Seen>): State
    decreases |seen|
  {
    if seen == [] then s
    else
      var s', p := After(s, seen[..|seen| - 1]), seen[|seen| - 1];
      if p.Incoming? then DoIncoming(s', p.length, p.isbye) else DoOutgoing(s', p.length, p.isbye)
  }

  /** Over any mix of packets, the average stays between bounds on its first value and on the sizes of
      the packets without a BYE; packets with a BYE have no effect. */
  lemma {:induction false} AverageBetween(s: State, seen: seq<Seen>, lo: nat, hi: nat)
    requires lo <= s.avgrtcppacksize <= hi
    requires forall i :: 0 <= i < |seen| && !seen[i].isbye ==> lo <= s.headeroverhead + seen[i].length <= hi
    ensures lo <= After(s, seen).avgrtcppacksize <= hi && After(s, seen).headeroverhead == s.headeroverhead
  {
    if seen != [] {
      AverageBetween(s, seen[..|seen| - 1], lo, hi);
    }
  }

  function Repeatedly(size: nat, average: nat, n: nat): nat
    decreases n
  {
    if n == 0 then average else Repeatedly(size, Average(size, average), n - 1)
  }

  /** Where the average ends when all packets have one size. */
  function Limit(size: nat, average: nat): nat {
    if average > size then size else if average + 15 < size then size - 15 else average
  }

  function Distance(a: nat, b: nat): nat {
    if a < b then b - a else a - b
  }

  lemma AverageStep(size: nat, average: nat)
    ensures
      var next, limit := Average(size, average), Limit(size, average);
      && Limit(size, next) == limit
      && (average == limit ==> next == average)
      && (average != limit ==> Distance(next, limit) < Distance(average, limit))
  {
  }

  /** Fed packets of one size, the average reaches its limit in finitely many steps and stays there:
      the size itself from above, fifteen below it from further below, and any value from there up to
      the size is kept. */
  lemma {:induction false} AverageSettles(size: nat, average: nat, n: nat)
    requires n >= Distance(average, Limit(size, average))
    ensures Repeatedly(size, average, n) == Limit(size, average)
    ensures Limit(size, average) <= size < Limit(size, average) + 16
    decreases n
  {
    AverageStep(size, average);
    if n > 0 {
      AverageSettles(size, Average(size, average), n - 1);
    }
  }

  // ----- the bandwidth of a group -----

  /** A participant: what it knows of itself. */
  datatype Member = Member(sender: bool, hassent: bool)

  function Senders(group: seq<Member>): (n: nat)
    ensures n <= |group|
  {
    if group == [] then 0 else Senders(group[..|group| - 1]) + if group[|group| - 1].sender then 1 else 0
  }

  /** The bytes per second of one member that sends a packet every deterministic interval. */
  function MemberRate(p: Params, average: nat, m: Member, senders: nat, members: nat): real
    requires p.Usable()
  {
    (average as real) / Deterministic(p, average, m.hassent, m.sender, senders, members)
  }

  function Rates(p: Params, average: nat, group: seq<Member>, senders: nat, members: nat): (r: seq<real>)
    requires p.Usable()
    ensures |r| == |group|
    ensures forall i {:trigger r[i]} :: 0 <= i < |group| ==> r[i] == MemberRate(p, average, group[i], senders, members)
  {
    if group == [] then []
    else
      Rates(p, average, group[..|group| - 1], senders, members)
      + [MemberRate(p, average, group[|group| - 1], senders, members)]
  }

  function Sum(xs: seq<real>): real {
    if xs == [] then 0.0 else Sum(xs[..|xs| - 1]) + xs[|xs| - 1]
  }

  /** Dividing by an interval that is at least n * (average / share) leaves at most share / n. */
  lemma RateOfInterval(a: real, n: real, share: real, td: real)
    requires a >= 0.0 && n > 0.0 && share > 0.0 && td > 0.0 && td >= n * (a / share)
    ensures a / td <= share / n
  {
    Quotient(a, share);
    Quotient(a, td);
    Quotient(share, n);
    var q, u, v := a / share, a / td, share / n;
    ProductMonotone(n * q, td, share);
    assert n * q * share == n * (q * share) == n * a;
    assert u * (td * n) == u * td * n && v * (td * n) == v * n * td;
    if u > v {
      ProductStrict(v, u, td * n);
    }
  }

  /** No member takes more than an equal part of its share. */
  lemma MemberRateBound(p: Params, average: nat, m: Member, senders: nat, members: nat)
    requires p.Usable() && Share(p, m.sender, senders, members).0 > 0.0
    ensures
      var (n, share) := Share(p, m.sender, senders, members);
      MemberRate(p, average, m, senders, members) <= share / n
  {
    var (n, share) := Share(p, m.sender, senders, members);
    RateOfInterval(average as real, n, share, Deterministic(p, average, m.hassent, m.sender, senders, members));
  }

  lemma {:induction false} SumMonotone(xs: seq<real>, ys: seq<real>)
    requires |xs| == |ys| && forall i :: 0 <= i < |xs| ==> xs[i] <= ys[i]
    ensures Sum(xs) <= Sum(ys)
  {
    if xs != [] {
      SumMonotone(xs[..|xs| - 1], ys[..|ys| - 1]);
    }
  }

  /** `us` for each sender and `ur` for each receiver. */
  function Units(g: seq<Member>, us: real, ur: real): (r: seq<real>)
    ensures |r| == |g| && forall i {:trigger r[i]} :: 0 <= i < |g| ==> r[i] == if g[i].sender then us else ur
  {
    if g == [] then [] else Units(g[..|g| - 1], us, ur) + [if g[|g| - 1].sender then us else ur]
  }

  function Times(n: nat, u: real): real {
    if n == 0 then 0.0 else Times(n - 1, u) + u
  }

  lemma {:induction false} TimesProduct(n: nat, u: real)
    ensures Times(n, u) == (n as real) * u
  {
    if n > 0 {
      TimesProduct(n - 1, u);
      assert (n as real) * u == ((n - 1) as real) * u + u;
    }
  }

  lemma {:induction false} UnitsSum(g: seq<Member>, us: real, ur: real)
    ensures Sum(Units(g, us, ur)) == Times(Senders(g), us) + Times(|g| - Senders(g), ur)
  {
    if g != [] {
      var before, u := g[..|g| - 1], Units(g, us, ur);
      UnitsSum(before, us, ur);
      assert u[..|g| - 1] == Units(before, us, ur);
    }
  }

  lemma {:induction false} SendersCounted(g: seq<Member>, i: nat)
    requires i < |g|
    ensures if g[i].sender then Senders(g) > 0 else Senders(g) < |g|
  {
    if i < |g| - 1 {
      SendersCounted(g[..|g| - 1], i);
    }
  }

  /** What one sender and one receiver of the group may take. */
  function Unit(p: Params, sender: bool, senders: nat, members: nat): real
    requires p.Usable()
  {
    var (n, share) := Share(p, sender, senders, members);
    if n > 0.0 then share / n else 0.0
  }

  lemma EqualParts(n: nat, share: real)
    requires n > 0
    ensures Times(n, share / (n as real)) == share
  {
    TimesProduct(n, share / (n as real));
  }

  lemma {:induction false} TimesAdd(a: nat, b: nat, u: real)
    ensures Times(a + b, u) == Times(a, u) + Times(b, u)
  {
    if b > 0 {
      TimesAdd(a, b - 1, u);
    }
  }

  lemma UnitsAddUp(p: Params, senders: nat, members: nat)
    requires p.Usable() && senders <= members && members > 0
    ensures Times(senders, Unit(p, true, senders, members))
      + Times(members - senders, Unit(p, false, senders, members)) <= p.bandwidth
  {
    if (senders as real) / (members as real) <= p.senderfraction {
      if senders > 0 {
        EqualParts(senders, SenderShare(p));
      }
      if members > senders {
        EqualParts(members - senders, ReceiverShare(p));
      }
      SharesAddUp(p.senderfraction, p.bandwidth);
    } else {
      TimesAdd(senders, members - senders, p.bandwidth / (members as real));
      EqualParts(members, p.bandwidth);
    }
  }

  lemma SharesAddUp(f: real, b: real)
    ensures f * b + Product(1.0 - f, b) == b
  {
    assert (1.0 - f) * b == b - f * b;
  }

  /** For every group, whatever its numbers of senders and members and whoever has sent RTCP packets
      before: if each uses its deterministic interval, together they stay within the RTCP bandwidth. */
  lemma GroupBandwidth(p: Params, average: nat, group: seq<Member>)
    requires p.Usable()
    ensures Sum(Rates(p, average, group, Senders(group), |group|)) <= p.bandwidth
  {
    var senders, members := Senders(group), |group|;
    if members > 0 {
      RatesWithinUnits(p, average, group);
      UnitsSum(group, Unit(p, true, senders, members), Unit(p, false, senders, members));
      UnitsAddUp(p, senders, members);
    }
  }

  lemma RatesWithinUnits(p: Params, average: nat, group: seq<Member>)
    requires p.Usable()
    ensures
      var senders, members := Senders(group), |group|;
      Sum(Rates(p, average, group, senders, members))
      <= Sum(Units(group, Unit(p, true, senders, members), Unit(p, false, senders, members)))
  {
    var senders, members := Senders(group), |group|;
    var rates := Rates(p, average, group, senders, members);
    var units := Units(group, Unit(p, true, senders, members), Unit(p, false, senders, members));
    forall i | 0 <= i < members
      ensures rates[i] <= units[i]
    {
      MemberWithinUnit(p, average, group, i);
    }
    SumMonotone(rates, units);
  }

  lemma MemberWithinUnit(p: Params, average: nat, group: seq<Member>, i: nat)
    requires p.Usable() && i < |group|
    ensures MemberRate(p, average, group[i], Senders(group), |group|)
      <= Unit(p, group[i].sender, Senders(group), |group|)
  {
    SendersCounted(group, i);
    MemberRateBound(p, average, group[i], Senders(group), |group|);
  }
}
