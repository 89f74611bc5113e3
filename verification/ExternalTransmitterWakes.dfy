/** How RTPExternalTransmitter wakes a thread that waits: over any run, a call of AbortWait, InjectRTP or
    InjectRTCP that has come past its write has made the select of the waiter return. */
module ExternalTransmitterWakes {
  import opened Wire
  import opened ExternalTransmitter

  // ----- one step -----

  /** What each step does to the pipe: the two writes put one byte in, a read of the drain takes out at most
      256, and nothing else touches it. */
  lemma PipeStep(s: State, cap: nat, t: nat, c: Choice)
    requires Inv(s, cap) && t < |s.pcs| && Move(s, cap, t, c).Some?
    ensures
      var r, pc := Move(s, cap, t, c).value, s.pcs[t];
      if pc.InjectWrite? || pc.AbortWrite? then r.pipe == s.pipe + 1 <= cap
      else if pc.WaitDrain? then r.pipe == if s.pipe > 256 then s.pipe - 256 else 0
      else r.pipe == s.pipe
  {
    assert ThreadOk(s, t);
  }

  /** select returns readable if and only if the pipe holds a byte, by the time if and only if it does not,
      and with an error at any moment. */
  lemma SelectIff(s: State, cap: nat, t: nat)
    requires t < |s.pcs| && s.pcs[t].WaitSelect?
    ensures Move(s, cap, t, Return(Readable)).Some? <==> s.pipe > 0
    ensures Move(s, cap, t, Return(TimedOut)).Some? <==> s.pipe == 0
    ensures Move(s, cap, t, Return(SelectError)).Some? && Move(s, cap, t, Go).None?
  {
  }

  /** A wait that was woken reads the pipe, one that timed out does not, and both report; only a wait whose
      select failed says nothing about available data. */
  lemma AfterSelect(s: State, cap: nat, t: nat, o: Outcome)
    requires t < |s.pcs| && s.pcs[t] == WaitClear(o)
    ensures Move(s, cap, t, Go).Some?
    ensures
      var r := Move(s, cap, t, Go).value;
      && !r.waitingfordata && r.pipe == s.pipe
      && (o.Readable? <==> r.pcs[t].WaitSize?)
      && (!o.Readable? ==> r.pcs[t].WaitUnlockMain? && (r.pcs[t].answer.Some? <==> o.TimedOut?))
  {
  }

  /** A drain that has read all it was to read reports. */
  lemma AfterDrain(s: State, cap: nat, t: nat)
    requires t < |s.pcs| && s.pcs[t] == WaitDrain(0)
    ensures Move(s, cap, t, Go).Some?
    ensures
      var r := Move(s, cap, t, Go).value;
      r.pcs[t] == WaitUnlockMain(Some(s.queue != [])) && r.queue == s.queue
  {
  }

  /** The flag goes up when a wait finds it down, and comes down when that wait finds a packet in the list or
      its select has returned. */
  lemma FlagStep(s: State, cap: nat, t: nat, c: Choice)
    requires t < |s.pcs| && Move(s, cap, t, c).Some?
    ensures
      var r, pc := Move(s, cap, t, c).value, s.pcs[t];
      r.waitingfordata == if pc.WaitCheck? then true
                          else if pc.WaitClear? || (pc.WaitTest? && s.queue != []) then false
                          else s.waitingfordata
  {
  }

  // ----- waking -----

  /** Between its lock and its write. */
  predicate Notifying(pc: Pc) {
    pc.AbortLock? || pc.AbortCheck? || pc.AbortWrite? || pc.InjectLock? || pc.InjectPush? || pc.InjectWrite?
  }

  /** Thread `w` waits in select, and the pipe holds a byte or thread `a` is about to put one in. */
  predicate Waking(s: State, w: nat, a: nat) {
    && w < |s.pcs| && a < |s.pcs| && s.pcs[w].WaitSelect?
    && (s.pipe > 0 || Notifying(s.pcs[a]))
  }

  lemma NobodyDrains(s: State, cap: nat, w: nat, t: nat)
    requires Inv(s, cap) && w < |s.pcs| && s.pcs[w].WaitSelect? && t < |s.pcs| && t != w
    ensures !s.pcs[t].WaitDrain? && s.waitingfordata
  {
    assert ThreadOk(s, w) && ThreadOk(s, t);
  }

  lemma WakingStep(s: State, cap: nat, w: nat, a: nat, t: nat, c: Choice)
    requires Inv(s, cap) && Waking(s, w, a) && t < |s.pcs| && t != w && Move(s, cap, t, c).Some?
    ensures Waking(Move(s, cap, t, c).value, w, a)
  {
    NobodyDrains(s, cap, w, t);
    PipeStep(s, cap, t, c);
  }

  predicate Without(events: seq<Event>, w: nat) {
    forall i :: 0 <= i < |events| ==> events[i].0 != w
  }

  lemma {:induction false} WakingRun(s: State, cap: nat, w: nat, a: nat, events: seq<Event>)
    requires Inv(s, cap) && Waking(s, w, a) && Without(events, w) && Run(s, cap, events).Some?
    ensures Waking(Run(s, cap, events).value, w, a)
    decreases |events|
  {
    if events != [] {
      var (t, c) := events[0];
      assert t != w;
      WakingStep(s, cap, w, a, t, c);
      StepInv(s, cap, t, c);
      WakingRun(Move(s, cap, t, c).value, cap, w, a, events[1..]);
    }
  }

  /** While thread `w` waits in select, thread `a` calls AbortWait, InjectRTP or InjectRTCP. In any run in
      which `w` does not move: once `a` has come past its write, and ever after, `w` is still in select, the
      pipe holds a byte, so that select returns readable and can no longer return because of the time. */
  lemma CallWakes(s: State, cap: nat, w: nat, a: nat, events: seq<Event>)
    requires Inv(s, cap) && w < |s.pcs| && s.pcs[w].WaitSelect? && a < |s.pcs| && Notifying(s.pcs[a])
    requires Without(events, w) && Run(s, cap, events).Some?
    ensures
      var r := Run(s, cap, events).value;
      && r.pcs[w].WaitSelect?
      && (!Notifying(r.pcs[a]) ==>
            && r.pipe > 0
            && Move(r, cap, w, Return(Readable)).Some? && Move(r, cap, w, Return(TimedOut)).None?)
  {
    WakingRun(s, cap, w, a, events);
  }

  /** With room in the pipe and the main mutex free, AbortWait itself takes four steps to that point, and the
      byte is its own. */
  lemma AbortWrites(s: State, cap: nat, w: nat, a: nat)
    requires Inv(s, cap) && s.main.None? && s.pipe < cap
    requires w < |s.pcs| && s.pcs[w].WaitSelect? && a < |s.pcs| && s.pcs[a].AbortLock?
    ensures Run(s, cap, [(a, Go), (a, Go), (a, Go), (a, Go)])
      == Some(s.(pcs := s.pcs[a := Idle], pipe := s.pipe + 1))
  {
    NobodyDrains(s, cap, w, a);
    var s1 := At(s, a, AbortCheck).(main := Some(a));
    var s2 := At(s1, a, AbortWrite);
    var s3 := At(s2, a, UnlockMain(Done)).(pipe := s.pipe + 1);
    var s4 := At(s3, a, Idle).(main := None);
    var events: seq<Event> := [(a, Go), (a, Go), (a, Go), (a, Go)];
    RunNext(s, cap, events, 0, s1);
    RunNext(s1, cap, events, 1, s2);
    RunNext(s2, cap, events, 2, s3);
    RunNext(s3, cap, events, 3, s4);
    assert events[0..] == events && events[4..] == [];
    assert s4.pcs == s.pcs[a := Idle];
  }

  /** Without a waiter AbortWait writes nothing. */
  lemma AbortRefused(s: State, cap: nat, a: nat)
    requires Inv(s, cap) && s.main.None? && !s.waitingfordata && a < |s.pcs| && s.pcs[a].AbortLock?
    ensures Run(s, cap, [(a, Go), (a, Go), (a, Go)]) == Some(s.(pcs := s.pcs[a := Idle]))
  {
    var s1 := At(s, a, AbortCheck).(main := Some(a));
    var s2 := At(s1, a, UnlockMain(NotWaiting));
    var s3 := At(s2, a, Idle).(main := None);
    var events: seq<Event> := [(a, Go), (a, Go), (a, Go)];
    RunNext(s, cap, events, 0, s1);
    RunNext(s1, cap, events, 1, s2);
    RunNext(s2, cap, events, 2, s3);
    assert events[0..] == events && events[3..] == [];
    assert s3.pcs == s.pcs[a := Idle];
  }

  /** One step of a run. */
  lemma RunNext(s: State, cap: nat, events: seq<Event>, i: nat, s': State)
    requires i < |events| && events[i].0 < |s.pcs| && Move(s, cap, events[i].0, events[i].1) == Some(s')
    ensures Run(s, cap, events[i..]) == Run(s', cap, events[i + 1..])
  {
    assert events[i..][1..] == events[i + 1..];
  }
}
