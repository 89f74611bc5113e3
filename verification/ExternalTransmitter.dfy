/** RTPExternalTransmitter with any number of threads that inject, abort, poll and wait: two mutexes,
    a flag, a packet list and an abort pipe, as a state machine whose steps are the lock, unlock,
    read and write operations of the source. The transmitter has been created. */
module ExternalTransmitter {
  import opened Wire

  type Packet = seq<Byte>

  const BUFLEN := 256

  /** How select returned. */
  datatype Outcome = Readable | TimedOut | SelectError

  /** What a call answers that does not select: that it is done, whether there is data, that nobody waits,
      or that another thread does. */
  datatype Answer = Done | Available(yes: bool) | NotWaiting | AlreadyWaiting

  /** What a thread does next. */
  datatype Pc =
    | Idle
    // InjectRTP, InjectRTCP: lock, push, write to the pipe
    | InjectLock(p: Packet) | InjectPush(p: Packet) | InjectWrite
    // AbortWait
    | AbortLock | AbortCheck | AbortWrite
    // GetNextPacket
    | PopLock | PopTake
    // NewDataAvailable
    | AskLock | AskRead
    // the end of these four, and of a wait that does not select
    | UnlockMain(result: Answer)
    // WaitForIncomingData; `answer` is what it reports about available data, if it does
    | WaitLock | WaitCheck | WaitTest | WaitTake | WaitRelease | WaitSelect
    | WaitRelock(o: Outcome) | WaitClear(o: Outcome) | WaitSize | WaitDrain(len: nat)
    | WaitUnlockMain(answer: Option<bool>) | WaitUnlockWait(answer: Option<bool>)

  /** The shared variables, the threads, and the packets that went in and out. */
  datatype State = State(
    pcs: seq<Pc>, main: Option<nat>, wait: Option<nat>, waitingfordata: bool, queue: seq<Packet>, pipe: nat,
    injected: seq<Packet>, popped: seq<Packet>)

  /** What a step that is not determined chooses: the call to begin, or how select returns. */
  datatype Choice = Go | Begin(first: Pc) | Return(o: Outcome)

  predicate IsCall(pc: Pc) {
    pc.InjectLock? || pc.AbortLock? || pc.PopLock? || pc.AskLock? || pc.WaitLock?
  }

  // ----- steps -----

  function At(s: State, t: nat, pc: Pc): State
    requires t < |s.pcs|
  {
    s.(pcs := s.pcs[t := pc])
  }

  function LockMain(s: State, t: nat, pc: Pc): Option<State>
    requires t < |s.pcs|
  {
    if s.main.None? then Some(At(s, t, pc).(main := Some(t))) else None
  }

  function Write(s: State, cap: nat, t: nat): Option<State>
    requires t < |s.pcs|
  {
    if s.pipe < cap then Some(At(s, t, UnlockMain(Done)).(pipe := s.pipe + 1)) else None
  }

  /** One step of thread `t`; none if it has to wait. A pipe holds `cap` bytes. */
  function Move(s: State, cap: nat, t: nat, c: Choice): (r: Option<State>)
    requires t < |s.pcs|
    ensures r.Some? ==> |r.value.pcs| == |s.pcs|
  {
    var pc := s.pcs[t];
    if pc.Idle? then
      if c.Begin? && IsCall(c.first) then Some(At(s, t, c.first)) else None
    else if pc.WaitSelect? then
      if c.Return? && (c.o.Readable? ==> s.pipe > 0) && (c.o.TimedOut? ==> s.pipe == 0) then
        Some(At(s, t, WaitRelock(c.o)))
      else None
    else if !c.Go? then None
    else
      match pc
      case InjectLock(p) => LockMain(s, t, InjectPush(p))
      case InjectPush(p) => Some(At(s, t, InjectWrite).(queue := s.queue + [p], injected := s.injected + [p]))
      case InjectWrite => Write(s, cap, t)
      case AbortLock => LockMain(s, t, AbortCheck)
      case AbortCheck => Some(At(s, t, if s.waitingfordata then AbortWrite else UnlockMain(NotWaiting)))
      case AbortWrite => Write(s, cap, t)
      case PopLock => LockMain(s, t, PopTake)
      case PopTake =>
        if s.queue == [] then Some(At(s, t, UnlockMain(Done)))
        else Some(At(s, t, UnlockMain(Done)).(queue := s.queue[1..], popped := s.popped + [s.queue[0]]))
      case AskLock => LockMain(s, t, AskRead)
      case AskRead => Some(At(s, t, UnlockMain(Available(s.queue != []))))
      case UnlockMain(_) => Some(At(s, t, Idle).(main := None))
      case WaitLock => LockMain(s, t, WaitCheck)
      case WaitCheck =>
        if s.waitingfordata then Some(At(s, t, UnlockMain(AlreadyWaiting)))
        else Some(At(s, t, WaitTest).(waitingfordata := true))
      case WaitTest =>
        if s.queue != [] then Some(At(s, t, UnlockMain(Available(true))).(waitingfordata := false))
        else Some(At(s, t, WaitTake))
      case WaitTake => if s.wait.None? then Some(At(s, t, WaitRelease).(wait := Some(t))) else None
      case WaitRelease => Some(At(s, t, WaitSelect).(main := None))
      case WaitRelock(o) => LockMain(s, t, WaitClear(o))
      case WaitClear(o) =>
        var pc' := if o.Readable? then WaitSize else WaitUnlockMain(if o.TimedOut? then Some(s.queue != []) else None);
        Some(At(s, t, pc').(waitingfordata := false))
      case WaitSize => Some(At(s, t, WaitDrain(s.pipe)))
      case WaitDrain(len) =>
        var n := if len > BUFLEN then BUFLEN else len;
        if len == 0 then Some(At(s, t, WaitUnlockMain(Some(s.queue != []))))
        else if s.pipe == 0 then None
        else
          var got := if n > s.pipe then s.pipe else n;
          Some(At(s, t, WaitDrain(len - n)).(pipe := s.pipe - got))
      case WaitUnlockMain(answer) => Some(At(s, t, WaitUnlockWait(answer)).(main := None))
      case WaitUnlockWait(_) => Some(At(s, t, Idle).(wait := None))
      case _ => None
  }

  // ----- what every step keeps -----

  predicate HoldsMain(pc: Pc) {
    pc.InjectPush? || pc.InjectWrite? || pc.AbortCheck? || pc.AbortWrite? || pc.PopTake? || pc.AskRead?
    || pc.UnlockMain? || pc.WaitCheck? || pc.WaitTest? || pc.WaitTake? || pc.WaitRelease? || pc.WaitClear?
    || pc.WaitSize? || pc.WaitDrain? || pc.WaitUnlockMain?
  }

  predicate HoldsWait(pc: Pc) {
    pc.WaitRelease? || pc.WaitSelect? || pc.WaitRelock? || pc.WaitClear? || pc.WaitSize? || pc.WaitDrain?
    || pc.WaitUnlockMain? || pc.WaitUnlockWait?
  }

  /** Between setting the flag and clearing it. */
  predicate Flagged(pc: Pc) {
    pc.WaitTest? || pc.WaitTake? || pc.WaitRelease? || pc.WaitSelect? || pc.WaitRelock? || pc.WaitClear?
  }

  /** The thread that holds the main mutex has pushed a packet and not yet written to the pipe. */
  predicate Pushing(s: State) {
    s.main.Some? && s.main.value < |s.pcs| && s.pcs[s.main.value].InjectWrite?
  }

  predicate ThreadOk(s: State, t: nat)
    requires t < |s.pcs|
  {
    var pc := s.pcs[t];
    && (HoldsMain(pc) <==> s.main == Some(t))
    && (HoldsWait(pc) <==> s.wait == Some(t))
    && (Flagged(pc) ==> s.waitingfordata)
    && (pc.WaitTake? || pc.WaitRelease? ==> s.queue == [])
    && (pc.WaitSelect? || pc.WaitRelock? || pc.WaitClear? ==> s.queue == [] || s.pipe > 0 || Pushing(s))
    && (pc.WaitDrain? ==> s.pipe == pc.len)
    && (pc.WaitUnlockMain? && pc.answer.Some? ==> pc.answer.value == (s.queue != []))
    && (pc.UnlockMain? && pc.result.Available? ==> pc.result.yes == (s.queue != []))
  }

  ghost predicate ThreadsOk(s: State) {
    forall t {:trigger ThreadOk(s, t)} {:trigger s.pcs[t]} :: 0 <= t < |s.pcs| ==> ThreadOk(s, t)
  }

  /** The flag is set exactly while one thread is between setting and clearing it, and never two are. */
  ghost predicate FlagOk(s: State) {
    && (forall t, u :: 0 <= t < u < |s.pcs| ==> !(Flagged(s.pcs[t]) && Flagged(s.pcs[u])))
    && (s.waitingfordata ==> exists t :: 0 <= t < |s.pcs| && Flagged(s.pcs[t]))
  }

  ghost predicate Inv(s: State, cap: nat) {
    ThreadsOk(s) && FlagOk(s) && SharedOk(s, cap)
  }

  predicate SharedOk(s: State, cap: nat) {
    && (s.main.Some? ==> s.main.value < |s.pcs|) && (s.wait.Some? ==> s.wait.value < |s.pcs|)
    && s.pipe <= cap
    && s.injected == s.popped + s.queue
  }

  function Start(threads: nat): State {
    State(seq(threads, i => Idle), None, None, false, [], 0, [], [])
  }

  lemma StartInv(threads: nat, cap: nat)
    ensures Inv(Start(threads), cap)
  {
  }

  predicate NotBoth(s: State, t: nat, u: nat)
    requires t < |s.pcs| && u < |s.pcs|
  {
    t != u ==> !(Flagged(s.pcs[t]) && Flagged(s.pcs[u]))
  }

  lemma StepWaiting(s: State, cap: nat, t: nat, c: Choice)
    requires t < |s.pcs| && Move(s, cap, t, c).Some? && ThreadOk(s, t) && HoldsWait(s.pcs[t])
    ensures ThreadOk(Move(s, cap, t, c).value, t)
  {
  }

  lemma StepSelf(s: State, cap: nat, t: nat, c: Choice)
    requires t < |s.pcs| && Move(s, cap, t, c).Some? && ThreadOk(s, t)
    ensures ThreadOk(Move(s, cap, t, c).value, t)
  {
    if HoldsWait(s.pcs[t]) {
      StepWaiting(s, cap, t, c);
    }
  }

  lemma WaiterOther(s: State, cap: nat, t: nat, c: Choice, u: nat)
    requires t < |s.pcs| && u < |s.pcs| && u != t && Move(s, cap, t, c).Some? && HoldsWait(s.pcs[t])
    requires ThreadOk(s, t) && ThreadOk(s, u) && NotBoth(s, t, u)
    ensures ThreadOk(Move(s, cap, t, c).value, u)
  {
  }

  /** The effect of a step of `t` on another thread. */
  lemma StepOther(s: State, cap: nat, t: nat, c: Choice, u: nat)
    requires t < |s.pcs| && u < |s.pcs| && u != t && Move(s, cap, t, c).Some?
    requires ThreadOk(s, t) && ThreadOk(s, u) && NotBoth(s, t, u)
    ensures ThreadOk(Move(s, cap, t, c).value, u)
  {
    if HoldsWait(s.pcs[t]) {
      WaiterOther(s, cap, t, c, u);
    }
  }

  lemma StepFlagged(s: State, cap: nat, t: nat, c: Choice, u: nat)
    requires t < |s.pcs| && u < |s.pcs| && Move(s, cap, t, c).Some? && u != t
    requires ThreadOk(s, t) && ThreadOk(s, u) && NotBoth(s, t, u)
    ensures NotBoth(Move(s, cap, t, c).value, t, u) && Move(s, cap, t, c).value.pcs[u] == s.pcs[u]
  {
  }

  lemma StepFlag(s: State, cap: nat, t: nat, c: Choice)
    requires Inv(s, cap) && t < |s.pcs| && Move(s, cap, t, c).Some?
    ensures FlagOk(Move(s, cap, t, c).value)
  {
    var s' := Move(s, cap, t, c).value;
    assert ThreadOk(s, t);
    forall u | 0 <= u < |s.pcs| && u != t
      ensures NotBoth(s', t, u) && s'.pcs[u] == s.pcs[u]
    {
      assert ThreadOk(s, u) && NotBoth(s, t, u);
      StepFlagged(s, cap, t, c, u);
    }
    FlagKept(s, s', t);
  }

  lemma FlagKept(s: State, s': State, t: nat)
    requires FlagOk(s) && t < |s.pcs| == |s'.pcs|
    requires forall u {:trigger s'.pcs[u]} :: 0 <= u < |s.pcs| && u != t ==> NotBoth(s', t, u) && s'.pcs[u] == s.pcs[u]
    requires s'.waitingfordata ==> Flagged(s'.pcs[t]) || (s.waitingfordata && !Flagged(s.pcs[t]))
    ensures FlagOk(s')
  {
    if s'.waitingfordata && !Flagged(s'.pcs[t]) {
      var w :| 0 <= w < |s.pcs| && Flagged(s.pcs[w]);
      assert w != t && s'.pcs[w] == s.pcs[w];
    }
    forall u, w | 0 <= u < w < |s'.pcs|
      ensures !(Flagged(s'.pcs[u]) && Flagged(s'.pcs[w]))
    {
      assert u != t ==> NotBoth(s', t, u) && s'.pcs[u] == s.pcs[u];
      assert w != t ==> NotBoth(s', t, w) && s'.pcs[w] == s.pcs[w];
    }
  }

  lemma StepThreads(s: State, cap: nat, t: nat, c: Choice)
    requires Inv(s, cap) && t < |s.pcs| && Move(s, cap, t, c).Some?
    ensures ThreadsOk(Move(s, cap, t, c).value)
  {
    var s' := Move(s, cap, t, c).value;
    forall u | 0 <= u < |s'.pcs|
      ensures ThreadOk(s', u)
    {
      assert ThreadOk(s, t) && ThreadOk(s, u) && NotBoth(s, t, u);
      if u == t {
        StepSelf(s, cap, t, c);
      } else {
        StepOther(s, cap, t, c, u);
      }
    }
  }

  lemma PushKeepsOrder(popped: seq<Packet>, queue: seq<Packet>, p: Packet)
    ensures popped + (queue + [p]) == popped + queue + [p]
  {
  }

  lemma PopKeepsOrder(popped: seq<Packet>, queue: seq<Packet>)
    requires queue != []
    ensures popped + [queue[0]] + queue[1..] == popped + queue
  {
  }

  /** A step leaves the list of packets alone, pushes one that is injected, or pops one. */
  lemma ListEffect(s: State, cap: nat, t: nat, c: Choice)
    requires t < |s.pcs| && Move(s, cap, t, c).Some?
    ensures
      var s', pc := Move(s, cap, t, c).value, s.pcs[t];
      if pc.InjectPush? then s'.queue == s.queue + [pc.p] && s'.injected == s.injected + [pc.p] && s'.popped == s.popped
      else if pc.PopTake? && s.queue != [] then
        s'.queue == s.queue[1..] && s'.injected == s.injected && s'.popped == s.popped + [s.queue[0]]
      else s'.queue == s.queue && s'.injected == s.injected && s'.popped == s.popped
  {
  }

  lemma StepShared(s: State, cap: nat, t: nat, c: Choice)
    requires SharedOk(s, cap) && t < |s.pcs| && Move(s, cap, t, c).Some?
    ensures SharedOk(Move(s, cap, t, c).value, cap)
  {
    ListEffect(s, cap, t, c);
    MainEffect(s, cap, t, c);
    WaitEffect(s, cap, t, c);
    PipeEffect(s, cap, t, c);
    if s.pcs[t].InjectPush? {
      PushKeepsOrder(s.popped, s.queue, s.pcs[t].p);
    } else if s.pcs[t].PopTake? && s.queue != [] {
      PopKeepsOrder(s.popped, s.queue);
    }
  }

  lemma MainEffect(s: State, cap: nat, t: nat, c: Choice)
    requires t < |s.pcs| && Move(s, cap, t, c).Some? && (s.main.Some? ==> s.main.value < |s.pcs|)
    ensures Move(s, cap, t, c).value.main.Some? ==> Move(s, cap, t, c).value.main.value < |s.pcs|
  {
  }

  lemma WaitEffect(s: State, cap: nat, t: nat, c: Choice)
    requires t < |s.pcs| && Move(s, cap, t, c).Some? && (s.wait.Some? ==> s.wait.value < |s.pcs|)
    ensures Move(s, cap, t, c).value.wait.Some? ==> Move(s, cap, t, c).value.wait.value < |s.pcs|
  {
  }

  lemma PipeEffect(s: State, cap: nat, t: nat, c: Choice)
    requires t < |s.pcs| && Move(s, cap, t, c).Some?
    ensures Move(s, cap, t, c).value.pipe <= if s.pipe < cap then cap else s.pipe
  {
  }

  /** Every step of every thread keeps the invariant. */
  lemma StepInv(s: State, cap: nat, t: nat, c: Choice)
    requires Inv(s, cap) && t < |s.pcs| && Move(s, cap, t, c).Some?
    ensures Inv(Move(s, cap, t, c).value, cap)
  {
    StepFlag(s, cap, t, c);
    StepThreads(s, cap, t, c);
    StepShared(s, cap, t, c);
  }

  // ----- runs -----

  type Event = (nat, Choice)

  function Run(s: State, cap: nat, events: seq<Event>): (r: Option<State>)
    ensures r.Some? ==> |r.value.pcs| == |s.pcs|
    decreases |events|
  {
    if events == [] then Some(s)
    else if events[0].0 >= |s.pcs| then None
    else
      var s' := Move(s, cap, events[0].0, events[0].1);
      if s'.None? then None else Run(s'.value, cap, events[1..])
  }

  lemma {:induction false} RunInv(s: State, cap: nat, events: seq<Event>)
    requires Inv(s, cap) && Run(s, cap, events).Some?
    ensures Inv(Run(s, cap, events).value, cap)
    decreases |events|
  {
    if events != [] {
      StepInv(s, cap, events[0].0, events[0].1);
      RunInv(Move(s, cap, events[0].0, events[0].1).value, cap, events[1..]);
    }
  }

  /** Every interleaving of any number of threads keeps the invariant. */
  lemma Reachable(threads: nat, cap: nat, events: seq<Event>)
    requires Run(Start(threads), cap, events).Some?
    ensures Inv(Run(Start(threads), cap, events).value, cap)
  {
    StartInv(threads, cap);
    RunInv(Start(threads), cap, events);
  }

  // ----- mutual exclusion, order, wake-up -----

  lemma MutualExclusion(s: State, cap: nat, t: nat, u: nat)
    requires Inv(s, cap) && t < |s.pcs| && u < |s.pcs|
    requires (HoldsMain(s.pcs[t]) && HoldsMain(s.pcs[u])) || (HoldsWait(s.pcs[t]) && HoldsWait(s.pcs[u]))
    ensures t == u
  {
  }

  /** Packets leave in the order of injection, none lost and none twice. */
  lemma FirstInFirstOut(threads: nat, cap: nat, events: seq<Event>)
    requires Run(Start(threads), cap, events).Some?
    ensures
      var s := Run(Start(threads), cap, events).value;
      && s.popped <= s.injected && s.queue == s.injected[|s.popped|..]
  {
    Reachable(threads, cap, events);
  }

  /** No lost wake-up: when a waiter sits in select, packets are queued and no injector is between its
      push and its write, the pipe holds a byte, so select returns, and not because of the time. */
  lemma NoLostWakeUp(s: State, cap: nat, t: nat)
    requires Inv(s, cap) && t < |s.pcs| && s.pcs[t].WaitSelect? && s.queue != [] && !Pushing(s)
    ensures s.pipe > 0
    ensures Move(s, cap, t, Return(Readable)).Some? && Move(s, cap, t, Return(TimedOut)).None?
  {
  }

  /** A wait that reports at all reports truly, at the moment it gives the main mutex back. */
  lemma AnswerIsTrue(s: State, cap: nat, t: nat)
    requires Inv(s, cap) && t < |s.pcs| && s.pcs[t].WaitUnlockMain? && s.pcs[t].answer.Some?
    ensures s.pcs[t].answer.value <==> s.queue != []
  {
  }

  /** NewDataAvailable, and a wait that finds a packet before it would select, answer truly as well. */
  lemma AskIsTrue(s: State, cap: nat, t: nat)
    requires Inv(s, cap) && t < |s.pcs| && s.pcs[t].UnlockMain? && s.pcs[t].result.Available?
    ensures s.pcs[t].result.yes <==> s.queue != []
  {
    assert ThreadOk(s, t);
  }

  /** Which answer each of these calls gives. */
  lemma Answers(s: State, cap: nat, t: nat)
    requires t < |s.pcs| && Move(s, cap, t, Go).Some? && Move(s, cap, t, Go).value.pcs[t].UnlockMain?
    ensures
      var pc, result := s.pcs[t], Move(s, cap, t, Go).value.pcs[t].result;
      && (result == NotWaiting <==> pc.AbortCheck?) && (pc.AbortCheck? ==> !s.waitingfordata)
      && (result == AlreadyWaiting <==> pc.WaitCheck?) && (pc.WaitCheck? ==> s.waitingfordata)
      && (result.Available? <==> pc.AskRead? || pc.WaitTest?)
      && (result == Done <==> pc.InjectWrite? || pc.AbortWrite? || pc.PopTake?)
  {
  }

  /** Reading the pipe in pieces of 256 bytes never blocks and empties it. */
  lemma DrainStep(s: State, cap: nat, t: nat)
    requires Inv(s, cap) && t < |s.pcs| && s.pcs[t].WaitDrain?
    ensures
      var s' := Move(s, cap, t, Go);
      && s'.Some?
      && if s.pcs[t].len == 0 then s.pipe == 0 && s'.value.pcs[t].WaitUnlockMain?
         else s'.value.pipe < s.pipe && s'.value.pcs[t] == WaitDrain(s'.value.pipe)
  {
  }

  // ----- deadlock -----

  ghost predicate CanMove(s: State, cap: nat, t: nat) {
    t < |s.pcs| && exists c :: Move(s, cap, t, c).Some?
  }

  /** A thread that holds the main mutex has to write to a full pipe. */
  predicate Jammed(s: State, cap: nat) {
    && s.main.Some? && s.main.value < |s.pcs| && s.pipe == cap
    && (s.pcs[s.main.value].InjectWrite? || s.pcs[s.main.value].AbortWrite?)
  }

  /** Although the mutexes are taken in both orders no circle of waiting threads arises: whatever a call
      is waiting for, it can move itself or the holder of a mutex can, unless that one has to write to
      a full pipe; a wait that selects is woken by the pipe or by the time. Which calls then come to
      their end is ExternalTransmitterReturns.ReturnsIff. */
  lemma NoDeadlock(s: State, cap: nat, t: nat) returns (u: nat, c: Choice)
    requires Inv(s, cap) && t < |s.pcs| && !s.pcs[t].Idle? && !Jammed(s, cap)
    ensures u < |s.pcs| && Move(s, cap, u, c).Some? && !s.pcs[u].Idle? && c != Return(SelectError)
    ensures u == t || s.main == Some(u) || s.wait == Some(u)
  {
    u := t;
    if s.main.Some? {
      u := s.main.value;
      if s.pcs[u].WaitTake? && s.wait.Some? {
        assert ThreadOk(s, u);
        u := s.wait.value;
      }
    }
    assert ThreadOk(s, t) && ThreadOk(s, u) && (s.main.Some? ==> ThreadOk(s, s.main.value));
    assert u != t ==> !(Flagged(s.pcs[u]) && Flagged(s.pcs[t]));
    assert s.main.Some? && u != s.main.value ==> NotBoth(s, s.main.value, u);
    c := if !s.pcs[u].WaitSelect? then Go else if s.pipe > 0 then Return(Readable) else Return(TimedOut);
  }

  lemma JammedStep(s: State, cap: nat, t: nat, c: Choice)
    requires Inv(s, cap) && Jammed(s, cap) && t < |s.pcs| && Move(s, cap, t, c).Some?
    ensures
      var s' := Move(s, cap, t, c).value;
      t != s.main.value && Jammed(s', cap) && s'.main == s.main && s'.queue == s.queue
  {
  }

  /** Once jammed, always jammed, whatever the threads do: nobody can empty the pipe without the main
      mutex, so the packets stay where they are. */
  lemma {:induction false} JammedForever(s: State, cap: nat, events: seq<Event>)
    requires Inv(s, cap) && Jammed(s, cap) && Run(s, cap, events).Some?
    ensures
      var r := Run(s, cap, events).value;
      Jammed(r, cap) && r.main == s.main && r.queue == s.queue && r.popped == s.popped
    decreases |events|
  {
    if events != [] {
      var (t, c) := events[0];
      JammedStep(s, cap, t, c);
      ListEffect(s, cap, t, c);
      StepInv(s, cap, t, c);
      JammedForever(Move(s, cap, t, c).value, cap, events[1..]);
    }
  }

  /** Apart from waiting for the wait mutex, whose holder is then about to release it, the holder of
      the main mutex is stuck if and only if it has to write to a full pipe. */
  lemma StuckIff(s: State, cap: nat)
    requires Inv(s, cap) && s.main.Some?
    ensures s.main.value < |s.pcs|
    ensures Jammed(s, cap) <==> !CanMove(s, cap, s.main.value) && !s.pcs[s.main.value].WaitTake?
    ensures s.pcs[s.main.value].WaitTake? && s.wait.Some? ==>
      s.pcs[s.wait.value].WaitUnlockWait? && CanMove(s, cap, s.wait.value)
  {
    var m := s.main.value;
    assert ThreadOk(s, m);
    if s.wait.Some? {
      assert ThreadOk(s, s.wait.value) && NotBoth(s, m, s.wait.value);
      assert s.pcs[s.wait.value].WaitUnlockWait? ==> Move(s, cap, s.wait.value, Go).Some?;
    }
    assert !Jammed(s, cap) && !s.pcs[m].WaitTake? ==> Move(s, cap, m, Go).Some?;
  }

  // ----- how the pipe fills up -----

  function Inject(p: Packet): seq<Event> {
    [(0, Begin(InjectLock(p))), (0, Go), (0, Go), (0, Go), (0, Go)]
  }

  const POP: seq<Event> := [(0, Begin(PopLock)), (0, Go), (0, Go), (0, Go)]

  /** A thread injects packets and takes each out again. */
  function Rounds(p: Packet, n: nat): seq<Event> {
    if n == 0 then [] else Inject(p) + POP + Rounds(p, n - 1)
  }

  lemma {:induction false} RunAppend(s: State, cap: nat, a: seq<Event>, b: seq<Event>)
    requires Run(s, cap, a).Some?
    ensures Run(s, cap, a + b) == Run(Run(s, cap, a).value, cap, b)
    decreases |a|
  {
    if a == [] {
      assert a + b == b;
    } else {
      assert (a + b)[1..] == a[1..] + b;
      RunAppend(Move(s, cap, a[0].0, a[0].1).value, cap, a[1..], b);
    }
  }

  predicate Quiet(s: State) {
    s.pcs == [Idle] && s.main.None? && s.wait.None? && !s.waitingfordata && s.queue == []
  }

  /** One step of the only thread. */
  lemma RunOne(s: State, cap: nat, ev: seq<Event>, i: nat, s': State)
    requires i < |ev| && ev[i].0 == 0 && |s.pcs| == 1 && Move(s, cap, 0, ev[i].1).Some?
    requires
      var r := Move(s, cap, 0, ev[i].1).value;
      s' == r.(pcs := [r.pcs[0]])
    ensures Run(s, cap, ev[i..]) == Run(s', cap, ev[i + 1..])
  {
    var r := Move(s, cap, 0, ev[i].1).value;
    assert r.pcs == [r.pcs[0]];
    assert ev[i..][1..] == ev[i + 1..];
  }

  lemma RunInject(s: State, cap: nat, p: Packet)
    requires Quiet(s) && s.pipe < cap
    ensures Run(s, cap, Inject(p)) == Some(s.(pipe := s.pipe + 1, queue := [p], injected := s.injected + [p]))
  {
    var ev := Inject(p);
    var s1 := s.(pcs := [InjectLock(p)]);
    var s2 := s.(pcs := [InjectPush(p)], main := Some(0));
    var s3 := s2.(pcs := [InjectWrite], queue := [p], injected := s.injected + [p]);
    var s4 := s3.(pcs := [UnlockMain(Done)], pipe := s.pipe + 1);
    assert [] + [p] == [p];
    RunOne(s, cap, ev, 0, s1);
    RunOne(s1, cap, ev, 1, s2);
    RunOne(s2, cap, ev, 2, s3);
    RunOne(s3, cap, ev, 3, s4);
    RunOne(s4, cap, ev, 4, s4.(pcs := [Idle], main := None));
    assert ev[0..] == ev && ev[5..] == [];
  }

  lemma RunPop(s: State, cap: nat, p: Packet)
    requires Quiet(s.(queue := [])) && s.queue == [p]
    ensures Run(s, cap, POP) == Some(s.(queue := [], popped := s.popped + [p]))
  {
    var s1 := s.(pcs := [PopLock]);
    var s2 := s1.(pcs := [PopTake], main := Some(0));
    var s3 := s2.(pcs := [UnlockMain(Done)], queue := [], popped := s.popped + [p]);
    assert [p][1..] == [];
    RunOne(s, cap, POP, 0, s1);
    RunOne(s1, cap, POP, 1, s2);
    RunOne(s2, cap, POP, 2, s3);
    RunOne(s3, cap, POP, 3, s3.(pcs := [Idle], main := None));
    assert POP[0..] == POP && POP[4..] == [];
  }

  lemma {:induction false} ManyRounds(s: State, cap: nat, p: Packet, n: nat)
    requires Quiet(s) && s.pipe + n <= cap
    ensures
      var r := Run(s, cap, Rounds(p, n));
      r.Some? && Quiet(r.value) && r.value.pipe == s.pipe + n
    decreases n
  {
    if n > 0 {
      RunInject(s, cap, p);
      RunPop(Run(s, cap, Inject(p)).value, cap, p);
      RunAppend(s, cap, Inject(p), POP);
      ManyRounds(Run(s, cap, Inject(p) + POP).value, cap, p, n - 1);
      RunAppend(s, cap, Inject(p) + POP, Rounds(p, n - 1));
    }
  }

  /** With a pipe of any capacity the jam is reached, without any waiter and although every packet is
      taken out at once: only a wait that selects empties the pipe. */
  lemma JamReached(cap: nat, p: Packet)
    ensures
      var r := Run(Start(1), cap, Rounds(p, cap) + [(0, Begin(InjectLock(p))), (0, Go), (0, Go)]);
      r.Some? && Jammed(r.value, cap)
  {
    var s := Start(1);
    var last: seq<Event> := [(0, Begin(InjectLock(p))), (0, Go), (0, Go)];
    ManyRounds(s, cap, p, cap);
    RunAppend(s, cap, Rounds(p, cap), last);
    var q := Run(s, cap, Rounds(p, cap)).value;
    var q1 := q.(pcs := [InjectLock(p)]);
    var q2 := q.(pcs := [InjectPush(p)], main := Some(0));
    var q3 := q2.(pcs := [InjectWrite], queue := [p], injected := q.injected + [p]);
    assert [] + [p] == [p];
    RunOne(q, cap, last, 0, q1);
    RunOne(q1, cap, last, 1, q2);
    RunOne(q2, cap, last, 2, q3);
    assert last[0..] == last && last[3..] == [];
  }
}
