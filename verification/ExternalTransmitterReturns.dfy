/** Which calls of RTPExternalTransmitter can still return: for every reachable state and every thread,
    a run that ends the call, or the proof that no run does. */
module ExternalTransmitterReturns {
  import opened Wire
  import opened ExternalTransmitter

  /** Some run brings thread `t` back from its call. */
  ghost predicate CanReturn(s: State, cap: nat, t: nat)
    requires t < |s.pcs|
  {
    exists events :: Run(s, cap, events).Some? && Run(s, cap, events).value.pcs[t].Idle?
  }

  // ----- the calls that never return -----

  /** The thread writes to the pipe before it gives the main mutex back. */
  predicate WillWrite(s: State, t: nat)
    requires t < |s.pcs|
  {
    var pc := s.pcs[t];
    pc.InjectPush? || pc.InjectWrite? || pc.AbortWrite? || (pc.AbortCheck? && s.waitingfordata)
  }

  predicate WriterInside(s: State) {
    s.main.Some? && s.main.value < |s.pcs| && WillWrite(s, s.main.value)
  }

  /** No thread but `t` is there to empty the pipe. */
  predicate OthersInject(s: State, t: nat) {
    forall u :: 0 <= u < |s.pcs| && u != t ==> s.pcs[u].InjectLock?
  }

  /** The pipe is full, and a thread that holds the main mutex is about to write to it, or `t` is going to
      and every other thread is as well. Only a wait that has nothing left to do but to give the wait
      mutex back is not concerned. */
  predicate Lost(s: State, cap: nat, t: nat)
    requires t < |s.pcs|
  {
    && s.pipe == cap && !s.pcs[t].Idle? && !s.pcs[t].WaitUnlockWait?
    && (WriterInside(s) || (s.pcs[t].InjectLock? && (cap == 0 || OthersInject(s, t))))
  }

  lemma FullStaysFull(s: State, cap: nat, u: nat, c: Choice)
    requires Inv(s, cap) && u < |s.pcs| && Move(s, cap, u, c).Some? && s.pipe == cap
    requires WriterInside(s) || cap == 0 || s.pcs[u].InjectLock?
    ensures Move(s, cap, u, c).value.pipe == cap
  {
    assert ThreadOk(s, u);
  }

  lemma WriterStays(s: State, cap: nat, u: nat, c: Choice)
    requires Inv(s, cap) && u < |s.pcs| && Move(s, cap, u, c).Some? && s.pipe == cap && WriterInside(s)
    ensures WriterInside(Move(s, cap, u, c).value)
  {
    assert ThreadOk(s, u);
  }

  lemma LostStep(s: State, cap: nat, t: nat, u: nat, c: Choice)
    requires Inv(s, cap) && t < |s.pcs| && Lost(s, cap, t) && u < |s.pcs| && Move(s, cap, u, c).Some?
    ensures Lost(Move(s, cap, u, c).value, cap, t)
  {
    assert ThreadOk(s, u) && ThreadOk(s, t);
    FullStaysFull(s, cap, u, c);
    if WriterInside(s) {
      WriterStays(s, cap, u, c);
    }
  }

  lemma {:induction false} LostForever(s: State, cap: nat, t: nat, events: seq<Event>)
    requires Inv(s, cap) && t < |s.pcs| && Lost(s, cap, t) && Run(s, cap, events).Some?
    ensures Lost(Run(s, cap, events).value, cap, t)
    decreases |events|
  {
    if events != [] {
      var (u, c) := events[0];
      LostStep(s, cap, t, u, c);
      StepInv(s, cap, u, c);
      LostForever(Move(s, cap, u, c).value, cap, t, events[1..]);
    }
  }

  // ----- one thread runs to the end of its call -----

  /** Nothing stands in the way of thread `u`: the main mutex is free or its own, the wait mutex is not
      held by a thread that is past its wait, and `u` does not have to write to a full pipe. */
  predicate Ready(s: State, cap: nat, u: nat)
    requires u < |s.pcs|
  {
    var pc := s.pcs[u];
    && (s.main.None? || s.main == Some(u))
    && (s.wait.Some? && s.wait.value < |s.pcs| && s.wait.value != u ==> Flagged(s.pcs[s.wait.value]))
    && (s.pipe == cap ==> !WillWrite(s, u) && !pc.InjectLock? && !(pc.AbortLock? && s.waitingfordata))
  }

  function Turn(s: State, u: nat): Choice
    requires u < |s.pcs|
  {
    if !s.pcs[u].WaitSelect? then Go else Return(if s.pipe > 0 then Readable else TimedOut)
  }

  function Distance(s: State, u: nat): nat
    requires u < |s.pcs|
  {
    match s.pcs[u]
    case Idle => 0
    case InjectLock(_) => 4
    case InjectPush(_) => 3
    case InjectWrite => 2
    case AbortLock => 4
    case AbortCheck => 3
    case AbortWrite => 2
    case PopLock => 3
    case PopTake => 2
    case AskLock => 3
    case AskRead => 2
    case UnlockMain(_) => 1
    case WaitLock => s.pipe + 12
    case WaitCheck => s.pipe + 11
    case WaitTest => s.pipe + 10
    case WaitTake => s.pipe + 9
    case WaitRelease => s.pipe + 8
    case WaitSelect => s.pipe + 7
    case WaitRelock(_) => s.pipe + 6
    case WaitClear(_) => s.pipe + 5
    case WaitSize => s.pipe + 4
    case WaitDrain(len) => len + 3
    case WaitUnlockMain(_) => 2
    case WaitUnlockWait(_) => 1
  }

  /** How long the packet list is after the call. */
  function ListAfter(s: State, u: nat): nat
    requires u < |s.pcs|
  {
    var pc := s.pcs[u];
    if pc.InjectLock? || pc.InjectPush? then |s.queue| + 1
    else if (pc.PopLock? || pc.PopTake?) && s.queue != [] then |s.queue| - 1
    else |s.queue|
  }

  /** The call will have read everything from the pipe. */
  predicate Empties(s: State, u: nat)
    requires u < |s.pcs|
  {
    match s.pcs[u]
    case WaitLock => !s.waitingfordata && s.queue == [] && s.pipe > 0
    case WaitCheck => !s.waitingfordata && s.queue == [] && s.pipe > 0
    case WaitTest => s.queue == [] && s.pipe > 0
    case WaitTake => s.pipe > 0
    case WaitRelease => s.pipe > 0
    case WaitSelect => s.pipe > 0
    case WaitRelock(o) => o.Readable?
    case WaitClear(o) => o.Readable?
    case WaitSize => true
    case WaitDrain(_) => true
    case WaitUnlockMain(_) => s.pipe == 0
    case WaitUnlockWait(_) => s.pipe == 0
    case Idle => s.pipe == 0
    case _ => false
  }

  lemma TurnMoves(s: State, cap: nat, u: nat)
    requires Inv(s, cap) && u < |s.pcs| && Ready(s, cap, u) && !s.pcs[u].Idle?
    ensures Move(s, cap, u, Turn(s, u)).Some?
  {
    assert ThreadOk(s, u);
    if s.wait.Some? {
      assert ThreadOk(s, s.wait.value) && NotBoth(s, u, s.wait.value);
    }
  }

  /** What a step of `u` leaves alone. */
  lemma TurnFrame(s: State, cap: nat, u: nat)
    requires u < |s.pcs| && ThreadOk(s, u) && Move(s, cap, u, Turn(s, u)).Some? && !s.pcs[u].Idle?
    ensures
      var r := Move(s, cap, u, Turn(s, u)).value;
      && r.pcs == s.pcs[u := r.pcs[u]]
      && (s.wait.Some? && s.wait != Some(u) ==> r.wait == s.wait)
      && (s.wait.None? || s.wait == Some(u) ==> r.wait == Some(u) || r.wait.None?)
  {
  }

  lemma TurnMain(s: State, cap: nat, u: nat)
    requires u < |s.pcs| && ThreadOk(s, u) && Move(s, cap, u, Turn(s, u)).Some? && !s.pcs[u].Idle?
    requires s.main.None? || s.main == Some(u)
    ensures
      var r := Move(s, cap, u, Turn(s, u)).value;
      r.main.None? || r.main == Some(u)
  {
  }

  /** A thread that will write has not written yet. */
  lemma TurnWrite(s: State, cap: nat, u: nat)
    requires u < |s.pcs| && ThreadOk(s, u) && Move(s, cap, u, Turn(s, u)).Some? && !s.pcs[u].Idle?
    ensures
      var r := Move(s, cap, u, Turn(s, u)).value;
      && !r.pcs[u].InjectLock? && !r.pcs[u].AbortLock?
      && (WillWrite(r, u) ==> r.pipe == s.pipe)
      && (WillWrite(r, u) ==> WillWrite(s, u) || s.pcs[u].InjectLock? || (s.pcs[u].AbortLock? && s.waitingfordata))
  {
  }

  lemma TurnReady(s: State, cap: nat, u: nat)
    requires u < |s.pcs| && ThreadOk(s, u) && Move(s, cap, u, Turn(s, u)).Some? && !s.pcs[u].Idle?
    requires Ready(s, cap, u) && s.pipe <= cap
    ensures Ready(Move(s, cap, u, Turn(s, u)).value, cap, u)
  {
    TurnFrame(s, cap, u);
    TurnMain(s, cap, u);
    TurnWrite(s, cap, u);
  }

  lemma WaitNearer(s: State, cap: nat, u: nat)
    requires u < |s.pcs| && ThreadOk(s, u) && Move(s, cap, u, Turn(s, u)).Some? && HoldsWait(s.pcs[u])
    ensures Distance(Move(s, cap, u, Turn(s, u)).value, u) < Distance(s, u)
  {
  }

  lemma TurnNearer(s: State, cap: nat, u: nat)
    requires u < |s.pcs| && ThreadOk(s, u) && Move(s, cap, u, Turn(s, u)).Some? && !s.pcs[u].Idle?
    ensures Distance(Move(s, cap, u, Turn(s, u)).value, u) < Distance(s, u)
  {
    if HoldsWait(s.pcs[u]) {
      WaitNearer(s, cap, u);
    }
  }

  lemma TurnList(s: State, cap: nat, u: nat)
    requires u < |s.pcs| && Move(s, cap, u, Turn(s, u)).Some? && !s.pcs[u].Idle?
    ensures ListAfter(Move(s, cap, u, Turn(s, u)).value, u) == ListAfter(s, u)
  {
    ListEffect(s, cap, u, Turn(s, u));
  }

  lemma TurnEmpties(s: State, cap: nat, u: nat)
    requires u < |s.pcs| && ThreadOk(s, u) && Move(s, cap, u, Turn(s, u)).Some? && !s.pcs[u].Idle?
    requires Empties(s, u)
    ensures Empties(Move(s, cap, u, Turn(s, u)).value, u)
  {
  }

  /** Thread `u` has ended its call, the others are where they were, and the mutexes are free unless
      another thread still waits. */
  predicate Ended(s: State, u: nat, r: State)
    requires u < |s.pcs|
  {
    && r.pcs == s.pcs[u := Idle] && r.main.None?
    && r.wait == (if s.wait == Some(u) then None else s.wait)
    && |r.queue| == ListAfter(s, u) && (Empties(s, u) ==> r.pipe == 0)
  }

  /** What a further turn adds to a run that ends the call. */
  lemma EndedLater(s: State, s1: State, u: nat, r: State)
    requires u < |s.pcs| == |s1.pcs| && Ended(s1, u, r)
    requires s1.pcs == s.pcs[u := s1.pcs[u]] && ListAfter(s1, u) == ListAfter(s, u)
    requires s.wait.Some? && s.wait != Some(u) ==> s1.wait == s.wait
    requires s.wait.None? || s.wait == Some(u) ==> s1.wait == Some(u) || s1.wait.None?
    requires Empties(s, u) ==> Empties(s1, u)
    ensures Ended(s, u, r)
  {
    assert s1.pcs[u := Idle] == s.pcs[u := Idle];
  }

  /** The steps of one thread to the end of its call. */
  lemma {:induction false} Ending(s: State, cap: nat, u: nat) returns (events: seq<Event>)
    requires Inv(s, cap) && u < |s.pcs| && Ready(s, cap, u)
    ensures |events| <= Distance(s, u)
    ensures Run(s, cap, events).Some? && Ended(s, u, Run(s, cap, events).value)
    decreases Distance(s, u)
  {
    assert ThreadOk(s, u);
    if s.pcs[u].Idle? {
      events := [];
      assert s.pcs[u := Idle] == s.pcs;
    } else {
      TurnMoves(s, cap, u);
      var c := Turn(s, u);
      var s1 := Move(s, cap, u, c).value;
      TurnFrame(s, cap, u);
      TurnReady(s, cap, u);
      TurnNearer(s, cap, u);
      TurnList(s, cap, u);
      if Empties(s, u) {
        TurnEmpties(s, cap, u);
      }
      StepInv(s, cap, u, c);
      var rest := Ending(s1, cap, u);
      events := [(u, c)] + rest;
      assert events[1..] == rest;
      EndedLater(s, s1, u, Run(s1, cap, rest).value);
    }
  }

  // ----- the threads inside are brought to rest -----

  /** Both mutexes are free, so no thread has gone further than the first lock of a call. */
  predicate Calm(s: State) {
    s.main.None? && s.wait.None?
  }

  lemma CalmThread(s: State, cap: nat, u: nat)
    requires Inv(s, cap) && Calm(s) && u < |s.pcs|
    ensures (s.pcs[u].Idle? || IsCall(s.pcs[u])) && !s.waitingfordata
  {
    assert ThreadOk(s, u);
  }

  /** Every thread is where it was or has ended its call. */
  predicate Settled(s: State, r: State) {
    |r.pcs| == |s.pcs| && forall u :: 0 <= u < |s.pcs| ==> r.pcs[u] == s.pcs[u] || r.pcs[u].Idle?
  }

  lemma SettledThrice(s0: State, s1: State, s2: State, s3: State)
    requires Settled(s0, s1) && Settled(s1, s2) && Settled(s2, s3)
    ensures Settled(s0, s3)
  {
  }

  lemma HolderReady(s: State, cap: nat)
    requires Inv(s, cap) && s.main.Some? && (s.pipe == cap ==> !WriterInside(s))
    requires s.wait.Some? ==> !s.pcs[s.wait.value].WaitUnlockWait?
    ensures Ready(s, cap, s.main.value)
  {
    var h := s.main.value;
    assert ThreadOk(s, h);
    if s.wait.Some? {
      assert ThreadOk(s, s.wait.value);
    }
  }

  /** A thread that is past its wait gives the wait mutex back. */
  lemma ReleaseWait(s: State, cap: nat) returns (events: seq<Event>)
    requires Inv(s, cap)
    ensures Run(s, cap, events).Some?
    ensures
      var r := Run(s, cap, events).value;
      && Settled(s, r) && r.main == s.main && r.pipe == s.pipe && r.queue == s.queue
      && r.waitingfordata == s.waitingfordata
      && (r.wait.Some? ==> r.wait.value < |r.pcs| && !r.pcs[r.wait.value].WaitUnlockWait?)
      && (s.main.Some? ==> r.pcs[s.main.value] == s.pcs[s.main.value])
  {
    events := [];
    if s.wait.Some? && s.pcs[s.wait.value].WaitUnlockWait? {
      assert ThreadOk(s, s.wait.value) && (s.main.Some? ==> ThreadOk(s, s.main.value));
      events := [(s.wait.value, Go)];
      assert events[1..] == [];
      assert Run(Move(s, cap, s.wait.value, Go).value, cap, []).Some?;
    }
  }

  lemma ReleaseMain(s: State, cap: nat) returns (events: seq<Event>)
    requires Inv(s, cap) && (s.pipe == cap ==> !WriterInside(s))
    requires s.wait.Some? ==> !s.pcs[s.wait.value].WaitUnlockWait?
    ensures Run(s, cap, events).Some?
    ensures
      var r := Run(s, cap, events).value;
      && Settled(s, r) && r.main.None?
      && (r.wait.Some? ==> r.wait.value < |r.pcs| && !r.pcs[r.wait.value].WaitUnlockWait?)
  {
    events := [];
    if s.main.Some? {
      HolderReady(s, cap);
      events := Ending(s, cap, s.main.value);
    }
  }

  lemma EndWait(s: State, cap: nat) returns (events: seq<Event>)
    requires Inv(s, cap) && s.main.None?
    requires s.wait.Some? ==> !s.pcs[s.wait.value].WaitUnlockWait?
    ensures Run(s, cap, events).Some?
    ensures Settled(s, Run(s, cap, events).value) && Calm(Run(s, cap, events).value)
  {
    events := [];
    if s.wait.Some? {
      assert ThreadOk(s, s.wait.value);
      events := Ending(s, cap, s.wait.value);
    }
  }

  /** Two runs, one after the other. */
  lemma Joined(s: State, cap: nat, first: seq<Event>, second: seq<Event>) returns (events: seq<Event>)
    requires Inv(s, cap) && Run(s, cap, first).Some? && Run(Run(s, cap, first).value, cap, second).Some?
    ensures Run(s, cap, events) == Run(Run(s, cap, first).value, cap, second)
    ensures Inv(Run(s, cap, events).value, cap)
  {
    events := first + second;
    RunAppend(s, cap, first, second);
    RunInv(s, cap, events);
  }

  /** The threads that hold the mutexes end their calls. */
  lemma Settle(s: State, cap: nat) returns (events: seq<Event>)
    requires Inv(s, cap) && (s.pipe == cap ==> !WriterInside(s))
    ensures Run(s, cap, events).Some?
    ensures
      var r := Run(s, cap, events).value;
      Settled(s, r) && Calm(r) && Inv(r, cap)
  {
    var first := ReleaseWait(s, cap);
    RunInv(s, cap, first);
    var s1 := Run(s, cap, first).value;
    var second := ReleaseMain(s1, cap);
    RunInv(s1, cap, second);
    var s2 := Run(s1, cap, second).value;
    var third := EndWait(s2, cap);
    SettledThrice(s, s1, s2, Run(s2, cap, third).value);
    events := Joined(s, cap, first, second);
    events := Joined(s, cap, events, third);
  }

  // ----- a thread that is at rest does a whole call -----

  /** An idle thread makes a call from beginning to end while everything else is at rest. */
  lemma Call(s: State, cap: nat, u: nat, first: Pc) returns (events: seq<Event>)
    requires Inv(s, cap) && Calm(s) && u < |s.pcs| && s.pcs[u].Idle? && IsCall(first) && !first.InjectLock?
    ensures Run(s, cap, events).Some?
    ensures
      var r := Run(s, cap, events).value;
      && Inv(r, cap) && Calm(r) && r.pcs == s.pcs
      && |r.queue| == (if first.PopLock? && s.queue != [] then |s.queue| - 1 else |s.queue|)
      && (first.WaitLock? && s.queue == [] && s.pipe > 0 ==> r.pipe == 0)
  {
    CalmThread(s, cap, u);
    var s1 := At(s, u, first);
    assert Move(s, cap, u, Begin(first)) == Some(s1);
    StepInv(s, cap, u, Begin(first));
    var rest := Ending(s1, cap, u);
    events := [(u, Begin(first))] + rest;
    assert events[1..] == rest;
    RunInv(s, cap, events);
    assert s1.pcs[u := Idle] == s.pcs;
  }

  /** An idle thread takes out every packet and then waits, which empties the pipe. */
  lemma {:induction false} Drain(s: State, cap: nat, u: nat) returns (events: seq<Event>)
    requires Inv(s, cap) && Calm(s) && u < |s.pcs| && s.pcs[u].Idle? && s.pipe > 0
    ensures Run(s, cap, events).Some?
    ensures
      var r := Run(s, cap, events).value;
      Inv(r, cap) && Calm(r) && r.pcs == s.pcs && r.pipe < cap
    decreases |s.queue|
  {
    if s.queue == [] {
      events := Call(s, cap, u, WaitLock);
    } else {
      var pop := Call(s, cap, u, PopLock);
      var s1 := Run(s, cap, pop).value;
      if s1.pipe > 0 {
        var rest := Drain(s1, cap, u);
        events := Joined(s, cap, pop, rest);
      } else {
        events := pop;
      }
    }
  }

  /** A thread that is not about to inject ends its call and empties the full pipe. */
  lemma Rescue(s: State, cap: nat, u: nat) returns (events: seq<Event>)
    requires Inv(s, cap) && Calm(s) && u < |s.pcs| && !s.pcs[u].InjectLock? && cap > 0
    ensures Run(s, cap, events).Some?
    ensures
      var r := Run(s, cap, events).value;
      Inv(r, cap) && Calm(r) && r.pcs == s.pcs[u := Idle] && r.pipe < cap
  {
    CalmThread(s, cap, u);
    var first := Ending(s, cap, u);
    RunInv(s, cap, first);
    var s1 := Run(s, cap, first).value;
    if s1.pipe < cap {
      events := first;
    } else {
      var rest := Drain(s1, cap, u);
      events := Joined(s, cap, first, rest);
    }
  }

  /** From a state at rest the call of `t` ends. */
  lemma CalmReturns(s: State, cap: nat, t: nat) returns (events: seq<Event>)
    requires Inv(s, cap) && Calm(s) && t < |s.pcs| && !Lost(s, cap, t)
    ensures Run(s, cap, events).Some? && Run(s, cap, events).value.pcs[t].Idle?
  {
    CalmThread(s, cap, t);
    if s.pcs[t].InjectLock? && s.pipe == cap {
      var u :| 0 <= u < |s.pcs| && u != t && !s.pcs[u].InjectLock?;
      var first := Rescue(s, cap, u);
      var rest := Ending(Run(s, cap, first).value, cap, t);
      events := Joined(s, cap, first, rest);
    } else {
      events := Ending(s, cap, t);
    }
  }

  /** Whoever held a mutex has become idle, and can empty the pipe for a thread that injects. */
  lemma SettledNotLost(s: State, cap: nat, t: nat, r: State)
    requires Inv(s, cap) && t < |s.pcs| && !Lost(s, cap, t) && !Calm(s)
    requires Settled(s, r) && Calm(r)
    ensures !Lost(r, cap, t)
  {
    var w := if s.main.Some? then s.main.value else s.wait.value;
    assert ThreadOk(s, w);
    assert r.pcs[w] == s.pcs[w] || r.pcs[w].Idle?;
  }

  /** The events of a run that ends the call of `t`. */
  lemma Returning(s: State, cap: nat, t: nat) returns (events: seq<Event>)
    requires Inv(s, cap) && t < |s.pcs| && !Lost(s, cap, t)
    ensures Run(s, cap, events).Some? && Run(s, cap, events).value.pcs[t].Idle?
  {
    if s.pcs[t].Idle? {
      events := [];
    } else if s.pcs[t].WaitUnlockWait? {
      events := [(t, Go)];
      assert events[1..] == [];
    } else if Calm(s) {
      events := CalmReturns(s, cap, t);
    } else {
      var first := Settle(s, cap);
      var r := Run(s, cap, first).value;
      SettledNotLost(s, cap, t, r);
      var rest := CalmReturns(r, cap, t);
      events := Joined(s, cap, first, rest);
    }
  }

  // ----- main results -----

  /** From every state that a run can reach, for a pipe of any capacity and any number of threads: the
      call of thread `t` can still return if and only if it is not lost. */
  lemma ReturnsIff(s: State, cap: nat, t: nat)
    requires Inv(s, cap) && t < |s.pcs|
    ensures CanReturn(s, cap, t) <==> !Lost(s, cap, t)
  {
    if Lost(s, cap, t) {
      forall events | Run(s, cap, events).Some?
        ensures !Run(s, cap, events).value.pcs[t].Idle?
      {
        LostForever(s, cap, t, events);
      }
    } else {
      var events := Returning(s, cap, t);
    }
  }

  /** The same before the call: whether a call that an idle thread is about to make can return. */
  lemma CallReturnsIff(s: State, cap: nat, t: nat, first: Pc)
    requires Inv(s, cap) && t < |s.pcs| && s.pcs[t].Idle? && IsCall(first)
    ensures Move(s, cap, t, Begin(first)) == Some(At(s, t, first))
    ensures CanReturn(At(s, t, first), cap, t) <==>
      !(s.pipe == cap && (WriterInside(s) || (first.InjectLock? && (cap == 0 || OthersInject(s, t)))))
  {
    var s1 := At(s, t, first);
    StepInv(s, cap, t, Begin(first));
    ReturnsIff(s1, cap, t);
    assert ThreadOk(s, t);
    assert WriterInside(s1) <==> WriterInside(s);
    assert forall u :: 0 <= u < |s.pcs| && u != t ==> s1.pcs[u] == s.pcs[u];
  }

  /** One thread injects packets and takes each out again until the pipe is full. Nothing is jammed and
      nobody holds a mutex, yet the next call of InjectRTP or InjectRTCP never returns. */
  lemma LostReached(cap: nat, p: Packet)
    ensures
      var r := Run(Start(1), cap, Rounds(p, cap) + [(0, Begin(InjectLock(p)))]);
      && r.Some? && Inv(r.value, cap) && Calm(r.value) && !Jammed(r.value, cap)
      && Lost(r.value, cap, 0) && !CanReturn(r.value, cap, 0)
  {
    var s := Start(1);
    var last: seq<Event> := [(0, Begin(InjectLock(p)))];
    ManyRounds(s, cap, p, cap);
    RunAppend(s, cap, Rounds(p, cap), last);
    var q := Run(s, cap, Rounds(p, cap)).value;
    RunOne(q, cap, last, 0, q.(pcs := [InjectLock(p)]));
    assert last[0..] == last && last[1..] == [];
    Reachable(1, cap, Rounds(p, cap) + last);
    ReturnsIff(q.(pcs := [InjectLock(p)]), cap, 0);
  }
}
