/** JThread::Start and the thread it creates: the handshake over a flag and three mutexes, as a state
    machine of the two, over any number of starts. Thread() may call ThreadStarted or not. */
module ThreadStart {
  import opened Wire

  datatype Agent = Starter | Thread

  datatype Owner = Free | Held(holder: Agent)

  /** What the starter does next. */
  datatype StarterPc =
    | Resting | LockRunning | TestRunning | UnlockAlready | UnlockRunning | LockContinue | Create | UnlockFailed
    | PollLock | PollTest | PollUnlock | PollDone | UnlockContinue | LockContinue2 | UnlockContinue2

  /** What the created thread does next. */
  datatype ThreadPc =
    | Absent | TakeContinue2 | TakeRunning | SetRunning | GiveRunning | TakeContinue | GiveContinue
    | InThread(started: bool) | TakeRunningAgain | ClearRunning | GiveRunningAgain

  datatype Result = Started | AlreadyRunning | CantStartThread

  /** The counters are history: threads created, calls of ThreadStarted, and returns of 0 from Start. */
  datatype State = State(
    starter: StarterPc, thread: ThreadPc, running: bool,
    runningmutex: Owner, continuemutex: Owner, continuemutex2: Owner,
    created: nat, announced: nat, returned: nat, last: Option<Result>)

  /** What is not determined: whether a thread can be created, and what Thread() does. */
  datatype Choice = Go | Fail | CallThreadStarted | Leave

  function StarterMove(s: State, c: Choice): Option<State> {
    match s.starter
    case Resting => Some(s.(starter := LockRunning))
    case LockRunning =>
      if s.runningmutex.Free? then Some(s.(starter := TestRunning, runningmutex := Held(Starter))) else None
    case TestRunning => Some(s.(starter := if s.running then UnlockAlready else UnlockRunning))
    case UnlockAlready => Some(s.(starter := Resting, runningmutex := Free, last := Some(AlreadyRunning)))
    case UnlockRunning => Some(s.(starter := LockContinue, runningmutex := Free))
    case LockContinue =>
      if s.continuemutex.Free? then Some(s.(starter := Create, continuemutex := Held(Starter))) else None
    case Create =>
      if c.Fail? then Some(s.(starter := UnlockFailed))
      else Some(s.(starter := PollLock, thread := TakeContinue2, created := s.created + 1))
    case UnlockFailed => Some(s.(starter := Resting, continuemutex := Free, last := Some(CantStartThread)))
    case PollLock =>
      if s.runningmutex.Free? then Some(s.(starter := PollTest, runningmutex := Held(Starter))) else None
    case PollTest => Some(s.(starter := if s.running then PollDone else PollUnlock))
    case PollUnlock => Some(s.(starter := PollLock, runningmutex := Free))
    case PollDone => Some(s.(starter := UnlockContinue, runningmutex := Free))
    case UnlockContinue => Some(s.(starter := LockContinue2, continuemutex := Free))
    case LockContinue2 =>
      if s.continuemutex2.Free? then Some(s.(starter := UnlockContinue2, continuemutex2 := Held(Starter))) else None
    case UnlockContinue2 =>
      Some(s.(starter := Resting, continuemutex2 := Free, returned := s.returned + 1, last := Some(Started)))
  }

  function ThreadMove(s: State, c: Choice): Option<State> {
    match s.thread
    case Absent => None
    case TakeContinue2 =>
      if s.continuemutex2.Free? then Some(s.(thread := TakeRunning, continuemutex2 := Held(Thread))) else None
    case TakeRunning =>
      if s.runningmutex.Free? then Some(s.(thread := SetRunning, runningmutex := Held(Thread))) else None
    case SetRunning => Some(s.(thread := GiveRunning, running := true))
    case GiveRunning => Some(s.(thread := TakeContinue, runningmutex := Free))
    case TakeContinue =>
      if s.continuemutex.Free? then Some(s.(thread := GiveContinue, continuemutex := Held(Thread))) else None
    case GiveContinue => Some(s.(thread := InThread(false), continuemutex := Free))
    case InThread(started) =>
      if c.CallThreadStarted? && !started then
        Some(s.(thread := InThread(true), continuemutex2 := Free, announced := s.announced + 1))
      else if c.Leave? then Some(s.(thread := TakeRunningAgain))
      else None
    case TakeRunningAgain =>
      if s.runningmutex.Free? then Some(s.(thread := ClearRunning, runningmutex := Held(Thread))) else None
    case ClearRunning => Some(s.(thread := GiveRunningAgain, running := false))
    case GiveRunningAgain => Some(s.(thread := Absent, runningmutex := Free))
  }

  function Move(s: State, a: Agent, c: Choice): Option<State> {
    if a.Starter? then StarterMove(s, c) else ThreadMove(s, c)
  }

  const START := State(Resting, Absent, false, Free, Free, Free, 0, 0, 0, None)

  // ----- what every step keeps -----

  /** The starter is between creating the thread and returning. */
  predicate Waiting(pc: StarterPc) {
    pc.PollLock? || pc.PollTest? || pc.PollUnlock? || pc.PollDone? || pc.UnlockContinue? || pc.LockContinue2?
  }

  /** The thread has not yet come to Thread(). */
  predicate Arriving(pc: ThreadPc) {
    pc.TakeContinue2? || pc.TakeRunning? || pc.SetRunning? || pc.GiveRunning? || pc.TakeContinue? || pc.GiveContinue?
  }

  predicate StarterHoldsRunning(pc: StarterPc) {
    pc.TestRunning? || pc.UnlockAlready? || pc.UnlockRunning? || pc.PollTest? || pc.PollUnlock? || pc.PollDone?
  }

  predicate ThreadHoldsRunning(pc: ThreadPc) {
    pc.SetRunning? || pc.GiveRunning? || pc.ClearRunning? || pc.GiveRunningAgain?
  }

  predicate StarterHoldsContinue(pc: StarterPc) {
    pc.Create? || pc.UnlockFailed? || pc.PollLock? || pc.PollTest? || pc.PollUnlock? || pc.PollDone?
    || pc.UnlockContinue?
  }

  predicate IsRunning(pc: ThreadPc) {
    pc.GiveRunning? || pc.TakeContinue? || pc.GiveContinue? || pc.InThread? || pc.TakeRunningAgain? || pc.ClearRunning?
  }

  predicate MutexesOk(s: State) {
    && (s.runningmutex == Held(Starter) <==> StarterHoldsRunning(s.starter))
    && (s.runningmutex == Held(Thread) <==> ThreadHoldsRunning(s.thread))
    && (s.continuemutex == Held(Starter) <==> StarterHoldsContinue(s.starter))
    && (s.continuemutex == Held(Thread) <==> s.thread.GiveContinue?)
    && (s.continuemutex2 == Held(Starter) <==> s.starter.UnlockContinue2?)
  }

  /** Whether the thread that was created last has called ThreadStarted. */
  predicate Announced(s: State) {
    s.announced == s.created
  }

  /** Who can be where: while the starter polls, the thread cannot get past the first mutex. */
  predicate PlacesOk(s: State) {
    && s.running == IsRunning(s.thread)
    && (Arriving(s.thread) ==> Waiting(s.starter))
    && (s.starter.PollLock? || s.starter.PollTest? || s.starter.PollUnlock?
        ==> Arriving(s.thread) && !s.thread.GiveContinue?)
    && (s.starter.PollDone? || s.starter.UnlockContinue? ==> s.thread.TakeContinue?)
    && (s.starter.LockContinue2? && Arriving(s.thread) ==> s.thread.TakeContinue? || s.thread.GiveContinue?)
    && (s.starter.UnlockRunning? || s.starter.LockContinue? || s.starter.Create? || s.starter.UnlockFailed?
        ==> s.thread.Absent?)
  }

  /** The second mutex belongs to the thread from its first step until it announces itself, even if it
      ends before. */
  predicate AnnouncedOk(s: State) {
    && s.announced <= s.created <= s.announced + 1
    && (Arriving(s.thread) ==> !Announced(s))
    && (s.thread.InThread? ==> s.thread.started == Announced(s))
    && (s.continuemutex2 == Held(Thread) <==> !Announced(s) && !s.thread.TakeContinue2?)
    && (!Announced(s) ==> Waiting(s.starter))
  }

  predicate CountOk(s: State) {
    s.returned + (if Waiting(s.starter) || s.starter.UnlockContinue2? then 1 else 0) == s.created
  }

  predicate Inv(s: State) {
    MutexesOk(s) && PlacesOk(s) && AnnouncedOk(s) && CountOk(s)
  }

  lemma StepMutexes(s: State, a: Agent, c: Choice)
    requires MutexesOk(s) && PlacesOk(s) && AnnouncedOk(s) && Move(s, a, c).Some?
    ensures MutexesOk(Move(s, a, c).value)
  {
    if a.Starter? {
      StarterMutexes(s, c);
    } else {
      ThreadMutexes(s, c);
    }
  }

  lemma StarterMutexes(s: State, c: Choice)
    requires MutexesOk(s) && PlacesOk(s) && StarterMove(s, c).Some?
    ensures MutexesOk(StarterMove(s, c).value)
  {
  }

  lemma ThreadMutexes(s: State, c: Choice)
    requires MutexesOk(s) && AnnouncedOk(s) && ThreadMove(s, c).Some?
    ensures MutexesOk(ThreadMove(s, c).value)
  {
  }

  lemma StepPlaces(s: State, a: Agent, c: Choice)
    requires MutexesOk(s) && PlacesOk(s) && AnnouncedOk(s) && Move(s, a, c).Some?
    ensures PlacesOk(Move(s, a, c).value)
  {
    if a.Starter? {
      StarterPlaces(s, c);
    } else {
      ThreadPlaces(s, c);
    }
  }

  lemma StarterPlaces(s: State, c: Choice)
    requires MutexesOk(s) && PlacesOk(s) && AnnouncedOk(s) && StarterMove(s, c).Some?
    ensures PlacesOk(StarterMove(s, c).value)
  {
  }

  lemma ThreadPlaces(s: State, c: Choice)
    requires MutexesOk(s) && PlacesOk(s) && AnnouncedOk(s) && ThreadMove(s, c).Some?
    ensures PlacesOk(ThreadMove(s, c).value)
  {
  }

  lemma StepAnnounced(s: State, a: Agent, c: Choice)
    requires MutexesOk(s) && PlacesOk(s) && AnnouncedOk(s) && Move(s, a, c).Some?
    ensures AnnouncedOk(Move(s, a, c).value)
  {
    if a.Starter? {
      StarterAnnounced(s, c);
    } else {
      ThreadAnnounced(s, c);
    }
  }

  lemma StarterAnnounced(s: State, c: Choice)
    requires MutexesOk(s) && PlacesOk(s) && AnnouncedOk(s) && StarterMove(s, c).Some?
    ensures AnnouncedOk(StarterMove(s, c).value)
  {
  }

  lemma ThreadAnnounced(s: State, c: Choice)
    requires MutexesOk(s) && PlacesOk(s) && AnnouncedOk(s) && ThreadMove(s, c).Some?
    ensures AnnouncedOk(ThreadMove(s, c).value)
  {
  }

  lemma StepCount(s: State, a: Agent, c: Choice)
    requires CountOk(s) && Move(s, a, c).Some?
    ensures CountOk(Move(s, a, c).value)
  {
  }

  /** Every step of either side keeps the invariant. */
  lemma StepInv(s: State, a: Agent, c: Choice)
    requires Inv(s) && Move(s, a, c).Some?
    ensures Inv(Move(s, a, c).value)
  {
    StepMutexes(s, a, c);
    StepPlaces(s, a, c);
    StepAnnounced(s, a, c);
    StepCount(s, a, c);
  }

  // ----- runs -----

  type Event = (Agent, Choice)

  function Run(s: State, events: seq<Event>): Option<State>
    decreases |events|
  {
    if events == [] then Some(s)
    else
      var s' := Move(s, events[0].0, events[0].1);
      if s'.None? then None else Run(s'.value, events[1..])
  }

  lemma {:induction false} RunInv(s: State, events: seq<Event>)
    requires Inv(s) && Run(s, events).Some?
    ensures Inv(Run(s, events).value)
    decreases |events|
  {
    if events != [] {
      StepInv(s, events[0].0, events[0].1);
      RunInv(Move(s, events[0].0, events[0].1).value, events[1..]);
    }
  }

  /** In every interleaving, over any number of starts: Start has returned 0 at most as often as
      ThreadStarted was called, and returns it only when the thread it created has called it. */
  lemma StartedAfterAnnounced(events: seq<Event>)
    requires Run(START, events).Some?
    ensures
      var s := Run(START, events).value;
      && s.returned <= s.announced <= s.created
      && (s.starter.UnlockContinue2? ==> s.announced == s.created == s.returned + 1)
  {
    RunInv(START, events);
  }

  // ----- what Start answers -----

  /** A step with which a call of Start ends. */
  predicate Ends(s: State, c: Choice) {
    !s.starter.Resting? && StarterMove(s, c).Some? && StarterMove(s, c).value.starter.Resting?
  }

  /** The answer 0 is what the count of returns counts. */
  lemma AnswerCounted(s: State, c: Choice)
    requires Ends(s, c)
    ensures
      var r := StarterMove(s, c).value;
      r.last.Some? && r.returned == s.returned + if r.last == Some(Started) then 1 else 0
  {
  }

  /** In every interleaving, over any number of starts: when Start answers 0, every thread that was created,
      the one of this call among them, has called ThreadStarted. */
  lemma ZeroMeansAnnounced(events: seq<Event>, c: Choice)
    requires Run(START, events).Some? && Ends(Run(START, events).value, c)
    ensures
      var r := StarterMove(Run(START, events).value, c).value;
      r.last == Some(Started) ==> r.announced == r.created == r.returned
  {
    RunInv(START, events);
  }

  /** How far a call has come whose test was made in state `at`, and what it has done. */
  predicate Underway(at: State, s: State) {
    match s.starter
    case TestRunning => s.running == at.running && s.created == at.created && s.returned == at.returned
    case UnlockAlready => at.running && s.created == at.created && s.returned == at.returned
    case UnlockRunning => !at.running && s.created == at.created && s.returned == at.returned
    case LockContinue => !at.running && s.created == at.created && s.returned == at.returned
    case Create => !at.running && s.created == at.created && s.returned == at.returned
    case UnlockFailed => !at.running && s.created == at.created && s.returned == at.returned
    case Resting => Answered(at, s)
    case LockRunning => false
    case _ => !at.running && s.created == at.created + 1 && s.returned == at.returned
  }

  /** The answer is that a thread is running if and only if one was at the test, 0 if and only if none was
      and one was created, and the failure if and only if none was and none could be created. */
  predicate Answered(at: State, s: State) {
    && (s.last == Some(AlreadyRunning) <==> at.running)
    && (s.last == Some(Started) <==> !at.running && s.created == at.created + 1)
    && (s.last == Some(CantStartThread) <==> !at.running && s.created == at.created)
    && s.returned == at.returned + if s.last == Some(Started) then 1 else 0
  }

  lemma UnderwayStep(at: State, s: State, a: Agent, c: Choice)
    requires MutexesOk(s) && Underway(at, s) && !s.starter.Resting? && Move(s, a, c).Some?
    ensures Underway(at, Move(s, a, c).value)
  {
    if a.Starter? {
      StarterUnderway(at, s, c);
    } else {
      ThreadUnderway(at, s, c);
    }
  }

  lemma StarterUnderway(at: State, s: State, c: Choice)
    requires Underway(at, s) && !s.starter.Resting? && StarterMove(s, c).Some?
    ensures Underway(at, StarterMove(s, c).value)
  {
  }

  lemma ThreadUnderway(at: State, s: State, c: Choice)
    requires MutexesOk(s) && Underway(at, s) && !s.starter.Resting? && ThreadMove(s, c).Some?
    ensures Underway(at, ThreadMove(s, c).value)
  {
    ThreadKeeps(s, c);
  }

  /** What a step of the thread leaves alone. */
  lemma ThreadKeeps(s: State, c: Choice)
    requires MutexesOk(s) && ThreadMove(s, c).Some?
    ensures
      var r := ThreadMove(s, c).value;
      && r.starter == s.starter && r.created == s.created && r.returned == s.returned && r.last == s.last
      && (StarterHoldsRunning(s.starter) ==> r.running == s.running)
  {
  }

  /** A run that ends at the latest when the call of Start that is under way has ended. */
  predicate OneCall(s: State, events: seq<Event>)
    decreases |events|
  {
    events == []
    || (&& !s.starter.Resting? && Move(s, events[0].0, events[0].1).Some?
        && OneCall(Move(s, events[0].0, events[0].1).value, events[1..]))
  }

  lemma {:induction false} UnderwayRun(at: State, s: State, events: seq<Event>)
    requires Inv(s) && Underway(at, s) && OneCall(s, events)
    ensures Run(s, events).Some? && Underway(at, Run(s, events).value)
    decreases |events|
  {
    if events != [] {
      UnderwayStep(at, s, events[0].0, events[0].1);
      StepInv(s, events[0].0, events[0].1);
      UnderwayRun(at, Move(s, events[0].0, events[0].1).value, events[1..]);
    }
  }

  /** The answer of a call of Start, from its test to its end, whatever the thread does in between. */
  lemma StartAnswers(s: State, events: seq<Event>)
    requires Inv(s) && s.starter.TestRunning? && OneCall(s, events)
    ensures Run(s, events).Some? && (s.running <==> IsRunning(s.thread))
    ensures
      var r := Run(s, events).value;
      r.starter.Resting? ==> Answered(s, r)
  {
    UnderwayRun(s, s, events);
  }

  /** A thread is created if and only if it can be, and what follows tells the two cases apart. */
  lemma CreateIff(s: State, c: Choice)
    requires s.starter.Create?
    ensures
      var r := StarterMove(s, c);
      && r.Some? && r.value.created == s.created + (if c.Fail? then 0 else 1)
      && (if c.Fail? then r.value.starter.UnlockFailed? && r.value.thread == s.thread
          else r.value.starter.PollLock? && r.value.thread.TakeContinue2?)
  {
  }

  /** The polling loop cannot miss the moment: once the thread has set the flag, no step of the thread
      clears it while the starter polls, so the next test sees it. */
  lemma FlagIsSeen(s: State, c: Choice)
    requires Inv(s) && s.running && (s.starter.PollLock? || s.starter.PollTest? || s.starter.PollUnlock?)
    ensures ThreadMove(s, c).Some? ==> ThreadMove(s, c).value.running
    ensures s.starter.PollTest? ==> StarterMove(s, c).value.starter.PollDone?
  {
  }

  /** The thread enters Thread() only after the starter has seen the flag. */
  lemma EntersAfterSeen(s: State)
    requires Inv(s) && s.thread.InThread?
    ensures !(s.starter.PollLock? || s.starter.PollTest? || s.starter.PollUnlock? || s.starter.PollDone?)
    ensures !s.starter.UnlockContinue?
  {
  }

  /** Start refuses if and only if a thread is running at its test. */
  lemma AlreadyRunningIff(s: State, c: Choice)
    requires Inv(s) && s.starter.TestRunning?
    ensures StarterMove(s, c).value.starter.UnlockAlready? <==> IsRunning(s.thread)
  {
  }

  // ----- whether Start returns -----

  /** The thread ended without calling ThreadStarted. */
  predicate Orphaned(s: State) {
    s.starter.LockContinue2? && !Announced(s)
    && (s.thread.Absent? || s.thread.TakeRunningAgain? || s.thread.ClearRunning? || s.thread.GiveRunningAgain?)
  }

  function StarterDistance(s: State): nat {
    match s.starter
    case PollTest => if s.running then 4 else 7
    case PollUnlock => 6
    case PollLock => 5
    case PollDone => 3
    case UnlockContinue => 2
    case LockContinue2 => 1
    case _ => 0
  }

  function ThreadDistance(pc: ThreadPc): nat {
    match pc
    case TakeContinue2 => 7
    case TakeRunning => 6
    case SetRunning => 5
    case GiveRunning => 4
    case TakeContinue => 3
    case GiveContinue => 2
    case InThread(started) => if started then 0 else 1
    case _ => 0
  }

  function Distance(s: State): nat {
    StarterDistance(s) + ThreadDistance(s.thread)
  }

  /** The side whose step brings the return nearer: the thread while it has something to do that the
      starter waits for, else the starter. */
  function Next(s: State): (e: Event) {
    if s.starter.PollLock? && (!s.running || s.thread.GiveRunning?) then (Thread, Go)
    else if s.starter.LockContinue2? && !Announced(s) then
      (Thread, if s.thread.InThread? then CallThreadStarted else Go)
    else (Starter, Go)
  }

  lemma NextNearer(s: State)
    requires Inv(s) && Waiting(s.starter) && !Orphaned(s)
    ensures
      var m := Move(s, Next(s).0, Next(s).1);
      && m.Some? && m.value.returned == s.returned
      && if s.starter.LockContinue2? && Announced(s) then m.value.starter.UnlockContinue2?
         else Waiting(m.value.starter) && !Orphaned(m.value) && Distance(m.value) < Distance(s)
  {
  }

  /** The events of a run that ends with the return of Start. */
  lemma {:induction false} Returning(s: State) returns (events: seq<Event>)
    requires Inv(s) && Waiting(s.starter) && !Orphaned(s)
    ensures |events| <= Distance(s) + 1
    ensures Run(s, events).Some? && Run(s, events).value.returned == s.returned + 1
    ensures Run(s, events).value.last == Some(Started)
    decreases Distance(s)
  {
    var e := Next(s);
    NextNearer(s);
    StepInv(s, e.0, e.1);
    var s' := Move(s, e.0, e.1).value;
    var rest := [(Starter, Go)];
    if Waiting(s'.starter) {
      rest := Returning(s');
    } else {
      assert Run(StarterMove(s', Go).value, []).Some?;
      assert rest[1..] == [];
    }
    events := [e] + rest;
    assert events[1..] == rest;
  }

  /** An orphaned call stays as it is, whoever moves. */
  lemma OrphanedStep(s: State, a: Agent, c: Choice)
    requires Inv(s) && Orphaned(s) && Move(s, a, c).Some?
    ensures a == Thread && Orphaned(Move(s, a, c).value) && Move(s, a, c).value.returned == s.returned
  {
  }

  lemma {:induction false} OrphanedForever(s: State, events: seq<Event>)
    requires Inv(s) && Orphaned(s) && Run(s, events).Some?
    ensures Orphaned(Run(s, events).value) && Run(s, events).value.returned == s.returned
    decreases |events|
  {
    if events != [] {
      OrphanedStep(s, events[0].0, events[0].1);
      StepInv(s, events[0].0, events[0].1);
      OrphanedForever(Move(s, events[0].0, events[0].1).value, events[1..]);
    }
  }

  ghost predicate CanReturn(s: State) {
    exists events :: Run(s, events).Some? && Run(s, events).value.returned > s.returned
  }

  /** From every state that a run can reach: a call of Start that has created its thread can still
      return if and only if the thread has not ended without calling ThreadStarted. */
  lemma ReturnsIff(s: State)
    requires Inv(s) && Waiting(s.starter)
    ensures CanReturn(s) <==> !Orphaned(s)
  {
    if Orphaned(s) {
      forall events | Run(s, events).Some?
        ensures Run(s, events).value.returned == s.returned
      {
        OrphanedForever(s, events);
      }
    } else {
      var events := Returning(s);
    }
  }

  /** At its last lock the starter cannot move until the thread announces itself. */
  lemma BlockedUntilAnnounced(s: State, c: Choice)
    requires Inv(s) && s.starter.LockContinue2?
    ensures StarterMove(s, c).None? <==> !Announced(s)
  {
    match s.continuemutex2 {
      case Free =>
      case Held(holder) => assert holder == Starter || holder == Thread;
    }
  }

  lemma {:induction false} RunJoin(s: State, first: seq<Event>, second: seq<Event>)
    requires Run(s, first).Some?
    ensures Run(s, first + second) == Run(Run(s, first).value, second)
    decreases |first|
  {
    if first == [] {
      assert [] + second == second;
    } else {
      RunJoin(Move(s, first[0].0, first[0].1).value, first[1..], second);
      assert (first + second)[1..] == first[1..] + second;
    }
  }

  ghost predicate Reached(s: State) {
    exists events :: Run(START, events) == Some(s)
  }

  lemma ReachedStep(s: State, a: Agent, c: Choice, t: State)
    requires Reached(s) && Move(s, a, c) == Some(t)
    ensures Reached(t)
  {
    var events :| Run(START, events) == Some(s);
    assert Run(t, []) == Some(t);
    assert [(a, c)][1..] == [];
    RunJoin(START, events, [(a, c)]);
  }

  /** The first call of Start up to the creation of the thread. */
  lemma CreatedReached() returns (s: State)
    ensures Reached(s)
    ensures s == State(PollLock, TakeContinue2, false, Free, Held(Starter), Free, 1, 0, 0, None)
  {
    assert Run(START, []) == Some(START);
    var s1 := START.(starter := LockRunning);
    var s2 := s1.(starter := TestRunning, runningmutex := Held(Starter));
    var s3 := s2.(starter := UnlockRunning);
    var s4 := s3.(starter := LockContinue, runningmutex := Free);
    var s5 := s4.(starter := Create, continuemutex := Held(Starter));
    s := s5.(starter := PollLock, thread := TakeContinue2, created := 1);
    ReachedStep(START, Starter, Go, s1);
    ReachedStep(s1, Starter, Go, s2);
    ReachedStep(s2, Starter, Go, s3);
    ReachedStep(s3, Starter, Go, s4);
    ReachedStep(s4, Starter, Go, s5);
    ReachedStep(s5, Starter, Go, s);
  }

  /** The thread sets its flag and waits for the starter to see it. */
  lemma ArrivedReached() returns (s: State)
    ensures Reached(s)
    ensures s == State(PollLock, TakeContinue, true, Free, Held(Starter), Held(Thread), 1, 0, 0, None)
  {
    var s0 := CreatedReached();
    var s1 := s0.(thread := TakeRunning, continuemutex2 := Held(Thread));
    var s2 := s1.(thread := SetRunning, runningmutex := Held(Thread));
    var s3 := s2.(thread := GiveRunning, running := true);
    s := s3.(thread := TakeContinue, runningmutex := Free);
    ReachedStep(s0, Thread, Go, s1);
    ReachedStep(s1, Thread, Go, s2);
    ReachedStep(s2, Thread, Go, s3);
    ReachedStep(s3, Thread, Go, s);
  }

  /** The starter has seen it and waits for the thread to announce itself. */
  lemma SeenReached() returns (s: State)
    ensures Reached(s)
    ensures s == State(LockContinue2, TakeContinue, true, Free, Free, Held(Thread), 1, 0, 0, None)
  {
    var s0 := ArrivedReached();
    var s1 := s0.(starter := PollTest, runningmutex := Held(Starter));
    var s2 := s1.(starter := PollDone);
    var s3 := s2.(starter := UnlockContinue, runningmutex := Free);
    s := s3.(starter := LockContinue2, continuemutex := Free);
    ReachedStep(s0, Starter, Go, s1);
    ReachedStep(s1, Starter, Go, s2);
    ReachedStep(s2, Starter, Go, s3);
    ReachedStep(s3, Starter, Go, s);
  }

  /** A thread that leaves at once: from the start, a call of Start that can never return. */
  lemma OrphanReached() returns (s: State)
    ensures Reached(s) && Orphaned(s) && !CanReturn(s)
  {
    var s0 := SeenReached();
    var s1 := s0.(thread := GiveContinue, continuemutex := Held(Thread));
    var s2 := s1.(thread := InThread(false), continuemutex := Free);
    s := s2.(thread := TakeRunningAgain);
    ReachedStep(s0, Thread, Go, s1);
    ReachedStep(s1, Thread, Go, s2);
    ReachedStep(s2, Thread, Leave, s);
    var events :| Run(START, events) == Some(s);
    RunInv(START, events);
    ReturnsIff(s);
  }
}
