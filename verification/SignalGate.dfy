// The gate of the failure signal handler: the first invocation dumps, the others wait.
module SignalGate {
  import opened Options

  // Where an invocation of the handler is: before the compare-and-swap; inside its naive
  // version, having loaded the pointer; turned away; about to invoke the default handler
  // because its own thread holds the gate; asleep; dumping.
  datatype Pc = Entered | Loaded(pointer: Option<nat>) | Lost | Reentered | Waiting | Dumping

  // An invocation, with the thread it interrupted.  Handlers never return, so invocations
  // are never removed, and the latest of a thread is the one on top of its stack.
  datatype Invocation = Invocation(thread: nat, pc: Pc)

  // The pointer g_entered_thread_id_pointer leads to the local of an invocation, given by
  // its number.  Dumps and calls of the default handler are recorded with their invocation.
  datatype State = State(pointer: Option<nat>, invocations: seq<Invocation>, alive: bool,
                         writes: nat, dumps: seq<nat>, defaults: seq<nat>)

  const START := State(None, [], true, 0, [], [])

  // A signal arrives at a thread, or an invocation takes its next step.  A dumping
  // invocation either dumps some more or is done; the default handler invoked on re-entry
  // either ends the process or returns.
  datatype Event = Signal(thread: nat) | Run(invocation: nat, ends: bool)

  predicate OnTop(s: State, k: nat)
  {
    && k < |s.invocations|
    && forall j :: k < j < |s.invocations| ==> s.invocations[j].thread != s.invocations[k].thread
  }

  function At(s: State, k: nat, pc: Pc): State
    requires k < |s.invocations|
  {
    s.(invocations := s.invocations[k := s.invocations[k].(pc := pc)])
  }

  // The pointer is stored.
  function Enter(s: State, k: nat): State
    requires k < |s.invocations|
  {
    At(s, k, Dumping).(pointer := Some(k), writes := s.writes + 1)
  }

  function CompareAndSwap(s: State, k: nat, atomic: bool): State
    requires k < |s.invocations|
  {
    if !atomic then At(s, k, Loaded(s.pointer))
    else if s.pointer == None then Enter(s, k)
    else At(s, k, Lost)
  }

  // Does the invocation that the pointer leads to belong to the thread of invocation k?
  predicate SameThread(s: State, k: nat)
    requires k < |s.invocations|
  {
    s.pointer.Some? && s.pointer.value < |s.invocations| &&
    s.invocations[s.pointer.value].thread == s.invocations[k].thread
  }

  function RunStep(s: State, k: nat, ends: bool, atomic: bool): State
    requires k < |s.invocations|
  {
    match s.invocations[k].pc
    case Entered => CompareAndSwap(s, k, atomic)
    case Loaded(pointer) => if pointer == None then Enter(s, k) else At(s, k, Lost)
    case Lost => At(s, k, if SameThread(s, k) then Reentered else Waiting)
    case Reentered => At(s, k, Waiting).(defaults := s.defaults + [k], alive := !ends)
    case Waiting => s
    case Dumping =>
      if ends then s.(defaults := s.defaults + [k], alive := false)
      else s.(dumps := s.dumps + [k])
  }

  // One event, with an atomic or a naive compare-and-swap; what cannot happen changes
  // nothing.
  function Step(s: State, e: Event, atomic: bool): State
  {
    if !s.alive then s
    else
      match e
      case Signal(thread) => s.(invocations := s.invocations + [Invocation(thread, Entered)])
      case Run(k, ends) => if OnTop(s, k) then RunStep(s, k, ends, atomic) else s
  }

  function After(events: seq<Event>, atomic: bool): State
  {
    if events == [] then START
    else Step(After(events[..|events| - 1], atomic), events[|events| - 1], atomic)
  }

  // ----- safety with an atomic compare-and-swap -----------------------------------------------

  // What holds of invocation k.
  predicate InvocationOk(s: State, k: nat)
    requires k < |s.invocations|
  {
    match s.invocations[k].pc
    case Entered => true
    case Loaded(_) => false
    case Dumping => s.pointer == Some(k)
    case Reentered => SameThread(s, k)
    case Waiting => s.pointer.Some? && (k in s.defaults <==> SameThread(s, k))
    case Lost => s.pointer.Some?
  }

  // At most one invocation has passed the gate: the one the pointer leads to, which was
  // stored once and never changed.  Nobody else dumps, and the default handler is invoked
  // on its thread only; invocations on other threads never get further than waiting, and
  // one on its thread waits only after the default handler returned to it.
  ghost predicate Safe(s: State)
  {
    && (forall k :: 0 <= k < |s.invocations| ==> InvocationOk(s, k))
    && (match s.pointer
        case None => s.writes == 0 && s.dumps == [] && s.defaults == []
        case Some(p) =>
          && s.writes == 1 && p < |s.invocations| && s.invocations[p].pc == Dumping
          && (forall i :: 0 <= i < |s.dumps| ==> s.dumps[i] == p)
          && (forall i :: 0 <= i < |s.defaults| ==>
                s.defaults[i] < |s.invocations| && s.invocations[s.defaults[i]].thread == s.invocations[p].thread))
  }

  // An invocation that has not passed moves on.
  lemma MoveSafe(s: State, k: nat, pc: Pc) returns (s': State)
    requires Safe(s) && s.pointer.Some? && k < |s.invocations| && k != s.pointer.value
    requires pc == Lost || (pc == Reentered && SameThread(s, k))
             || (pc == Waiting && (k in s.defaults <==> SameThread(s, k)))
    ensures s' == At(s, k, pc) && Safe(s')
    ensures s'.invocations[k].thread == s.invocations[k].thread
  {
    s' := At(s, k, pc);
    forall j | 0 <= j < |s'.invocations|
      ensures InvocationOk(s', j)
    {
      assert InvocationOk(s, j);
    }
  }

  lemma EnterSafe(s: State, k: nat)
    requires Safe(s) && s.pointer == None && k < |s.invocations|
    ensures Safe(Enter(s, k))
  {
    forall j | 0 <= j < |s.invocations|
      ensures InvocationOk(Enter(s, k), j)
    {
      assert InvocationOk(s, j);
    }
  }

  lemma SignalSafe(s: State, thread: nat)
    requires Safe(s)
    ensures Safe(s.(invocations := s.invocations + [Invocation(thread, Entered)]))
  {
    var s' := s.(invocations := s.invocations + [Invocation(thread, Entered)]);
    forall j | 0 <= j < |s'.invocations|
      ensures InvocationOk(s', j)
    {
      assert j < |s.invocations| ==> InvocationOk(s, j);
    }
  }

  // A dump or a call of the default handler is recorded.
  lemma Recorded(s: State, k: nat, s': State)
    requires Safe(s) && s.pointer.Some? && k < |s.invocations| && s.invocations[k].pc != Waiting
    requires s.invocations[k].thread == s.invocations[s.pointer.value].thread
    requires s'.invocations == s.invocations && s'.pointer == s.pointer && s'.writes == s.writes
    requires s'.defaults == s.defaults || s'.defaults == s.defaults + [k]
    requires s'.dumps == s.dumps || (k == s.pointer.value && s'.dumps == s.dumps + [k])
    ensures Safe(s')
  {
    forall j | 0 <= j < |s'.invocations|
      ensures InvocationOk(s', j)
    {
      assert InvocationOk(s, j);
    }
  }

  lemma Alive(s: State, alive: bool)
    requires Safe(s)
    ensures Safe(s.(alive := alive))
  {
    forall j | 0 <= j < |s.invocations|
      ensures InvocationOk(s.(alive := alive), j)
    {
      assert InvocationOk(s, j);
    }
  }

  lemma RunSafe(s: State, k: nat, ends: bool)
    requires Safe(s) && k < |s.invocations|
    ensures Safe(RunStep(s, k, ends, true))
  {
    assert InvocationOk(s, k);
    match s.invocations[k].pc
    case Entered =>
      if s.pointer == None {
        EnterSafe(s, k);
      } else {
        var s' := MoveSafe(s, k, Lost);
      }
    case Loaded(_) =>
    case Lost =>
      var s' := MoveSafe(s, k, if SameThread(s, k) then Reentered else Waiting);
    case Reentered =>
      var s' := s.(defaults := s.defaults + [k]);
      Recorded(s, k, s');
      var s'' := MoveSafe(s', k, Waiting);
      Alive(s'', !ends);
    case Waiting =>
    case Dumping =>
      Recorded(s, k, RunStep(s, k, ends, true));
  }

  lemma StepSafe(s: State, e: Event)
    requires Safe(s)
    ensures Safe(Step(s, e, true))
  {
    match e
    case Signal(thread) => SignalSafe(s, thread);
    case Run(k, ends) =>
      if OnTop(s, k) {
        RunSafe(s, k, ends);
      }
  }

  // Over every run, with signals arriving at any thread at any time, nested ones included.
  lemma {:induction false} GateIsSafe(events: seq<Event>)
    ensures Safe(After(events, true))
  {
    if events != [] {
      GateIsSafe(events[..|events| - 1]);
      StepSafe(After(events[..|events| - 1], true), events[|events| - 1]);
    }
  }

  // ----- progress ---------------------------------------------------------------------------

  // Where the latest invocation of a thread gets in n steps of its own.
  function Steps(s: State, k: nat, ends: bool, n: nat): State
  {
    if n == 0 then s else Step(Steps(s, k, ends, n - 1), Run(k, ends), true)
  }

  lemma StepsUnfold(s: State, k: nat, ends: bool)
    ensures Steps(s, k, ends, 1) == Step(s, Run(k, ends), true)
    ensures Steps(s, k, ends, 2) == Step(Steps(s, k, ends, 1), Run(k, ends), true)
    ensures Steps(s, k, ends, 3) == Step(Steps(s, k, ends, 2), Run(k, ends), true)
  {
  }

  // A thread that has not been here passes if it is the first of all, and dumps.
  lemma FirstPasses(s: State, k: nat, ends: bool)
    requires Safe(s) && s.alive && OnTop(s, k) && s.invocations[k].pc == Entered && s.pointer == None
    ensures var s' := Steps(s, k, ends, 1);
            s'.pointer == Some(k) && s'.alive && OnTop(s', k) && s'.invocations[k].pc == Dumping
  {
    StepsUnfold(s, k, ends);
  }

  // One that finds another thread's pointer waits after two steps, for ever, and neither
  // dumps nor calls the default handler.
  lemma OthersWait(s: State, k: nat, ends: bool, n: nat)
    requires Safe(s) && s.alive && OnTop(s, k) && s.invocations[k].pc == Entered
    requires s.pointer.Some? && !SameThread(s, k) && n >= 2
    ensures Steps(s, k, ends, n) == At(s, k, Waiting)
    decreases n
  {
    StepsUnfold(s, k, ends);
    if n == 2 {
      assert At(At(s, k, Lost), k, Waiting) == At(s, k, Waiting);
    } else {
      OthersWait(s, k, ends, n - 1);
    }
  }

  // One that finds its own thread's pointer calls the default handler in its third step,
  // which ends the process or leaves it waiting.
  lemma ReentryEnds(s: State, k: nat, ends: bool)
    requires Safe(s) && s.alive && OnTop(s, k) && s.invocations[k].pc == Entered && SameThread(s, k)
    ensures var s' := Steps(s, k, ends, 3);
            && s'.defaults == s.defaults + [k] && s'.alive == !ends
            && OnTop(s', k) && s'.invocations[k].pc == Waiting && s'.dumps == s.dumps && s'.pointer == s.pointer
  {
    StepsUnfold(s, k, ends);
    var p := s.pointer.value;
    assert InvocationOk(s, k) && InvocationOk(s, p) && k != p;
    assert Steps(s, k, ends, 1) == At(s, k, Lost);
    assert Steps(s, k, ends, 2) == At(At(s, k, Lost), k, Reentered);
  }

  // The one that passed dumps in every step, and its last calls the default handler.
  lemma DumperDumps(s: State, k: nat, ends: bool)
    requires Safe(s) && s.alive && s.pointer == Some(k) && OnTop(s, k)
    ensures var s' := Step(s, Run(k, ends), true);
            if ends then !s'.alive && s'.defaults == s.defaults + [k] && s'.dumps == s.dumps
            else s'.alive && s'.dumps == s.dumps + [k] && s'.defaults == s.defaults
  {
  }

  // Said of whole runs: a signal at the thread that dumps leads to the default handler.
  lemma SignalWhileDumping(events: seq<Event>, thread: nat, ends: bool)
    requires var s := After(events, true);
             && s.alive && s.pointer.Some? && s.pointer.value < |s.invocations|
             && s.invocations[s.pointer.value].thread == thread
    ensures var s := After(events, true);
            var k := |s.invocations|;
            After(events + [Signal(thread), Run(k, false), Run(k, false), Run(k, ends)], true).defaults
              == s.defaults + [k]
  {
    GateIsSafe(events);
    var s := After(events, true);
    var k := |s.invocations|;
    StepSafe(s, Signal(thread));
    var e1 := OneMore(events, Signal(thread), true);
    var e2 := OneMore(e1, Run(k, false), true);
    var e3 := OneMore(e2, Run(k, false), true);
    var e4 := OneMore(e3, Run(k, ends), true);
    assert e4 == events + [Signal(thread), Run(k, false), Run(k, false), Run(k, ends)];
    ReentryEnds(After(e1, true), k, false);
    StepsUnfold(After(e1, true), k, false);
  }

  // The pointer, once stored, is never changed.
  lemma {:induction false} PointerStays(events: seq<Event>, more: seq<Event>)
    requires After(events, true).pointer.Some?
    ensures After(events + more, true).pointer == After(events, true).pointer
    decreases |more|
  {
    if more == [] {
      assert events + more == events;
    } else {
      var last := |more| - 1;
      PointerStays(events, more[..last]);
      assert (events + more)[..|events| + last] == events + more[..last];
      GateIsSafe(events + more[..last]);
      var s := After(events + more[..last], true);
      assert more[last].Run? && OnTop(s, more[last].invocation) ==> InvocationOk(s, more[last].invocation);
    }
  }

  // Seen by the outside world: all dumping is done by one invocation, and every call of
  // the default handler comes from its thread.
  lemma OneDumper(events: seq<Event>)
    ensures var s := After(events, true);
            && (forall i, j :: 0 <= i < |s.dumps| && 0 <= j < |s.dumps| ==> s.dumps[i] == s.dumps[j])
            && (forall j, k :: 0 <= j < k < |s.invocations| ==>
                  !(s.invocations[j].pc == Dumping && s.invocations[k].pc == Dumping))
            && (forall i, j :: 0 <= i < |s.defaults| && 0 <= j < |s.dumps| ==>
                  && s.defaults[i] < |s.invocations| && s.dumps[j] < |s.invocations|
                  && s.invocations[s.defaults[i]].thread == s.invocations[s.dumps[j]].thread)
            && (forall k :: 0 <= k < |s.invocations| && s.invocations[k].pc == Waiting ==>
                  (k in s.defaults <==> SameThread(s, k)))
  {
    GateIsSafe(events);
    var s := After(events, true);
    forall j, k | 0 <= j < k < |s.invocations|
      ensures !(s.invocations[j].pc == Dumping && s.invocations[k].pc == Dumping)
    {
      assert InvocationOk(s, j) && InvocationOk(s, k);
    }
    forall k | 0 <= k < |s.invocations| && s.invocations[k].pc == Waiting
      ensures k in s.defaults <==> SameThread(s, k)
    {
      assert InvocationOk(s, k);
    }
  }

  // With the naive compare-and-swap two invocations pass: both load before either stores.
  lemma NaiveLetsTwoThrough(first: nat, second: nat)
    requires first != second
    ensures exists events :: |After(events, false).invocations| == 2
                             && After(events, false).invocations[0] == Invocation(first, Dumping)
                             && After(events, false).invocations[1] == Invocation(second, Dumping)
  {
    var events: seq<Event> := [];
    events := OneMore(events, Signal(first), false);
    events := OneMore(events, Signal(second), false);
    events := OneMore(events, Run(0, false), false);
    events := OneMore(events, Run(1, false), false);
    assert After(events, false).invocations == [Invocation(first, Loaded(None)), Invocation(second, Loaded(None))];
    events := OneMore(events, Run(0, false), false);
    events := OneMore(events, Run(1, false), false);
  }

  lemma OneMore(events: seq<Event>, e: Event, atomic: bool) returns (more: seq<Event>)
    ensures more == events + [e] && After(more, atomic) == Step(After(events, atomic), e, atomic)
  {
    more := events + [e];
    assert more[..|events|] == events;
  }
}
