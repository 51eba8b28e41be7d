/**
  The handshake between a debugger and one emulated core thread: three shared
  flags that are written and polled. Every atomic read or write is one step, and
  the steps of the two sides interleave freely.
 */
module PauseHandshake {

  /** Where the debugger is; the name says what it does next. */
  datatype Debugger =
    | Idle
    // RequestPause
    | CheckPaused | AssertRunning | RaisePause | AwaitPaused | DropPause | AssertPaused
    // RequestContinue
    | EnterContinue | RaiseContinue | AwaitRunning | DropContinue | AssertContinued
    // RequestStep
    | EnterStep | StepRaisePause | StepRaiseContinue | StepAwaitRunning | StepDropContinue
    | StepAwaitPaused | StepDropPause | AssertStepped
    // a failed assertion: the caller's, or one of the handshake itself
    | CalledWhileRunning | Broken

  /** Where the core is in its loop. */
  datatype Core =
    | PollPause       // ShouldPause
    | SetPaused
    | AwaitAck        // while (request_pause)
    | TestPaused      // if (paused)
    | AwaitContinue   // while (!request_continue)
    | ClearPaused
    | AwaitNoticed    // while (request_continue)
    | Execute

  datatype Request = Pause | Continue | Step

  /** A request that returned: whether `paused` was set at that point, and how many instructions ran
      since the call. */
  datatype Return = Return(request: Request, paused: bool, ran: int)

  /** `executed` counts instructions. The rest is history: `request` is the debugger's last request,
      `called` the number of instructions at its call, and `returned` has the requests that returned. */
  datatype State = State(requestPause: bool, paused: bool, requestContinue: bool,
                         debugger: Debugger, core: Core,
                         executed: nat, request: Request, called: nat, returned: seq<Return>)

  /** One atomic step of one side; an idle debugger starts the given request. */
  datatype Event = OfCore | OfDebugger(request: Request)

  function CoreStep(s: State): State {
    match s.core
    case PollPause => s.(core := if s.requestPause then SetPaused else TestPaused)
    case SetPaused => s.(paused := true, core := AwaitAck)
    case AwaitAck => if s.requestPause then s else s.(core := TestPaused)
    case TestPaused => s.(core := if s.paused then AwaitContinue else Execute)
    case AwaitContinue => if s.requestContinue then s.(core := ClearPaused) else s
    case ClearPaused => s.(paused := false, core := AwaitNoticed)
    case AwaitNoticed => if s.requestContinue then s else s.(core := Execute)
    case Execute => s.(executed := s.executed + 1, core := PollPause)
  }

  function DebuggerStep(s: State, request: Request): State {
    match s.debugger
    case Idle =>
      (match request
       case Pause => s.(debugger := CheckPaused)
       case Continue => s.(debugger := EnterContinue)
       case Step => s.(debugger := EnterStep))
    case CheckPaused => s.(debugger := if s.paused then Idle else AssertRunning)
    case AssertRunning => s.(debugger := if s.paused then Broken else RaisePause)
    case RaisePause => s.(requestPause := true, debugger := AwaitPaused)
    case AwaitPaused => if s.paused then s.(debugger := DropPause) else s
    case DropPause => s.(requestPause := false, debugger := AssertPaused)
    case AssertPaused => s.(debugger := if s.paused then Idle else Broken)
    case EnterContinue => s.(debugger := if s.paused then RaiseContinue else CalledWhileRunning)
    case RaiseContinue => s.(requestContinue := true, debugger := AwaitRunning)
    case AwaitRunning => if s.paused then s else s.(debugger := DropContinue)
    case DropContinue => s.(requestContinue := false, debugger := AssertContinued)
    case AssertContinued => s.(debugger := if s.paused then Broken else Idle)
    case EnterStep => s.(debugger := if s.paused then StepRaisePause else CalledWhileRunning)
    case StepRaisePause => s.(requestPause := true, debugger := StepRaiseContinue)
    case StepRaiseContinue => s.(requestContinue := true, debugger := StepAwaitRunning)
    case StepAwaitRunning => if s.paused then s else s.(debugger := StepDropContinue)
    case StepDropContinue => s.(requestContinue := false, debugger := StepAwaitPaused)
    case StepAwaitPaused => if s.paused then s.(debugger := StepDropPause) else s
    case StepDropPause => s.(requestPause := false, debugger := AssertStepped)
    case AssertStepped => s.(debugger := if s.paused then Idle else Broken)
    case CalledWhileRunning => s
    case Broken => s
  }

  function Next(s: State, e: Event): State {
    match e
    case OfCore => CoreStep(s)
    case OfDebugger(r) => Record(s, DebuggerStep(s, r), r)
  }

  /** The history after a step of the debugger from s to s': a request begins when an idle debugger does
      something, and returns when the debugger is idle again. */
  function Record(s: State, s': State, r: Request): State {
    if s.debugger == Idle then s'.(request := r, called := s.executed)
    else if s'.debugger == Idle then s'.(returned := s.returned + [Return(s.request, s'.paused, s'.executed - s.called)])
    else s'
  }

  function Run(s: State, es: seq<Event>): State
    decreases |es|
  {
    if es == [] then s else Run(Next(s, es[0]), es[1..])
  }

  const START := State(false, false, false, Idle, PollPause, 0, Pause, 0, [])

  // ---------------------------------------------------------------------------
  // The invariant
  // ---------------------------------------------------------------------------

  /** The core is stopped, and stays stopped as long as no continue is requested. */
  predicate Held(s: State) {
    s.paused && (s.core == AwaitAck || s.core == TestPaused || s.core == AwaitContinue)
  }

  /** The core runs, and no pause is on its way. */
  predicate Running(s: State) {
    !s.paused && (s.core == PollPause || s.core == TestPaused || s.core == AwaitNoticed || s.core == Execute)
  }

  /** Flags are up exactly between the debugger's writes. */
  predicate FlagsOk(s: State) {
    && (s.requestPause <==> s.debugger in {AwaitPaused, DropPause, StepRaiseContinue, StepAwaitRunning,
                                           StepDropContinue, StepAwaitPaused, StepDropPause})
    && (s.requestContinue <==> s.debugger in {AwaitRunning, DropContinue, StepAwaitRunning, StepDropContinue})
  }

  /** Where the core can be, for each position of the debugger. */
  predicate CoreOk(s: State) {
    match s.debugger
    case Idle | CheckPaused | EnterContinue | EnterStep => Held(s) || Running(s)
    case AssertRunning | RaisePause | AssertContinued | CalledWhileRunning => Running(s)
    case AwaitPaused => Running(s) || (!s.paused && s.core == SetPaused) || (s.paused && s.core == AwaitAck)
    case DropPause => s.paused && s.core == AwaitAck
    case AssertPaused | RaiseContinue | StepRaisePause | StepRaiseContinue | AssertStepped => Held(s)
    case AwaitRunning | StepAwaitRunning =>
      Held(s) || (s.paused && s.core == ClearPaused) || (!s.paused && s.core == AwaitNoticed)
    case DropContinue | StepDropContinue => !s.paused && s.core == AwaitNoticed
    case StepAwaitPaused =>
      if s.paused then s.core == AwaitAck else s.core in {AwaitNoticed, Execute, PollPause, SetPaused}
    case StepDropPause => s.paused && s.core == AwaitAck
    case Broken => false
  }

  /** Instructions since RequestStep was called. */
  predicate CountOk(s: State) {
    match s.debugger
    case EnterStep => Held(s) ==> s.executed == s.called
    case StepRaisePause | StepRaiseContinue | StepAwaitRunning | StepDropContinue => s.executed == s.called
    case StepAwaitPaused =>
      s.executed == if s.core in {AwaitNoticed, Execute} then s.called else s.called + 1
    case StepDropPause | AssertStepped => s.executed == s.called + 1
    case _ => true
  }

  /** The debugger is where its request can have led it. */
  predicate RequestOk(s: State) {
    match s.debugger
    case Idle | Broken => true
    case CheckPaused | AssertRunning | RaisePause | AwaitPaused | DropPause | AssertPaused => s.request == Pause
    case EnterContinue | RaiseContinue | AwaitRunning | DropContinue | AssertContinued => s.request == Continue
    case CalledWhileRunning => s.request != Pause
    case _ => s.request == Step
  }

  /** Pause and step return with the core stopped, a step after exactly one instruction; continue returns
      with the core released. */
  predicate GoodReturn(r: Return) {
    r.paused == (r.request != Continue) && (r.request == Step ==> r.ran == 1)
  }

  /** The last request that returned left the core stopped. */
  predicate LeftStopped(s: State) {
    s.returned != [] && s.returned[|s.returned| - 1].request != Continue
  }

  ghost predicate ReturnsOk(s: State) {
    && (forall k | 0 <= k < |s.returned| :: GoodReturn(s.returned[k]))
    && (s.debugger == Idle ==> if LeftStopped(s) then Held(s) else Running(s))
  }

  ghost predicate Inv(s: State) {
    FlagsOk(s) && CoreOk(s) && CountOk(s) && RequestOk(s) && ReturnsOk(s)
  }

  lemma CoreStaysOk(s: State)
    requires FlagsOk(s) && CoreOk(s)
    ensures FlagsOk(CoreStep(s)) && CoreOk(CoreStep(s))
  {
  }

  lemma CoreCounts(s: State)
    requires FlagsOk(s) && CoreOk(s) && CountOk(s)
    ensures CountOk(CoreStep(s))
  {
  }

  lemma CoreLeaves(s: State)
    requires FlagsOk(s) && CoreOk(s) && ReturnsOk(s)
    ensures ReturnsOk(CoreStep(s))
  {
  }

  lemma CoreStepKeeps(s: State)
    requires Inv(s)
    ensures Inv(CoreStep(s))
  {
    assert CoreStep(s).debugger == s.debugger && CoreStep(s).request == s.request;
    hide FlagsOk, CoreOk, CountOk, CoreStep, ReturnsOk;
    CoreStaysOk(s);
    CoreCounts(s);
    CoreLeaves(s);
  }

  lemma DebuggerStaysOk(s: State, request: Request)
    requires FlagsOk(s) && CoreOk(s)
    ensures FlagsOk(Next(s, OfDebugger(request))) && CoreOk(Next(s, OfDebugger(request)))
  {
  }

  lemma DebuggerCounts(s: State, request: Request)
    requires FlagsOk(s) && CoreOk(s) && CountOk(s) && RequestOk(s)
    ensures CountOk(Next(s, OfDebugger(request))) && RequestOk(Next(s, OfDebugger(request)))
  {
  }

  lemma DebuggerLeaves(s: State, request: Request)
    requires FlagsOk(s) && CoreOk(s) && CountOk(s) && RequestOk(s) && ReturnsOk(s)
    ensures ReturnsOk(Next(s, OfDebugger(request)))
  {
  }

  lemma DebuggerStepKeeps(s: State, request: Request)
    requires Inv(s)
    ensures Inv(Next(s, OfDebugger(request)))
  {
    hide FlagsOk, CoreOk, CountOk, ReturnsOk, RequestOk, Next;
    DebuggerStaysOk(s, request);
    DebuggerCounts(s, request);
    DebuggerLeaves(s, request);
  }

  lemma {:induction false} RunKeeps(s: State, es: seq<Event>)
    requires Inv(s)
    ensures Inv(Run(s, es))
    decreases |es|
  {
    hide Inv, CoreStep, DebuggerStep, Record;
    if es != [] {
      match es[0] {
        case OfCore => CoreStepKeeps(s);
        case OfDebugger(r) => DebuggerStepKeeps(s, r);
      }
      RunKeeps(Next(s, es[0]), es[1..]);
    }
  }

  // ---------------------------------------------------------------------------
  // What the debugger relies on
  // ---------------------------------------------------------------------------

  /** In every interleaving each request that returned did its work: RequestPause and RequestStep returned
      with the core stopped, RequestStep after exactly one instruction, and RequestContinue with the
      core released. No assertion of the handshake fails; one about the caller fails only if the core
      is running. */
  lemma HandshakeSound(es: seq<Event>)
    ensures var s := Run(START, es);
            && (forall k | 0 <= k < |s.returned| ::
                  && (s.returned[k].request == Pause ==> s.returned[k].paused)
                  && (s.returned[k].request == Step ==> s.returned[k].paused && s.returned[k].ran == 1)
                  && (s.returned[k].request == Continue ==> !s.returned[k].paused))
            && s.debugger != Broken
            && (s.debugger == CalledWhileRunning ==> Running(s))
            && (s.debugger == Idle ==> if LeftStopped(s) then Held(s) else Running(s))
  {
    assert Inv(START);
    RunKeeps(START, es);
  }

  /** The debugger makes no request to continue or to step. */
  predicate NoResume(e: Event) {
    e.OfCore? || e.request == Pause
  }

  /** The core is stopped, and the debugger is doing nothing about it. */
  predicate AtRest(s: State) {
    Held(s) && s.debugger in {AssertPaused, AssertStepped, Idle, CheckPaused}
  }

  lemma {:induction false} HeldRun(s: State, es: seq<Event>)
    requires Inv(s) && AtRest(s) && forall e | e in es :: NoResume(e)
    ensures Run(s, es).executed == s.executed && Held(Run(s, es))
    decreases |es|
  {
    if es != [] {
      var e := es[0];
      assert NoResume(e);
      StillHeld(s, e);
      HeldRun(Next(s, e), es[1..]);
    }
  }

  lemma StillHeld(s: State, e: Event)
    requires Inv(s) && AtRest(s) && NoResume(e)
    ensures var s' := Next(s, e);
            Inv(s') && AtRest(s') && s'.executed == s.executed
  {
    if e.OfCore? {
      CoreStepKeeps(s);
    } else {
      DebuggerStepKeeps(s, e.request);
    }
  }

  /** Once RequestPause or RequestStep has returned, or is about to, no instruction runs until a continue or
      a step is requested. */
  lemma PauseHolds(before: seq<Event>, after: seq<Event>)
    requires var s := Run(START, before);
             s.debugger == AssertPaused || s.debugger == AssertStepped || (s.debugger == Idle && LeftStopped(s))
    requires forall e | e in after :: NoResume(e)
    ensures Run(Run(START, before), after).executed == Run(START, before).executed
    ensures Held(Run(Run(START, before), after))
  {
    assert Inv(START);
    RunKeeps(START, before);
    hide Run;
    HeldRun(Run(START, before), after);
  }

  /** Once RequestContinue has returned, and before the first request, three steps of the core run exactly one
      instruction. */
  lemma ContinueRuns(before: seq<Event>)
    requires var s := Run(START, before); s.debugger == Idle && !LeftStopped(s)
    ensures Run(Run(START, before), [OfCore, OfCore, OfCore]).executed == Run(START, before).executed + 1
  {
    assert Inv(START);
    RunKeeps(START, before);
    var s := Run(START, before);
    var c := OfCore;
    assert CoreStep(CoreStep(CoreStep(s))).executed == s.executed + 1;
    hide Run, Inv, CoreStep;
    NoSteps(Next(Next(Next(s, c), c), c));
    OneStep(Next(Next(s, c), c), c, []);
    TwoSteps(s, c, c, [c] + []);
    assert [c, c] + ([c] + []) == [c, c, c];
  }

  lemma ThreeSteps(s: State, e: Event, f: Event, g: Event)
    ensures Run(s, [e, f, g]) == Next(Next(Next(s, e), f), g)
  {
    hide Next, Run;
    NoSteps(Next(Next(Next(s, e), f), g));
    OneStep(Next(Next(s, e), f), g, []);
    TwoSteps(s, e, f, [g]);
    assert [g] + [] == [g] && [e, f] + [g] == [e, f, g];
  }

  lemma ContinueRaised(s: State)
    requires s.debugger == Idle && s.paused
    ensures var d := OfDebugger(Continue);
            Run(s, [d, d, d]) == s.(debugger := AwaitRunning, requestContinue := true, request := Continue, called := s.executed)
  {
    var d := OfDebugger(Continue);
    ThreeSteps(s, d, d, d);
    hide Run;
  }

  lemma ContinueNoticed(s: State)
    requires s.debugger == AwaitRunning && !s.paused && s.request == Continue && s.executed == s.called
    ensures var d := OfDebugger(Continue);
            Run(s, [d, d, d]) == s.(debugger := Idle, requestContinue := false,
                                    returned := s.returned + [Return(Continue, false, 0)])
  {
    var d := OfDebugger(Continue);
    ThreeSteps(s, d, d, d);
    hide Run;
  }

  /** Four steps after the continue flag went up, a stopped core has resumed. */
  lemma CoreResumes(s: State)
    requires Held(s) && !s.requestPause && s.requestContinue
    ensures CoreStep(CoreStep(CoreStep(CoreStep(s)))) == s.(core := AwaitNoticed, paused := false)
  {
  }

  /** In a stopped core, a continue returns by this schedule. */
  lemma ContinueCanReturn(s: State)
    requires Inv(s) && s.debugger == Idle && LeftStopped(s)
    ensures var d, c := OfDebugger(Continue), OfCore;
            var s' := Run(s, [d, d, d, c, c, c, c, d, d, d]);
            s'.debugger == Idle && s'.returned == s.returned + [Return(Continue, false, 0)]
  {
    var d, c := OfDebugger(Continue), OfCore;
    assert Held(s) && !s.requestPause;
    hide Inv, Run, CoreStep, Held;
    var s1 := Run(s, [d, d, d]);
    ContinueRaised(s);
    CoreResumes(s1) by { assert Held(s1) by { SameHeld(s, s1); } }
    FourSteps(s1, c, c, c, c);
    ContinueNoticed(Run(s1, [c, c, c, c]));
    RunAppend(s1, [c, c, c, c], [d, d, d]);
    RunAppend(s, [d, d, d], [c, c, c, c] + [d, d, d]);
    assert [d, d, d] + ([c, c, c, c] + [d, d, d]) == [d, d, d, c, c, c, c, d, d, d];
  }

  lemma SameHeld(s: State, s': State)
    requires Held(s) && s'.paused == s.paused && s'.core == s.core
    ensures Held(s')
  {
  }

  /** Four steps after the pause flag went up, a running core has stopped. */
  lemma CoreObeys(s: State)
    requires Running(s) && s.requestPause && !s.requestContinue
    ensures var s' := CoreStep(CoreStep(CoreStep(CoreStep(s))));
            s' == s.(core := AwaitAck, paused := true, executed := s'.executed)
  {
  }

  lemma FourSteps(s: State, e: Event, f: Event, g: Event, h: Event)
    ensures Run(s, [e, f, g, h]) == Next(Next(Next(Next(s, e), f), g), h)
  {
    hide Next, Run;
    var s2 := Next(Next(s, e), f);
    NoSteps(Next(Next(s2, g), h));
    TwoSteps(s2, g, h, []);
    TwoSteps(s, e, f, [g, h]);
    assert [g, h] + [] == [g, h] && [e, f] + [g, h] == [e, f, g, h];
  }

  lemma PauseRaised(s: State)
    requires Running(s) && s.debugger == Idle
    ensures var d := OfDebugger(Pause);
            Run(s, [d, d, d, d]) == s.(debugger := AwaitPaused, requestPause := true, request := Pause, called := s.executed)
  {
    var d := OfDebugger(Pause);
    FourSteps(s, d, d, d, d);
    hide Run;
  }

  lemma PauseNoticed(s: State)
    requires s.debugger == AwaitPaused && s.paused && s.request == Pause
    ensures var d := OfDebugger(Pause);
            Run(s, [d, d, d]) == s.(debugger := Idle, requestPause := false,
                                    returned := s.returned + [Return(Pause, true, s.executed - s.called)])
  {
    var d := OfDebugger(Pause);
    var s3 := Next(Next(Next(s, d), d), d);
    assert s3 == s.(debugger := Idle, requestPause := false,
                    returned := s.returned + [Return(Pause, true, s.executed - s.called)]);
    hide Run, Next;
    NoSteps(s3);
    OneStep(Next(Next(s, d), d), d, []);
    TwoSteps(s, d, d, [d]);
    assert [d] + [] == [d] && [d, d] + [d] == [d, d, d];
  }

  /** In a running core, a pause returns by this schedule. */
  lemma PauseCanReturn(s: State)
    requires Inv(s) && s.debugger == Idle && !LeftStopped(s)
    ensures var d, c := OfDebugger(Pause), OfCore;
            var s' := Run(s, [d, d, d, d, c, c, c, c, d, d, d]);
            s'.debugger == Idle && s'.returned != [] && s'.returned[..|s'.returned| - 1] == s.returned && LeftStopped(s')
  {
    var d, c := OfDebugger(Pause), OfCore;
    assert Running(s) && !s.requestContinue;
    var s1 := Run(s, [d, d, d, d]);
    PauseRaised(s);
    hide Inv;
    CoreObeys(s1);
    FourSteps(s1, c, c, c, c);
    hide Run, CoreStep;
    var s2 := Run(s1, [c, c, c, c]);
    PauseNoticed(s2);
    RunAppend(s1, [c, c, c, c], [d, d, d]);
    RunAppend(s, [d, d, d, d], [c, c, c, c] + [d, d, d]);
    assert [d, d, d, d] + ([c, c, c, c] + [d, d, d]) == [d, d, d, d, c, c, c, c, d, d, d];
  }

  // ---------------------------------------------------------------------------
  // The missed pulse
  // ---------------------------------------------------------------------------

  /** Both sides wait for each other. */
  predicate Stuck(s: State) {
    s.debugger == StepAwaitRunning && s.core == AwaitAck && s.requestPause && s.paused
  }

  lemma {:induction false} StuckForever(s: State, es: seq<Event>)
    requires Stuck(s)
    ensures Run(s, es) == s
    decreases |es|
  {
    if es != [] {
      StuckForever(s, es[1..]);
    }
  }

  /** The step has raised both flags, or is about to raise the second, and has got no further. */
  predicate StillReleasing(s: State) {
    s.debugger == StepRaiseContinue || s.debugger == StepAwaitRunning
  }

  lemma {:induction false} NeverReleased(s: State, es: seq<Event>)
    requires s.core == AwaitAck && s.requestPause && s.paused && StillReleasing(s)
    ensures StillReleasing(Run(s, es))
    decreases |es|
  {
    if es != [] {
      NeverReleased(Next(s, es[0]), es[1..]);
    }
  }

  /** Once a step has raised the pause flag again, it can never get past releasing the core, whatever
      the schedule, exactly if the core has not seen the flag down yet; otherwise some schedule lets
      it return. */
  lemma StepStuckIff(s: State)
    requires Inv(s) && s.debugger == StepRaiseContinue
    ensures (forall es: seq<Event> :: StillReleasing(Run(s, es))) <==> s.core == AwaitAck
    ensures s.core != AwaitAck ==> exists es :: Run(s, es).debugger == AssertStepped
  {
    if s.core == AwaitAck {
      hide Inv;
      HeldAgain(s);
      forall es: seq<Event>
        ensures StillReleasing(Run(s, es))
      {
        NeverReleased(s, es);
      }
    } else {
      StepReturns(s);
      var es :| Run(s, es).debugger == AssertStepped;
      assert !StillReleasing(Run(s, es));
    }
  }

  /** Otherwise there is a schedule by which it returns. */
  lemma StepReturns(s: State)
    requires Inv(s) && s.debugger == StepRaiseContinue && s.core != AwaitAck
    ensures exists es :: Run(s, es).debugger == AssertStepped
  {
    hide Run, Next, Inv;
    HeldAgain(s);
    var d, c := OfDebugger(Step), OfCore;
    var s1 := s.(requestContinue := true, debugger := StepAwaitRunning);
    var s2 := s1.(core := AwaitContinue);
    RaisesContinue(s);
    ReleasedReturns(s2);
    var rest := [c, c, d, d, c, c, c, c, d, d];
    if s.core == TestPaused {
      TestGoesOn(s1);
      TwoSteps(s, d, c, rest);
    } else {
      assert s1 == s2;
      OneStep(s, d, rest);
    }
  }

  lemma HeldAgain(s: State)
    requires Inv(s) && s.debugger == StepRaiseContinue
    ensures Held(s) && s.requestPause
  {
  }

  lemma RaisesContinue(s: State)
    requires s.debugger == StepRaiseContinue
    ensures Next(s, OfDebugger(Step)) == s.(requestContinue := true, debugger := StepAwaitRunning)
  {
  }

  lemma TestGoesOn(s: State)
    requires s.core == TestPaused && s.paused
    ensures Next(s, OfCore) == s.(core := AwaitContinue)
  {
  }

  lemma ReleasedReturns(s: State)
    requires s.debugger == StepAwaitRunning && s.core == AwaitContinue && s.paused && s.requestPause && s.requestContinue
    ensures var d, c := OfDebugger(Step), OfCore;
            Run(s, [c, c, d, d, c, c, c, c, d, d]).debugger == AssertStepped
  {
    hide Run;
    var d, c := OfDebugger(Step), OfCore;
    var s3 := s.(core := AwaitNoticed, paused := false);
    var s4 := s3.(requestContinue := false, debugger := StepAwaitPaused);
    assert Next(Next(s, c), c) == s3 && Next(Next(s3, d), d) == s4;
    hide Next;
    SteppingReturns(s4);
    var es := [c, c, c, c, d, d];
    TwoSteps(s, c, c, [d, d] + es);
    TwoSteps(s3, d, d, es);
    assert [c, c] + ([d, d] + es) == [c, c, d, d, c, c, c, c, d, d];
  }

  lemma SteppingReturns(s: State)
    requires s.debugger == StepAwaitPaused && s.core == AwaitNoticed && !s.paused && s.requestPause && !s.requestContinue
    ensures var d, c := OfDebugger(Step), OfCore;
            Run(s, [c, c, c, c, d, d]).debugger == AssertStepped
  {
    hide Run;
    var d, c := OfDebugger(Step), OfCore;
    var s5 := s.(core := PollPause, executed := s.executed + 1);
    var s6 := s5.(core := AwaitAck, paused := true);
    var s7 := s6.(requestPause := false, debugger := AssertStepped);
    assert Next(Next(s, c), c) == s5 && Next(Next(s5, c), c) == s6 && Next(Next(s6, d), d) == s7;
    hide Next;
    NoSteps(s7);
    TwoSteps(s6, d, d, []);
    TwoSteps(s5, c, c, [d, d] + []);
    TwoSteps(s, c, c, [c, c] + ([d, d] + []));
    assert [c, c] + ([c, c] + ([d, d] + [])) == [c, c, c, c, d, d];
  }

  lemma OneStep(s: State, e: Event, es: seq<Event>)
    ensures Run(s, [e] + es) == Run(Next(s, e), es)
  {
    hide Next;
    assert ([e] + es)[1..] == es;
  }

  lemma NoSteps(s: State)
    ensures Run(s, []) == s
  {
  }

  lemma TwoSteps(s: State, e: Event, f: Event, es: seq<Event>)
    ensures Run(s, [e, f] + es) == Run(Next(Next(s, e), f), es)
  {
    hide Next;
    assert ([e, f] + es)[1..] == [f] + es && ([f] + es)[1..] == es;
  }

  /** The state in which RequestPause returns before the core has seen the flag go down. */
  const JUST_PAUSED := State(false, true, false, AssertPaused, AwaitAck, 0, Pause, 0, [])

  lemma JustPausedReached()
    ensures var c, p := OfCore, OfDebugger(Pause);
            Run(START, [p, p, p, p, c, c, p, p]) == JUST_PAUSED
  {
    hide Run;
    var c, p := OfCore, OfDebugger(Pause);
    var s1 := START.(debugger := AssertRunning);
    var s2 := START.(requestPause := true, debugger := AwaitPaused);
    var s3 := s2.(paused := true, core := AwaitAck);
    assert Next(Next(START, p), p) == s1 && Next(Next(s1, p), p) == s2 && Next(Next(s2, c), c) == s3;
    assert Next(Next(s3, p), p) == JUST_PAUSED;
    hide Next;
    NoSteps(JUST_PAUSED);
    TwoSteps(s3, p, p, []);
    TwoSteps(s2, c, c, [p, p] + []);
    TwoSteps(s1, p, p, [c, c] + ([p, p] + []));
    TwoSteps(START, p, p, [p, p] + ([c, c] + ([p, p] + [])));
    assert [p, p] + ([p, p] + ([c, c] + ([p, p] + []))) == [p, p, p, p, c, c, p, p];
  }

  lemma StepRaisesPulse(s: State)
    requires s.debugger == EnterStep && s.core == AwaitAck && s.paused
    ensures var d := OfDebugger(Step);
            Stuck(Next(Next(Next(Next(s, d), d), d), d))
  {
  }

  lemma StepCalled(s: State)
    requires s.debugger == AssertPaused && s.core == AwaitAck && s.paused
    ensures var s' := Next(Next(s, OfDebugger(Pause)), OfDebugger(Step));
            s'.debugger == EnterStep && s'.core == AwaitAck && s'.paused
  {
  }

  lemma JustPausedGetsStuck()
    ensures var p, d := OfDebugger(Pause), OfDebugger(Step);
            Stuck(Run(JUST_PAUSED, [p, d, d, d, d, d]))
  {
    hide Run, Next, Stuck;
    var p, d := OfDebugger(Pause), OfDebugger(Step);
    var s := Next(Next(JUST_PAUSED, p), d);
    StepCalled(JUST_PAUSED);
    StepRaisesPulse(s);
    FourSteps(s, d, d, d, d);
    TwoSteps(JUST_PAUSED, p, d, [d, d, d, d]);
    assert [p, d] + [d, d, d, d] == [p, d, d, d, d, d];
  }

  lemma {:induction false} RunAppend(s: State, es: seq<Event>, fs: seq<Event>)
    ensures Run(s, es + fs) == Run(Run(s, es), fs)
    decreases |es|
  {
    if es == [] {
      assert es + fs == fs;
    } else {
      RunAppend(Next(s, es[0]), es[1..], fs);
      assert (es + fs)[1..] == es[1..] + fs;
    }
  }

  /** From the start, a debugger that pauses and then steps right away can get stuck, and whatever
      happens after that nothing changes any more. */
  lemma MissedPulse(after: seq<Event>)
    ensures var c, p, d := OfCore, OfDebugger(Pause), OfDebugger(Step);
            var es := [p, p, p, p, c, c, p, p, p, d, d, d, d, d];
            && Stuck(Run(START, es))
            && Run(START, es + after) == Run(START, es)
  {
    hide Run, Next;
    var c, p, d := OfCore, OfDebugger(Pause), OfDebugger(Step);
    var pausing, stepping := [p, p, p, p, c, c, p, p], [p, d, d, d, d, d];
    JustPausedReached();
    JustPausedGetsStuck();
    RunAppend(START, pausing, stepping);
    var es := pausing + stepping;
    assert es == [p, p, p, p, c, c, p, p, p, d, d, d, d, d];
    RunAppend(START, es, after);
    StuckForever(Run(START, es), after);
  }
}
