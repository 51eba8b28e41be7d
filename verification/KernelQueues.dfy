/**
  The scheduler loses nobody: over every run each thread that can run is in the
  ready queue, and threads that only give way to each other take turns.
 */
module KernelQueues {
  import opened Options
  import opened Lists
  import opened Kernel
  import opened KernelInvariants
  import opened KernelWaiting
  import opened KernelRuns
  import opened KernelEffects
  import opened KernelTimeouts
  import opened KernelEndings

  /** Whoever can run is queued. */
  ghost predicate Queued(st: State) {
    forall t | t in st.threads && st.threads[t].status == Ready :: t in st.ready
  }

  ghost predicate StillQueued(r: Result) {
    r.Ok? ==> Queued(r.state)
  }

  lemma WakesQueued(st: State, r: Result)
    requires Queued(st) && Woke(st, r)
    ensures StillQueued(r)
  {
  }

  lemma DueQueued(st: State, st': State)
    requires Queued(st) && DueWoken(st, st', 0)
    ensures Queued(st')
  {
  }

  /** Nobody else changed, no entry of anybody else is lost, and t is queued if it can run. */
  lemma OneChanged(st: State, st': State, t: Tid)
    requires Queued(st) && forall u | u in st'.threads && u != t :: u in st.threads && st'.threads[u].status == st.threads[u].status
    requires forall u | u in st.ready && u != t :: u in st'.ready
    requires t in st'.threads && st'.threads[t].status == Ready ==> t in st'.ready
    ensures Queued(st')
  {
  }

  lemma ElapseQueued(st: State, tick: Tick)
    requires Core(st) && Queued(st)
    ensures StillQueued(ElapseTime(st, tick))
  {
    hide Core, RunTimers, FireInterrupts, RunTimeouts, Wakes, Queued, DueWoken, Calmer, SameNames, KeepsReady;
    var st0 := st.(now := st.now + tick.elapsed);
    ClockQueued(st, st0);
    TimersWoke(st0, st0.timers);
    TimersKeep(st0, st0.timers);
    WakesQueued(st0, RunTimers(st0, st0.timers));
    var r1 := RunTimers(st0, st0.timers);
    if r1.Ok? {
      InterruptsWoke(r1.state, tick.fired);
      InterruptsSettle(r1.state, tick.fired);
      WakesQueued(r1.state, FireInterrupts(r1.state, tick.fired));
      var r2 := FireInterrupts(r1.state, tick.fired);
      if r2.Ok? {
        TimeoutsWakeDue(r2.state, 0);
        DueQueued(r2.state, RunTimeouts(r2.state, 0).state);
      }
    }
  }

  lemma ClockQueued(st: State, st0: State)
    requires Core(st) && Queued(st) && st0 == st.(now := st0.now)
    ensures Core(st0) && Queued(st0)
  {
    hide Core;
    CoreIgnores(st, st0);
  }

  lemma RescheduleQueued(st: State, tick: Tick)
    requires Core(st) && Queued(st)
    ensures StillQueued(Reschedule(st, tick))
  {
    hide Core, ElapseTime;
    ElapseQueued(st, tick);
  }

  lemma WaitQueued(st: State, t: Tid, handles: seq<Handle>, all: bool, timeout: int)
    requires Queued(st) && t in st.threads && st.threads[t].status == Ready
    ensures StillQueued(Wait(st, t, handles, all, timeout))
  {
    hide Scan, Register, WaitHandles, Ids, Queued;
    var r := Wait(st, t, handles, all, timeout);
    if r.Ok? {
      var os := Ids(WaitHandles(handles));
      var st0 := SetThread(st, t, BeginWait(st, st.threads[t], os, all, timeout));
      RegisterClosed(st0, os, t);
      var st1 := Register(st0, os, t);
      ScanOnly(st1, t, 0, all);
      EndQueued(st, Scan(st1, t, 0, all).state, t, all);
    }
  }

  lemma EndQueued(st: State, st2: State, t: Tid, all: bool)
    requires Queued(st) && t in st.threads && st.threads[t].status == Ready && t in st2.threads && st2.threads[t].status == Ready
    requires st2.threads.Keys == st.threads.Keys && st2.ready == st.ready
    requires forall u | u in st.threads && u != t :: st2.threads[u] == st.threads[u]
    ensures Queued(EndWait(st2, t, all))
  {
  }

  // ---------------------------------------------------------------------------
  // Ending threads
  // ---------------------------------------------------------------------------

  lemma ExitQueued(st: State, t: Tid, held: seq<Oid>)
    requires Inv(st) && Queued(st) && t in st.threads
    ensures StillQueued(ExitThread(st, t, held))
  {
    hide Core, Quiet, SameNames, KeepsReady, ReleaseOwned, OnResourceReady, UnregisterAll, Wakes, Queued;
    ReleaseOwnedSettles(st, held, t);
    SettlesSound(st, ReleaseOwned(st, held, t));
    ReleaseOwnedWoke(st, held, t);
    WakesQueued(st, ReleaseOwned(st, held, t));
    if st.threads[t].status != Stopped && ReleaseOwned(st, held, t).Ok? {
      var st1 := ReleaseOwned(st, held, t).state;
      SubjectExists(st1, t);
      var th := Ended(st1.threads[t]);
      var ready := RemoveAll(st1.ready, t);
      GiveUpKeeps(st1, t, th, ready);
      var st2 := UnregisterAll(st1, st1.threads[t].waitList, t).state;
      var st3 := SetThread(st2, t, th).(ready := ready);
      assert st3.ready == RemoveAll(st2.ready, t);
      OneChanged(st1, st3, t);
      if th.subject in st3.subjects {
        ReadyWoke(st3, th.subject);
        WakesQueued(st3, OnResourceReady(st3, th.subject));
      }
    }
  }

  lemma ReleaseQueued(st: State, t: Tid, last: bool)
    requires Queued(st)
    ensures Queued(Release(st, t, last))
  {
  }

  lemma {:induction false} DropAllQueued(st: State, us: seq<Tid>)
    requires Queued(st)
    ensures Queued(DropAll(st, us))
    decreases |us|
  {
    if us != [] {
      assert Queued(Drop(st, us[0]));
      hide Queued, Drop;
      DropAllQueued(Drop(st, us[0]), us[1..]);
    }
  }

  lemma DischargeQueued(st: State, v: Victim)
    requires Queued(st)
    ensures Queued(Discharge(st, v))
  {
    hide Queued, Release, DropAll;
    ReleaseQueued(st, v.tid, v.last);
    DropAllQueued(Release(st, v.tid, v.last), v.closed);
  }

  lemma {:induction false} ExitAllQueued(st: State, victims: seq<Victim>, me: Tid)
    requires Inv(st) && Queued(st)
    ensures StillQueued(ExitThreads(st, victims, me))
    decreases |victims|
  {
    hide Inv, ExitThread, Discharge, Queued;
    if victims != [] {
      var v := victims[0];
      if v.tid !in st.threads || st.threads[v.tid].life == Released {
        ExitAllQueued(st, victims[1..], me);
      } else {
        ExitSound(st, v.tid, v.held);
        ExitQueued(st, v.tid, v.held);
        var r := ExitThread(st, v.tid, v.held);
        if r.Ok? {
          DischargeSound(r.state, v);
          DischargeQueued(r.state, v);
          ExitAllQueued(if v.tid == me then r.state else Discharge(r.state, v), victims[1..], me);
        }
      }
    }
  }

  // ---------------------------------------------------------------------------
  // Calls and runs
  // ---------------------------------------------------------------------------

  lemma PerformQueued(st: State, t: Tid, call: Call)
    requires Inv(st) && Queued(st) && t in st.threads && st.threads[t].status == Ready && st.threads[t].life == Alive
    ensures StillQueued(Perform(st, t, call))
  {
    if call.SignalEvent? || call.ClearEvent? || call.ReleaseSemaphore? || call.UnlockMutex? || call.CloseMutex? || call.SetTimer? {
      hide Perform, Inv, Queued, Wakes;
      ObjectCallWoke(st, t, call);
      WakesQueued(st, Perform(st, t, call));
    } else if call.WaitSynchronization? {
      hide Inv, Queued, Wait;
      WaitQueued(st, t, call.handles, call.all, call.timeout);
    } else if call.Exit? {
      hide Inv, Queued, ExitThreads;
      ExitAllQueued(st, call.victims, t);
    } else if call.AwaitArbitration? {
      ArbitrationQueued(st, t, call.first);
    } else {
      hide Inv, Wait, ExitThreads, Reschedule, OnResourceReady, ReleaseSemaphoreOn;
    }
  }

  lemma ArbitrationQueued(st: State, t: Tid, tick: Tick)
    requires Inv(st) && Queued(st) && t in st.threads && st.threads[t].status == Ready && st.threads[t].life == Alive
    ensures StillQueued(Perform(st, t, AwaitArbitration(tick)))
  {
    hide Core, NoLostWakeup, Queued, Reschedule, OnResourceReady, Wait, ExitThreads, ReleaseSemaphoreOn, SpawnThread, AddSubject;
    var th := st.threads[t].(timeoutAt := NO_TIMEOUT, result := RESULT_OK, phase := Idle, status := WaitingForArbitration);
    var st1 := SetThread(st, t, th).(ready := RemoveAll(st.ready, t));
    RecordOf(st, t);
    OneChanged(st, st1, t);
    PauseSound(st, t, th, st.waiting);
    assert st1.waiting == st.waiting;
    RescheduleQueued(st1, tick);
  }

  lemma CallQueued(st: State, t: Tid, turn: Turn)
    requires Inv(st) && Queued(st) && t in st.threads && st.threads[t].status == Ready && st.threads[t].life == Alive
    ensures var r := SystemCall(st, t, turn.call, turn.tick);
            r.Ok? ==> Queued(Release(r.state, t, turn.last))
  {
    hide Inv, Queued, Perform, Reschedule, Release;
    PerformSound(st, t, turn.call);
    PerformQueued(st, t, turn.call);
    if Perform(st, t, turn.call).Ok? {
      InvCore(Perform(st, t, turn.call).state);
      RescheduleQueued(Perform(st, t, turn.call).state, turn.tick);
      var r := SystemCall(st, t, turn.call, turn.tick);
      if r.Ok? {
        ReleaseQueued(r.state, t, turn.last);
      }
    }
  }

  lemma InvCore(st: State)
    requires Inv(st)
    ensures Core(st)
  {
  }

  lemma DispatchQueued(st: State, turn: Turn)
    requires Inv(st) && Queued(st)
    ensures StillQueued(Dispatch(st, turn))
  {
    hide Inv, Queued, Serve, DropAll;
    ServeQueued(st, turn);
    if Serve(st, turn).Ok? {
      DropAllQueued(Serve(st, turn).state, turn.dropped);
    }
  }

  lemma ServeQueued(st: State, turn: Turn)
    requires Inv(st) && Queued(st)
    ensures StillQueued(Serve(st, turn))
  {
    hide Inv, ElapseTime, Queued, SystemCall, Release;
    InvCore(st);
    hide Core;
    ElapseQueued(st, turn.ran);
    ElapseSound(st, turn.ran);
    if st.ready != [] && st.ready[0] in st.threads {
      FrontStaysReady(st, turn.ran);
      if st.threads[st.ready[0]].life == Alive && ElapseTime(st, turn.ran).Ok? {
        CallQueued(ElapseTime(st, turn.ran).state, st.ready[0], turn);
      }
    }
  }

  lemma {:induction false} RunQueued(st: State, turns: seq<Turn>)
    requires Inv(st) && Queued(st)
    ensures StillQueued(Run(st, turns))
    decreases |turns|
  {
    hide Inv, Dispatch, Queued;
    if turns != [] {
      DispatchSound(st, turns[0]);
      DispatchQueued(st, turns[0]);
      if Dispatch(st, turns[0]).Ok? {
        RunQueued(Dispatch(st, turns[0]).state, turns[1..]);
      }
    }
  }

  /** Over every run a thread can run exactly if it is in the ready queue: a thread that was woken, timed
      out, was created or gave way is never forgotten. */
  lemma RunnableAreQueued(turns: seq<Turn>)
    requires Run(Boot(), turns).Ok?
    ensures var st := Run(Boot(), turns).state;
            forall t | t in st.threads :: st.threads[t].status == Ready <==> t in st.ready
  {
    BootSound();
    assert Queued(Boot());
    RunSoundFrom(Boot(), turns);
    RunQueued(Boot(), turns);
    hide Run, Boot;
  }

  // ---------------------------------------------------------------------------
  // What a wait costs
  // ---------------------------------------------------------------------------

  /** What a wait does to the queues. */
  lemma WaitQueues(st: State, t: Tid, handles: seq<Handle>, all: bool, timeout: int)
    requires t in st.threads && st.threads[t].status == Ready
    ensures var r := Wait(st, t, handles, all, timeout);
            r.Ok? ==>
              && t in r.state.threads && r.state.now == st.now
              && (forall u | u in st.threads && u != t :: u in r.state.threads && r.state.threads[u] == st.threads[u])
              && if r.state.threads[t].status == Ready then r.state.ready == st.ready && r.state.waiting == st.waiting
                 else && r.state.threads[t].status == Sleeping && r.state.ready == RemoveAll(st.ready, t)
                      && r.state.waiting
                         == if r.state.threads[t].timeoutAt != NO_TIMEOUT then st.waiting + [t] else st.waiting
  {
    hide Scan, Register, WaitHandles, Ids, RemoveAll;
    var r := Wait(st, t, handles, all, timeout);
    if r.Ok? {
      var os := Ids(WaitHandles(handles));
      var st0 := SetThread(st, t, BeginWait(st, st.threads[t], os, all, timeout));
      RegisterClosed(st0, os, t);
      var st1 := Register(st0, os, t);
      ScanOnly(st1, t, 0, all);
    }
  }

  /** A wait that is over at once costs the thread neither time nor its turn, and disturbs nobody. One that is not
      lets time pass. */
  lemma WaitCosts(st: State, t: Tid, handles: seq<Handle>, all: bool, timeout: int, tick: Tick)
    requires t in st.threads && st.threads[t].status == Ready && Wait(st, t, handles, all, timeout).Ok?
    ensures var r := SystemCall(st, t, WaitSynchronization(handles, all, timeout), tick);
            var st1 := Wait(st, t, handles, all, timeout).state;
            && t in st1.threads
            && (st1.threads[t].status == Ready ==> r == Ok(st1) && st1.ready == st.ready && st1.now == st.now)
            && (st1.threads[t].status == Sleeping && r.Ok? ==> r.state.now == st.now + tick.elapsed)
  {
    hide Wait, ElapseTime, RemoveAll;
    WaitQueues(st, t, handles, all, timeout);
    WaitIs(st, t, handles, all, timeout);
    hide Perform;
  }

  lemma WaitIs(st: State, t: Tid, handles: seq<Handle>, all: bool, timeout: int)
    requires t in st.threads
    ensures Perform(st, t, WaitSynchronization(handles, all, timeout)) == Wait(st, t, handles, all, timeout)
  {
    hide OnResourceReady, Wait, ExitThreads, SpawnThread, Reschedule, AddSubject, ReleaseSemaphoreOn;
  }

  // ---------------------------------------------------------------------------
  // What the other calls cost
  // ---------------------------------------------------------------------------

  lemma {:induction false} DropAllNow(st: State, us: seq<Tid>)
    ensures DropAll(st, us).now == st.now
    decreases |us|
  {
    if us != [] {
      DropAllNow(Drop(st, us[0]), us[1..]);
    }
  }

  lemma {:induction false} ExitsNow(st: State, victims: seq<Victim>, me: Tid)
    ensures var r := ExitThreads(st, victims, me); r.Ok? ==> r.state.now == st.now
    decreases |victims|
  {
    hide DropAll, ReleaseOwned, UnregisterAll, OnResourceReady;
    if victims != [] {
      var v := victims[0];
      if v.tid !in st.threads || st.threads[v.tid].life == Released {
        ExitsNow(st, victims[1..], me);
      } else if ExitThread(st, v.tid, v.held).Ok? {
        var st1 := ExitThread(st, v.tid, v.held).state;
        assert st1.now == st.now;
        hide ExitThread;
        DropAllNow(Release(st1, v.tid, v.last), v.closed);
        ExitsNow(if v.tid == me then st1 else Discharge(st1, v), victims[1..], me);
      }
    }
  }

  /** How far a call moves the clock, if the kernel lets `passes` go by when it reschedules. A wait is not
      among these; see WaitCosts. */
  function Cost(call: Call, passes: nat): nat {
    match call
    case SleepThread(_) => 0
    case GetSystemTick(ticks) => ticks
    case AwaitArbitration(first) => first.elapsed + passes
    case Exit(_, switches) => if switches then passes else 0
    case _ => passes
  }

  /** The clock moves by exactly that, whatever the call does and whomever it wakes. */
  lemma CallCosts(st: State, t: Tid, call: Call, tick: Tick)
    requires t in st.threads && !call.WaitSynchronization? && SystemCall(st, t, call, tick).Ok?
    ensures SystemCall(st, t, call, tick).state.now == st.now + Cost(call, tick.elapsed)
  {
    PerformNow(st, t, call);
    hide Perform, ElapseTime;
  }

  lemma PerformNow(st: State, t: Tid, call: Call)
    requires t in st.threads && !call.WaitSynchronization? && Perform(st, t, call).Ok?
    ensures var now := Perform(st, t, call).state.now;
            now == match call
                   case GetSystemTick(ticks) => st.now + ticks
                   case AwaitArbitration(first) => st.now + first.elapsed
                   case _ => st.now
  {
    hide ElapseTime, OnResourceReady, ExitThreads;
    if call.Exit? {
      ExitsNow(st, call.victims, t);
    }
  }

  // ---------------------------------------------------------------------------
  // Taking turns
  // ---------------------------------------------------------------------------

  /** A turn in which the front thread is preempted and no interrupt fires. */
  predicate GivesWay(turn: Turn) {
    turn.call == Preempted && turn.ran.fired == [] && turn.tick.fired == [] && turn.dropped == []
  }

  /** Nothing but the ready threads can do anything. */
  predicate OnlyReady(st: State) {
    st.timers == [] && st.waiting == []
  }

  lemma ElapseAlone(st: State, tick: Tick)
    requires OnlyReady(st) && tick.fired == []
    ensures ElapseTime(st, tick) == Ok(st.(now := st.now + tick.elapsed))
  {
  }

  lemma OneTurn(st: State, turn: Turn)
    requires Inv(st) && OnlyReady(st) && GivesWay(turn) && st.ready != [] && st.ready[0] in st.threads
    requires st.threads[st.ready[0]].life == Alive
    ensures Dispatch(st, turn)
            == Ok(st.(ready := st.ready[1..] + [st.ready[0]], now := st.now + turn.ran.elapsed + turn.tick.elapsed))
  {
    hide Inv, Dispatch, OnlyReady;
    FrontRuns(st);
    ServeFront(st, turn);
  }

  lemma FrontRuns(st: State)
    requires Inv(st) && st.ready != [] && st.ready[0] in st.threads && st.threads[st.ready[0]].life == Alive
    ensures st.threads[st.ready[0]].status == Ready && st.threads[st.ready[0]].waitList == []
  {
    assert st.ready[0] in st.ready;
    RecordOf(st, st.ready[0]);
  }

  lemma ServeFront(st: State, turn: Turn)
    requires OnlyReady(st) && GivesWay(turn) && st.ready != [] && st.ready[0] in st.threads
    requires var th := st.threads[st.ready[0]]; th.life == Alive && th.status == Ready && th.waitList == []
    ensures Dispatch(st, turn)
            == Ok(st.(ready := st.ready[1..] + [st.ready[0]], now := st.now + turn.ran.elapsed + turn.tick.elapsed))
  {
    hide ElapseTime, SystemCall;
    var t := st.ready[0];
    ElapseAlone(st, turn.ran);
    var st1 := st.(now := st.now + turn.ran.elapsed);
    PreemptedCall(st1, t, turn.tick);
    var st2 := st1.(now := st1.now + turn.tick.elapsed, ready := st.ready[1..] + [t]);
    assert Release(st2, t, turn.last) == st2;
    assert DropAll(st2, []) == st2;
  }

  /** A turn in which the front thread reads the clock and no interrupt fires. */
  predicate Polls(turn: Turn) {
    turn.call.GetSystemTick? && turn.ran.fired == [] && turn.dropped == []
  }

  function Polled(turns: seq<Turn>): nat {
    if turns == [] then 0
    else turns[0].ran.elapsed + (if turns[0].call.GetSystemTick? then turns[0].call.ticks else 0) + Polled(turns[1..])
  }

  /** A thread that polls the clock keeps its turn, and sees the clock move with every call: nothing else
      changes, so that a loop which waits for a point in time comes to its end. */
  lemma {:induction false} PollingMovesClock(st: State, turns: seq<Turn>)
    requires OnlyReady(st) && (forall turn | turn in turns :: Polls(turn)) && st.ready != [] && st.ready[0] in st.threads
    requires var th := st.threads[st.ready[0]]; th.life == Alive && th.status == Ready && th.waitList == []
    ensures Run(st, turns) == Ok(st.(now := st.now + Polled(turns)))
    decreases |turns|
  {
    if turns != [] {
      var turn := turns[0];
      assert Polls(turn);
      PollOnce(st, turn);
      hide Dispatch;
      PollingMovesClock(st.(now := st.now + turn.ran.elapsed + turn.call.ticks), turns[1..]);
    }
  }

  lemma PollOnce(st: State, turn: Turn)
    requires OnlyReady(st) && Polls(turn) && st.ready != [] && st.ready[0] in st.threads
    requires var th := st.threads[st.ready[0]]; th.life == Alive && th.status == Ready && th.waitList == []
    ensures Dispatch(st, turn) == Ok(st.(now := st.now + turn.ran.elapsed + turn.call.ticks))
  {
    hide ElapseTime, Perform;
    var t := st.ready[0];
    ElapseAlone(st, turn.ran);
    var st1 := st.(now := st.now + turn.ran.elapsed);
    TickIs(st1, t, turn.call.ticks);
    var st2 := st1.(now := st1.now + turn.call.ticks);
    assert Release(st2, t, turn.last) == st2;
    assert DropAll(st2, []) == st2;
  }

  lemma TickIs(st: State, t: Tid, ticks: nat)
    requires t in st.threads
    ensures Perform(st, t, GetSystemTick(ticks)) == Ok(st.(now := st.now + ticks))
  {
    hide OnResourceReady, Wait, ExitThreads, SpawnThread, Reschedule, AddSubject, ReleaseSemaphoreOn;
  }

  lemma PreemptedCall(st: State, t: Tid, tick: Tick)
    requires OnlyReady(st) && t in st.threads && st.ready != [] && st.ready[0] == t && tick.fired == []
    ensures SystemCall(st, t, Preempted, tick) == Ok(st.(now := st.now + tick.elapsed, ready := st.ready[1..] + [t]))
  {
    hide ElapseTime, Perform;
    PreemptedIs(st, t);
    ElapseAlone(st, tick);
  }

  lemma PreemptedIs(st: State, t: Tid)
    requires t in st.threads
    ensures Perform(st, t, Preempted) == Ok(st)
  {
    hide OnResourceReady, Wait, ExitThreads, SpawnThread, Reschedule, AddSubject, ReleaseSemaphoreOn;
  }

  function Passed(turns: seq<Turn>): nat {
    if turns == [] then 0 else turns[0].ran.elapsed + turns[0].tick.elapsed + Passed(turns[1..])
  }

  ghost predicate AllGiveWay(turns: seq<Turn>) {
    forall turn | turn in turns :: GivesWay(turn)
  }

  ghost predicate AllAlive(st: State) {
    forall t | t in st.ready :: t in st.threads && st.threads[t].life == Alive
  }

  /** The queue turned by k, and the clock moved by n. */
  ghost function Turned(st: State, k: nat, n: nat): State
    requires k <= |st.ready|
  {
    st.(ready := st.ready[k..] + st.ready[..k], now := st.now + n)
  }

  /** Threads that only give way to each other take turns: after k turns the first k have run, each once, and
      stand behind the others in the same order; all of time that passed is on the clock. */
  lemma {:induction false} TakeTurns(st: State, turns: seq<Turn>)
    requires Inv(st) && OnlyReady(st) && AllGiveWay(turns) && |turns| <= |st.ready| && AllAlive(st)
    ensures Run(st, turns) == Ok(Turned(st, |turns|, Passed(turns)))
    decreases |turns|
  {
    hide Inv, Dispatch, GivesWay, OnlyReady, AllGiveWay, AllAlive;
    if turns == [] {
      assert st.ready[0..] + st.ready[..0] == st.ready;
    } else {
      FirstTurn(st, turns);
      var st1 := Turned(st, 1, turns[0].ran.elapsed + turns[0].tick.elapsed);
      assert Run(st, turns) == Run(st1, turns[1..]);
      TakeTurns(st1, turns[1..]);
      TurnedOn(st, |turns| - 1, turns[0].ran.elapsed + turns[0].tick.elapsed, Passed(turns[1..]));
    }
  }

  lemma FirstTurn(st: State, turns: seq<Turn>)
    requires Inv(st) && OnlyReady(st) && AllGiveWay(turns) && 1 <= |turns| <= |st.ready| && AllAlive(st)
    ensures var st1 := Turned(st, 1, turns[0].ran.elapsed + turns[0].tick.elapsed);
            && Dispatch(st, turns[0]) == Ok(st1)
            && Inv(st1) && OnlyReady(st1) && AllGiveWay(turns[1..]) && |st1.ready| == |st.ready| && AllAlive(st1)
  {
    hide Inv, Dispatch, GivesWay, OnlyReady;
    assert turns[0] in turns && st.ready[0] in st.ready;
    OneTurnOn(st, turns[0], Turned(st, 1, turns[0].ran.elapsed + turns[0].tick.elapsed));
  }

  lemma TurnedOn(st: State, k: nat, n: nat, m: nat)
    requires k < |st.ready|
    ensures |Turned(st, 1, n).ready| == |st.ready| && Turned(Turned(st, 1, n), k, m) == Turned(st, k + 1, n + m)
  {
    RotatesOn(st.ready, k);
    assert st.ready[..1] == [st.ready[0]];
  }

  lemma OneTurnOn(st: State, turn: Turn, st1: State)
    requires Inv(st) && OnlyReady(st) && GivesWay(turn) && st.ready != []
    requires st.ready[0] in st.threads && st.threads[st.ready[0]].life == Alive
    requires st1 == Turned(st, 1, turn.ran.elapsed + turn.tick.elapsed)
    ensures Dispatch(st, turn) == Ok(st1) && Inv(st1) && OnlyReady(st1)
  {
    OneTurn(st, turn);
    DispatchSound(st, turn);
    hide Inv, Dispatch, GivesWay;
    assert st.ready[..1] == [st.ready[0]];
  }

  lemma RotatesOn<T>(q: seq<T>, k: nat)
    requires k < |q|
    ensures var p := q[1..] + [q[0]]; p[k..] + p[..k] == q[k + 1..] + q[..k + 1]
  {
  }
}
