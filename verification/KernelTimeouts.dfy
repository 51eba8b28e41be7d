/**
  Timeouts are never lost: whoever waits with a timeout is in the waiting queue,
  over every run, and whenever the clock has moved nobody is left who should
  have been woken by then.
 */
module KernelTimeouts {
  import opened Options
  import opened Lists
  import opened Kernel
  import opened KernelInvariants
  import opened KernelRuns
  import opened KernelEffects

  /** t waits for a point in time. */
  predicate Timed(th: Thread) {
    (th.status == Sleeping && th.timeoutAt != NO_TIMEOUT) || th.status == WaitingForTimeout
  }

  ghost predicate Tracked(st: State) {
    forall t | t in st.threads && Timed(st.threads[t]) :: t in st.waiting
  }

  /** No thread began to wait for a point in time. */
  ghost predicate NoNewTimed(st: State, st': State) {
    && st'.waiting == st.waiting
    && forall t | t in st'.threads && Timed(st'.threads[t]) :: t in st.threads && Timed(st.threads[t])
  }

  lemma NoNewTimedTracked(st: State, st': State)
    requires Tracked(st) && NoNewTimed(st, st')
    ensures Tracked(st')
  {
  }

  /** What holds of a faulted outcome too, since it has no state. */
  ghost predicate Calm(st: State, r: Result) {
    r.Ok? ==> NoNewTimed(st, r.state)
  }

  lemma CalmTrans(a: State, b: State, r: Result)
    requires NoNewTimed(a, b) && Calm(b, r)
    ensures Calm(a, r)
  {
  }

  /** Waking threads adds nobody who waits for a point in time. */
  lemma WokeCalm(st: State, r: Result)
    requires Woke(st, r)
    ensures Calm(st, r)
  {
  }

  lemma ReadyCalm(st: State, o: Oid)
    requires Core(st) && o in st.subjects
    ensures Calm(st, OnResourceReady(st, o))
  {
    hide Core, OnResourceReady, Wakes;
    ReadyWoke(st, o);
    WokeCalm(st, OnResourceReady(st, o));
  }

  lemma NothingNew(st: State)
    ensures NoNewTimed(st, st)
  {
  }

  lemma OnlySubjects(st: State, st': State)
    requires st'.threads == st.threads && st'.waiting == st.waiting
    ensures NoNewTimed(st, st')
  {
  }

  // ---------------------------------------------------------------------------
  // The passing of time
  // ---------------------------------------------------------------------------

  /** Of a pass over the waiting queue: threads keep their timeouts, and whoever is waited for is still
      queued. */
  lemma ExpireTracked(st: State, t: Tid, i: nat)
    requires Tracked(st) && t in st.threads && i < |st.waiting| && st.waiting[i] == t && Expire(st, t).Ok?
    ensures var st1 := Expire(st, t).state.(waiting := RemoveAt(st.waiting, i));
            Tracked(st1) && SameDeadlines(st, st1)
  {
    var st1 := Expire(st, t).state.(waiting := RemoveAt(st.waiting, i));
    hide UnregisterAll;
    forall u | u in st1.threads && Timed(st1.threads[u])
      ensures u in st1.waiting
    {
      assert u != t && u in st.waiting;
      RemoveAtCount(st.waiting, i, u);
    }
  }

  /** The same threads, with the same timeouts, at the same time. */
  ghost predicate SameDeadlines(st: State, st': State) {
    && st'.threads.Keys == st.threads.Keys && st'.now == st.now
    && forall t | t in st.threads :: st'.threads[t].timeoutAt == st.threads[t].timeoutAt
  }

  /** The entries before position i are of threads whose time has not come. */
  ghost predicate NotDue(st: State, i: nat)
    requires i <= |st.waiting|
  {
    forall k | 0 <= k < i :: st.waiting[k] in st.threads && st.now < st.threads[st.waiting[k]].timeoutAt
  }

  lemma NotDueAfter(st: State, st': State, i: nat)
    requires i < |st.waiting| && NotDue(st, i) && SameDeadlines(st, st') && st'.waiting == RemoveAt(st.waiting, i)
    ensures NotDue(st', i)
  {
    assert forall k | 0 <= k < i :: st'.waiting[k] == st.waiting[k];
  }

  lemma {:induction false} TimeoutsFire(st: State, i: nat)
    requires Tracked(st) && i <= |st.waiting| && NotDue(st, i)
    ensures RunTimeouts(st, i).Ok? ==>
              var st' := RunTimeouts(st, i).state;
              Tracked(st') && NotDue(st', |st'.waiting|)
    decreases |st.waiting| - i
  {
    hide Expire, RemoveAt, Tracked, NotDue, SameDeadlines;
    if i < |st.waiting| {
      var t := st.waiting[i];
      if t !in st.threads {
        var st1 := st.(waiting := RemoveAt(st.waiting, i));
        GoneTracked(st, i);
        NotDueAfter(st, st1, i);
        TimeoutsFire(st1, i);
      } else if st.threads[t].timeoutAt <= st.now {
        if Expire(st, t).Ok? {
          var st1 := Expire(st, t).state.(waiting := RemoveAt(st.waiting, i));
          ExpireTracked(st, t, i);
          NotDueAfter(st, st1, i);
          TimeoutsFire(st1, i);
        }
      } else {
        OneMoreNotDue(st, i);
        TimeoutsFire(st, i + 1);
      }
    }
  }

  lemma GoneTracked(st: State, i: nat)
    requires Tracked(st) && i < |st.waiting| && st.waiting[i] !in st.threads
    ensures var st1 := st.(waiting := RemoveAt(st.waiting, i));
            Tracked(st1) && SameDeadlines(st, st1)
  {
    var st1 := st.(waiting := RemoveAt(st.waiting, i));
    forall u | u in st1.threads && Timed(st1.threads[u])
      ensures u in st1.waiting
    {
      assert u in st.waiting && u != st.waiting[i];
      RemoveAtCount(st.waiting, i, u);
    }
  }

  lemma OneMoreNotDue(st: State, i: nat)
    requires i < |st.waiting| && NotDue(st, i) && st.waiting[i] in st.threads && st.now < st.threads[st.waiting[i]].timeoutAt
    ensures NotDue(st, i + 1)
  {
  }

  /** After the clock moved, whoever still waits for a point in time waits for one in the future. */
  lemma ElapseTracked(st: State, tick: Tick)
    requires Core(st) && Tracked(st)
    ensures ElapseTime(st, tick).Ok? ==>
              var st' := ElapseTime(st, tick).state;
              && Tracked(st')
              && forall t | t in st'.threads && Timed(st'.threads[t]) :: st'.now < st'.threads[t].timeoutAt
  {
    hide Core, RunTimers, FireInterrupts, RunTimeouts, Tracked, NoNewTimed, Wakes, Calmer, SameNames, KeepsReady;
    var st0 := st.(now := st.now + tick.elapsed);
    CoreIgnores(st, st0);
    OnlySubjects(st, st0);
    TimersWoke(st0, st0.timers);
    WokeCalm(st0, RunTimers(st0, st0.timers));
    TimersKeep(st0, st0.timers);
    var r1 := RunTimers(st0, st0.timers);
    if r1.Ok? {
      InterruptsWoke(r1.state, tick.fired);
      var r2 := FireInterrupts(r1.state, tick.fired);
      WokeCalm(r1.state, r2);
      if r2.Ok? {
        NoNewTimedTracked(st, st0);
        NoNewTimedTracked(st0, r1.state);
        NoNewTimedTracked(r1.state, r2.state);
        assert NotDue(r2.state, 0);
        TimeoutsFire(r2.state, 0);
        if RunTimeouts(r2.state, 0).Ok? {
          AllInFuture(RunTimeouts(r2.state, 0).state);
        }
      }
    }
  }

  lemma AllInFuture(st: State)
    requires Tracked(st) && NotDue(st, |st.waiting|)
    ensures forall t | t in st.threads && Timed(st.threads[t]) :: st.now < st.threads[t].timeoutAt
  {
    forall t | t in st.threads && Timed(st.threads[t])
      ensures st.now < st.threads[t].timeoutAt
    {
      var k :| 0 <= k < |st.waiting| && st.waiting[k] == t;
    }
  }

  // ---------------------------------------------------------------------------
  // Waiting
  // ---------------------------------------------------------------------------

  /** Only thread t changed, and neither its status nor its timeout. */
  ghost predicate OnlyOf(st: State, st': State, t: Tid) {
    && t in st.threads && st'.threads.Keys == st.threads.Keys && st'.waiting == st.waiting && st'.ready == st.ready
    && st'.nextTid == st.nextTid && st'.threads[t].life == st.threads[t].life
    && st'.threads[t].status == st.threads[t].status && st'.threads[t].timeoutAt == st.threads[t].timeoutAt
    && forall u | u in st.threads && u != t :: st'.threads[u] == st.threads[u]
  }

  lemma {:induction false} ScanOnly(st: State, t: Tid, i: nat, all: bool)
    requires t in st.threads && i <= |st.threads[t].waitList|
    requires forall o | o in st.threads[t].waitList :: o in st.subjects
    ensures Scan(st, t, i, all).Ok? ==> OnlyOf(st, Scan(st, t, i, all).state, t)
    decreases |st.threads[t].waitList| - i
  {
    hide UnregisterAll, RemoveFirst, TryAcquireImpl;
    var th := st.threads[t];
    if i < |th.waitList| {
      var o := th.waitList[i];
      var v := TryAcquire(st, o, t);
      if v.Missed? {
        ScanOnly(st, t, i + 1, all);
      } else if v.Got? && all {
        var st1 := v.state;
        var th1 := st1.threads[t].(wakeIndex := i, woken := Some(o), waitList := RemoveAt(th.waitList, i));
        assert OnlyOf(st, SetThread(st1, t, th1), t);
        ScanOnly(SetThread(st1, t, th1), t, i, all);
      }
    }
  }

  lemma WaitTracked(st: State, t: Tid, handles: seq<Handle>, all: bool, timeout: int)
    requires Tracked(st) && t in st.threads && st.threads[t].status == Ready
    ensures Wait(st, t, handles, all, timeout).Ok? ==> Tracked(Wait(st, t, handles, all, timeout).state)
  {
    hide Scan, Register, WaitHandles, Ids;
    var r := Wait(st, t, handles, all, timeout);
    if r.Ok? {
      var os := Ids(WaitHandles(handles));
      var th := BeginWait(st, st.threads[t], os, all, timeout);
      var st0 := SetThread(st, t, th);
      RegisterClosed(st0, os, t);
      var st1 := Register(st0, os, t);
      ScanOnly(st1, t, 0, all);
      EndTracked(st, st1, Scan(st1, t, 0, all).state, t, all);
    }
  }

  lemma EndTracked(st: State, st1: State, st2: State, t: Tid, all: bool)
    requires Tracked(st) && t in st.threads && t in st1.threads && st1.threads == st.threads[t := st1.threads[t]]
    requires st1.waiting == st.waiting && st1.threads[t].status == Ready && OnlyOf(st1, st2, t)
    ensures Tracked(EndWait(st2, t, all))
  {
  }

  // ---------------------------------------------------------------------------
  // Ending threads
  // ---------------------------------------------------------------------------

  lemma ExitCalm(st: State, t: Tid, held: seq<Oid>)
    requires Inv(st) && t in st.threads
    ensures Calm(st, ExitThread(st, t, held))
  {
    hide Core, Quiet, SameNames, KeepsReady, ReleaseOwned, OnResourceReady, UnregisterAll, NoNewTimed, Wakes;
    NothingNew(st);
    ReleaseOwnedSettles(st, held, t);
    SettlesSound(st, ReleaseOwned(st, held, t));
    ReleaseOwnedWoke(st, held, t);
    WokeCalm(st, ReleaseOwned(st, held, t));
    if st.threads[t].status != Stopped && ReleaseOwned(st, held, t).Ok? {
      var st1 := ReleaseOwned(st, held, t).state;
      SubjectExists(st1, t);
      var th := Ended(st1.threads[t]);
      var ready := RemoveAll(st1.ready, t);
      GiveUpKeeps(st1, t, th, ready);
      var st2 := UnregisterAll(st1, st1.threads[t].waitList, t).state;
      var st3 := SetThread(st2, t, th).(ready := ready);
      assert st3.ready == RemoveAll(st2.ready, t);
      StoppedCalm(st1, st3, t, th, ready);
      if th.subject in st3.subjects {
        ReadyCalm(st3, th.subject);
        CalmTrans(st1, st3, OnResourceReady(st3, th.subject));
        CalmTrans(st, st1, OnResourceReady(st3, th.subject));
      }
    }
  }

  lemma StoppedCalm(st: State, st': State, t: Tid, th: Thread, ready: seq<Tid>)
    requires GaveUp(st, st', t, th, ready) && th.status == Stopped
    ensures NoNewTimed(st, st')
  {
  }

  lemma {:induction false} ExitAllCalm(st: State, victims: seq<Victim>, me: Tid)
    requires Inv(st)
    ensures Calm(st, ExitThreads(st, victims, me))
    decreases |victims|
  {
    hide Inv, ExitThread, Discharge, NoNewTimed;
    NothingNew(st);
    if victims != [] {
      var v := victims[0];
      if v.tid !in st.threads || st.threads[v.tid].life == Released {
        ExitAllCalm(st, victims[1..], me);
      } else {
        ExitSound(st, v.tid, v.held);
        ExitCalm(st, v.tid, v.held);
        var r := ExitThread(st, v.tid, v.held);
        if r.Ok? {
          var st1 := if v.tid == me then r.state else Discharge(r.state, v);
          DischargeSound(r.state, v);
          DischargeCalm(r.state, v);
          NothingNew(r.state);
          ExitAllCalm(st1, victims[1..], me);
          CalmTrans(r.state, st1, ExitThreads(st1, victims[1..], me));
          CalmTrans(st, r.state, ExitThreads(st1, victims[1..], me));
        }
      }
    }
  }

  lemma {:induction false} DropAllCalm(st: State, us: seq<Tid>)
    ensures NoNewTimed(st, DropAll(st, us))
    decreases |us|
  {
    if us != [] {
      DropAllCalm(Drop(st, us[0]), us[1..]);
      hide DropAll;
      assert NoNewTimed(st, Drop(st, us[0]));
    }
  }

  lemma DischargeCalm(st: State, v: Victim)
    ensures NoNewTimed(st, Discharge(st, v))
  {
    hide Release, DropAll;
    ReleaseCalm(st, v.tid, v.last);
    DropAllCalm(Release(st, v.tid, v.last), v.closed);
  }

  lemma ReleaseCalm(st: State, t: Tid, last: bool)
    ensures NoNewTimed(st, Release(st, t, last))
  {
  }

  // ---------------------------------------------------------------------------
  // System calls and runs
  // ---------------------------------------------------------------------------

  lemma PerformTracked(st: State, t: Tid, call: Call)
    requires Inv(st) && Tracked(st) && t in st.threads && st.threads[t].status == Ready && st.threads[t].life == Alive
    ensures Perform(st, t, call).Ok? ==> Tracked(Perform(st, t, call).state)
  {
    if call.SignalEvent? || call.ClearEvent? || call.ReleaseSemaphore? || call.UnlockMutex? || call.CloseMutex? || call.SetTimer? {
      hide Perform, Inv, Tracked, Wakes, NoNewTimed;
      ObjectCallWoke(st, t, call);
      WokeCalm(st, Perform(st, t, call));
      if Perform(st, t, call).Ok? {
        NoNewTimedTracked(st, Perform(st, t, call).state);
      }
    } else if call.WaitSynchronization? {
      hide Inv, Tracked, Wait;
      WaitTracked(st, t, call.handles, call.all, call.timeout);
    } else if call.Exit? {
      hide Inv, Tracked, ExitThreads;
      ExitAllCalm(st, call.victims, t);
      if ExitThreads(st, call.victims, t).Ok? {
        NoNewTimedTracked(st, ExitThreads(st, call.victims, t).state);
      }
    } else if call.AwaitArbitration? {
      ArbitrationTracked(st, t, call.first);
    } else {
      hide Inv, Wait, ExitThreads, Reschedule, OnResourceReady, ReleaseSemaphoreOn;
    }
  }

  lemma ArbitrationTracked(st: State, t: Tid, tick: Tick)
    requires Inv(st) && Tracked(st) && t in st.threads && st.threads[t].status == Ready && st.threads[t].life == Alive
    ensures Perform(st, t, AwaitArbitration(tick)).Ok? ==> Tracked(Perform(st, t, AwaitArbitration(tick)).state)
  {
    hide Core, NoLostWakeup, Tracked, Reschedule, OnResourceReady, Wait, ExitThreads, ReleaseSemaphoreOn, SpawnThread, AddSubject;
    var th := st.threads[t].(timeoutAt := NO_TIMEOUT, result := RESULT_OK, phase := Idle, status := WaitingForArbitration);
    var st1 := SetThread(st, t, th).(ready := RemoveAll(st.ready, t));
    RecordOf(st, t);
    assert Tracked(st1) by { PausedTracked(st, st1, t); }
    PauseSound(st, t, th, st.waiting);
    assert st1.waiting == st.waiting;
    RescheduleTracked(st1, tick);
  }

  lemma PausedTracked(st: State, st': State, t: Tid)
    requires Tracked(st) && t in st.threads && t in st'.threads && st'.threads == st.threads[t := st'.threads[t]]
    requires st'.waiting == st.waiting && !Timed(st'.threads[t])
    ensures Tracked(st')
  {
  }

  lemma RescheduleTracked(st: State, tick: Tick)
    requires Inv(st) && Tracked(st)
    ensures Reschedule(st, tick).Ok? ==> Tracked(Reschedule(st, tick).state)
  {
    hide Core, NoLostWakeup, ElapseTime;
    ElapseTracked(st, tick);
  }

  /** The thread that the dispatcher picked can still run after the clock moved. */
  lemma FrontStaysReady(st: State, tick: Tick)
    requires Inv(st) && st.ready != [] && st.ready[0] in st.threads
    ensures st.threads[st.ready[0]].status == Ready
    ensures var t := st.ready[0];
            ElapseTime(st, tick).Ok? ==>
              && t in ElapseTime(st, tick).state.threads
              && ElapseTime(st, tick).state.threads[t].status == Ready
              && ElapseTime(st, tick).state.threads[t].life == st.threads[t].life
  {
    assert st.ready[0] in st.ready;
    hide ElapseTime, Linked, ThreadsOk, SubjectsOk, NamesOk, NoLostWakeup, SameNames;
    ElapseSettles(st, tick);
  }

  lemma CallTracked(st: State, t: Tid, turn: Turn)
    requires Inv(st) && Tracked(st) && t in st.threads && st.threads[t].status == Ready && st.threads[t].life == Alive
    ensures var r := SystemCall(st, t, turn.call, turn.tick);
            r.Ok? ==> Tracked(Release(r.state, t, turn.last))
  {
    hide Inv, Tracked, Perform, Reschedule, Release, NoNewTimed;
    PerformSound(st, t, turn.call);
    PerformTracked(st, t, turn.call);
    if Perform(st, t, turn.call).Ok? {
      RescheduleTracked(Perform(st, t, turn.call).state, turn.tick);
      var r := SystemCall(st, t, turn.call, turn.tick);
      if r.Ok? {
        ReleaseCalm(r.state, t, turn.last);
        NoNewTimedTracked(r.state, Release(r.state, t, turn.last));
      }
    }
  }

  lemma DispatchTracked(st: State, turn: Turn)
    requires Inv(st) && Tracked(st)
    ensures Dispatch(st, turn).Ok? ==> Tracked(Dispatch(st, turn).state)
  {
    hide Inv, Tracked, Serve, DropAll, NoNewTimed;
    ServeTracked(st, turn);
    if Serve(st, turn).Ok? {
      DropAllCalm(Serve(st, turn).state, turn.dropped);
      NoNewTimedTracked(Serve(st, turn).state, DropAll(Serve(st, turn).state, turn.dropped));
    }
  }

  lemma ServeTracked(st: State, turn: Turn)
    requires Inv(st) && Tracked(st)
    ensures Serve(st, turn).Ok? ==> Tracked(Serve(st, turn).state)
  {
    assert Core(st) && Tracked(st.(ready := if st.ready == [] then [] else st.ready[1..]));
    hide Inv, ElapseTime, Tracked, SystemCall, Release;
    ElapseTracked(st, turn.ran);
    ElapseSound(st, turn.ran);
    if st.ready != [] && st.ready[0] in st.threads && ElapseTime(st, turn.ran).Ok? {
      FrontStaysReady(st, turn.ran);
      if st.threads[st.ready[0]].life == Alive {
        CallTracked(ElapseTime(st, turn.ran).state, st.ready[0], turn);
      }
    }
  }

  lemma {:induction false} RunTracked(st: State, turns: seq<Turn>)
    requires Inv(st) && Tracked(st)
    ensures Run(st, turns).Ok? ==> Tracked(Run(st, turns).state)
    decreases |turns|
  {
    hide Inv, Dispatch, Tracked;
    if turns != [] {
      DispatchSound(st, turns[0]);
      DispatchTracked(st, turns[0]);
      if Dispatch(st, turns[0]).Ok? {
        RunTracked(Dispatch(st, turns[0]).state, turns[1..]);
      }
    }
  }

  /** Over every run: whoever waits with a timeout is in the waiting queue, and when the clock moves next,
      by any amount, everybody whose time has come by then is woken. */
  lemma NobodyOversleeps(turns: seq<Turn>, tick: Tick)
    requires Run(Boot(), turns).Ok?
    ensures var st := Run(Boot(), turns).state;
            && (forall t | t in st.threads && Timed(st.threads[t]) :: t in st.waiting)
            && (ElapseTime(st, tick).Ok? ==>
                  var st' := ElapseTime(st, tick).state;
                  forall t | t in st'.threads && Timed(st'.threads[t]) :: st'.now < st'.threads[t].timeoutAt)
  {
    BootSound();
    assert Tracked(Boot());
    RunSoundFrom(Boot(), turns);
    RunTracked(Boot(), turns);
    var st := Run(Boot(), turns).state;
    hide Run, Boot, ElapseTime;
    ElapseTracked(st, tick);
  }
}
