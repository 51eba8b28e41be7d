/**
  What becomes of threads that exited. Exiting does not take a thread out of the
  waiting queue, so a timeout left over from an earlier wait can put it back into
  the ready queue; if its last reference goes after that, the entry outlives the
  thread and the dispatcher trips over it. This module says exactly when.
 */
module KernelEndings {
  import opened Options
  import opened Lists
  import opened Kernel
  import opened KernelInvariants
  import opened KernelRuns
  import opened KernelEffects
  import opened KernelTimeouts

  /** A thread that exited and that a leftover timeout made ready again. */
  predicate Revived(th: Thread) {
    th.life != Alive && th.status == Ready
  }

  /** u has an entry in the ready queue and is gone. */
  predicate Dangles(st: State, u: Tid) {
    u in st.ready && u !in st.threads
  }

  /** Some entry of the ready queue is of a thread that is gone. */
  ghost predicate Haunted(st: State) {
    exists u :: Dangles(st, u)
  }

  /** Revived threads are in the ready queue, and only threads that once existed are. */
  ghost predicate EndsQueued(st: State) {
    && (forall t | t in st.threads && Revived(st.threads[t]) :: t in st.ready)
    && (forall u | u in st.ready :: u < st.nextTid)
  }

  /** What a step keeps if it drops no thread from under its entry. */
  ghost predicate Settled(st: State, st': State) {
    EndsQueued(st') && (Haunted(st') <==> Haunted(st))
  }

  lemma SettledTrans(a: State, b: State, c: State)
    requires Settled(a, b) && Settled(b, c)
    ensures Settled(a, c)
  {
  }

  /** Entries of threads that are gone are the same. */
  ghost predicate SameDangling(st: State, st': State) {
    forall u :: Dangles(st', u) <==> Dangles(st, u)
  }

  lemma SameDanglingHaunted(st: State, st': State)
    requires SameDangling(st, st')
    ensures Haunted(st') <==> Haunted(st)
  {
    if Haunted(st) {
      var u :| Dangles(st, u);
      assert Dangles(st', u);
    }
  }

  lemma WakesSettled(st: State, st': State)
    requires Core(st) && EndsQueued(st) && Wakes(st, st')
    ensures Settled(st, st')
  {
    forall t | t in st.threads
      ensures ThreadOk(st.threads[t]) && t < st.nextTid
    {
    }
    hide ThreadOk;
    EndedAwake(st);
    SameDanglingHaunted(st, st');
  }

  lemma EndedAwake(st: State)
    requires forall t | t in st.threads :: ThreadOk(st.threads[t])
    ensures forall t | t in st.threads && st.threads[t].life != Alive :: st.threads[t].status != Sleeping
  {
    forall t | t in st.threads && st.threads[t].life != Alive
      ensures st.threads[t].status != Sleeping
    {
      assert ThreadOk(st.threads[t]);
    }
  }

  // ---------------------------------------------------------------------------
  // The passing of time
  // ---------------------------------------------------------------------------

  /** t has a timeout entry from position i on, and its time has come. */
  predicate Due(st: State, i: nat, t: Tid)
    requires i <= |st.waiting|
  {
    t in st.threads && t in st.waiting[i..] && st.threads[t].timeoutAt <= st.now
  }

  /** Exactly the threads that are due from position i on became ready and were queued. */
  ghost predicate DueWoken(st: State, st': State, i: nat)
    requires i <= |st.waiting|
  {
    && st'.threads.Keys == st.threads.Keys && st'.nextTid == st.nextTid
    && (forall t | t in st.threads ::
          && st'.threads[t].status == (if Due(st, i, t) then Ready else st.threads[t].status)
          && st'.threads[t].life == st.threads[t].life)
    && (forall u :: u in st'.ready <==> u in st.ready || Due(st, i, u))
  }

  lemma ExpireEffect(st: State, t: Tid)
    requires Core(st) && t in st.threads
    ensures Expire(st, t).Ok?
    ensures var st' := Expire(st, t).state;
            && st'.threads == st.threads[t := TimedOutThread(st.threads[t])] && st'.ready == st.ready + [t]
            && st'.waiting == st.waiting && st'.now == st.now && st'.nextTid == st.nextTid
  {
    hide Calmer, SameNames, KeepsReady;
    ExpireKeeps(st, t);
    assert ThreadOk(st.threads[t]);
    hide Core;
    ExpireIs(st, t);
  }

  lemma DueAfter(st: State, st1: State, i: nat, u: Tid)
    requires i < |st.waiting| && st1.waiting == RemoveAt(st.waiting, i)
    requires st1.threads.Keys == st.threads.Keys && st1.now == st.now
    requires u in st.threads ==> st1.threads[u].timeoutAt == st.threads[u].timeoutAt
    ensures Due(st, i, u) <==> Due(st1, i, u) || (u == st.waiting[i] && u in st.threads && st.threads[u].timeoutAt <= st.now)
  {
    assert st1.waiting[i..] == st.waiting[i + 1..];
    assert st.waiting[i..] == [st.waiting[i]] + st.waiting[i + 1..];
  }

  lemma DueNext(st: State, i: nat, u: Tid)
    requires i < |st.waiting|
    ensures Due(st, i, u) <==> Due(st, i + 1, u) || (u == st.waiting[i] && u in st.threads && st.threads[u].timeoutAt <= st.now)
  {
    assert st.waiting[i..] == [st.waiting[i]] + st.waiting[i + 1..];
  }

  lemma {:induction false} TimeoutsWakeDue(st: State, i: nat)
    requires Core(st) && i <= |st.waiting|
    ensures RunTimeouts(st, i).Ok? && DueWoken(st, RunTimeouts(st, i).state, i)
    decreases |st.waiting| - i
  {
    hide Core, Expire, RemoveAt, Due, TimedOutThread;
    if i == |st.waiting| {
      NobodyDue(st);
    } else {
      var t := st.waiting[i];
      if t !in st.threads {
        var st1 := st.(waiting := RemoveAt(st.waiting, i));
        CoreIgnores(st, st1);
        TimeoutsWakeDue(st1, i);
        forall u {
          DueAfter(st, st1, i, u);
        }
      } else if st.threads[t].timeoutAt <= st.now {
        ExpireEffect(st, t);
        ExpireKeeps(st, t);
        var st0 := Expire(st, t).state;
        var st1 := st0.(waiting := RemoveAt(st.waiting, i));
        CoreIgnores(st0, st1);
        TimeoutsWakeDue(st1, i);
        OneWoken(st, st1, RunTimeouts(st1, i).state, i);
      } else {
        TimeoutsWakeDue(st, i + 1);
        forall u {
          DueNext(st, i, u);
        }
      }
    }
  }

  lemma NobodyDue(st: State)
    ensures DueWoken(st, st, |st.waiting|)
  {
    assert st.waiting[|st.waiting|..] == [];
  }

  lemma OneWoken(st: State, st1: State, st2: State, i: nat)
    requires i < |st.waiting| && st.waiting[i] in st.threads && st.threads[st.waiting[i]].timeoutAt <= st.now
    requires var t := st.waiting[i];
             && st1.threads == st.threads[t := TimedOutThread(st.threads[t])] && st1.ready == st.ready + [t]
             && st1.waiting == RemoveAt(st.waiting, i) && st1.now == st.now && st1.nextTid == st.nextTid
    requires DueWoken(st1, st2, i)
    ensures DueWoken(st, st2, i)
  {
    hide Due;
    forall u {
      DueAfter(st, st1, i, u);
    }
  }

  /** When the clock moves, an exited thread becomes ready exactly if it has an entry in the waiting queue
      and its time has come; if it is ready already it stays so. */
  lemma ElapseRevives(st: State, tick: Tick)
    requires Core(st) && EndsQueued(st)
    ensures ElapseTime(st, tick).Ok? ==>
              var st' := ElapseTime(st, tick).state;
              && Settled(st, st') && st'.threads.Keys == st.threads.Keys
              && forall t | t in st.threads && st.threads[t].life != Alive ::
                   && st'.threads[t].life == st.threads[t].life
                   && (Revived(st'.threads[t])
                       <==> Revived(st.threads[t]) || (t in st.waiting && st.threads[t].timeoutAt <= st.now + tick.elapsed))
  {
    hide Core, RunTimers, FireInterrupts, RunTimeouts, Calmer, SameNames, KeepsReady, Wakes, Settled, DueWoken;
    var st0 := st.(now := st.now + tick.elapsed);
    CoreIgnores(st, st0);
    TimersWoke(st0, st0.timers);
    TimersKeep(st0, st0.timers);
    var r1 := RunTimers(st0, st0.timers);
    if r1.Ok? {
      InterruptsWoke(r1.state, tick.fired);
      InterruptsSettle(r1.state, tick.fired);
      var r2 := FireInterrupts(r1.state, tick.fired);
      if r2.Ok? {
        WokeTrans(st0, r1.state, r2);
        WakesSettled(st0, r2.state);
        EndedUntouched(st0, r2.state);
        TimeoutsWakeDue(r2.state, 0);
        DueSettled(st0, r2.state, RunTimeouts(r2.state, 0).state);
        ClockSettled(st, st0, RunTimeouts(r2.state, 0).state);
      }
    }
  }

  /** Waking others leaves exited threads as they were. */
  lemma EndedUntouched(st: State, st': State)
    requires Core(st) && Wakes(st, st')
    ensures st'.waiting == st.waiting && st'.now == st.now && st'.threads.Keys == st.threads.Keys
    ensures forall t | t in st.threads && st.threads[t].life != Alive :: st'.threads[t] == st.threads[t]
  {
    forall t | t in st.threads
      ensures ThreadOk(st.threads[t])
    {
    }
    EndedAwake(st);
  }

  lemma DueSettled(st: State, st1: State, st2: State)
    requires Core(st1) && Settled(st, st1) && DueWoken(st1, st2, 0)
    requires st1.waiting == st.waiting && st1.now == st.now && st1.threads.Keys == st.threads.Keys
    requires forall t | t in st.threads && st.threads[t].life != Alive :: st1.threads[t] == st.threads[t]
    ensures Settled(st, st2) && st2.threads.Keys == st.threads.Keys
    ensures forall t | t in st.threads && st.threads[t].life != Alive ::
              && st2.threads[t].life == st.threads[t].life
              && (Revived(st2.threads[t]) <==> Revived(st.threads[t]) || (t in st.waiting && st.threads[t].timeoutAt <= st.now))
  {
    assert st1.waiting[0..] == st.waiting;
    forall t | t in st1.threads
      ensures t < st1.nextTid
    {
    }
    hide Core;
    SameDanglingHaunted(st1, st2);
  }

  /** The clock is not part of what is kept. */
  lemma ClockSettled(st: State, st0: State, st': State)
    requires st0.ready == st.ready && st0.threads == st.threads && Settled(st0, st')
    ensures Settled(st, st')
  {
    SameDanglingHaunted(st, st0);
  }

  // ---------------------------------------------------------------------------
  // Dropping the last reference
  // ---------------------------------------------------------------------------

  /** Without leftover entries before, dropping the last reference to an exited thread leaves one behind
      exactly if the thread is in the ready queue, that is, if it was revived. */
  lemma DropHaunts(st: State, u: Tid)
    requires Core(st) && EndsQueued(st) && u in st.threads && st.threads[u].life != Alive
    ensures EndsQueued(Destroy(st, u))
    ensures Haunted(Destroy(st, u)) <==> Haunted(st) || u in st.ready
    ensures u in st.ready <==> Revived(st.threads[u])
  {
    var st' := Destroy(st, u);
    if u in st.ready {
      assert Dangles(st', u);
    }
    if Haunted(st) {
      var w :| Dangles(st, w);
      assert Dangles(st', w);
    }
    if Haunted(st') {
      var w :| Dangles(st', w);
      assert w != u ==> Dangles(st, w);
    }
  }

  lemma ReleaseSettled(st: State, t: Tid, last: bool)
    requires Inv(st) && EndsQueued(st)
    ensures Settled(st, Release(st, t, last))
  {
    if t in st.threads && st.threads[t].status == Stopped {
      assert ThreadOk(st.threads[t]);
      if last {
        hide Core, NoLostWakeup;
        DropHaunts(st, t);
      } else {
        SameDanglingHaunted(st, Release(st, t, last));
      }
    }
  }

  /** Of the given threads, one that a leftover timeout made ready has nothing that keeps it. */
  ghost predicate AnyRevived(st: State, us: seq<Tid>) {
    exists u | u in us :: Abandoned(st, u) && Revived(st.threads[u])
  }

  lemma OneDropHaunts(st: State, u: Tid)
    requires Inv(st) && EndsQueued(st)
    ensures EndsQueued(Drop(st, u))
    ensures Haunted(Drop(st, u)) <==> Haunted(st) || (Abandoned(st, u) && Revived(st.threads[u]))
  {
    hide Core, NoLostWakeup, Destroy, Haunted, EndsQueued;
    if Abandoned(st, u) {
      DropHaunts(st, u);
    }
  }

  /** Dropping one thread does not matter to the others. */
  lemma OthersRevived(st: State, u: Tid, us: seq<Tid>)
    ensures (Abandoned(st, u) && Revived(st.threads[u])) || AnyRevived(Drop(st, u), us) <==> AnyRevived(st, [u] + us)
  {
    var st1 := Drop(st, u);
    forall w | w != u
      ensures Abandoned(st1, w) <==> Abandoned(st, w)
      ensures Abandoned(st, w) ==> st1.threads[w] == st.threads[w]
    {
    }
    hide Abandoned;
    if AnyRevived(st, [u] + us) {
      var w :| w in [u] + us && Abandoned(st, w) && Revived(st.threads[w]);
      if w != u {
        assert w in us && Abandoned(st1, w);
      }
    }
    if AnyRevived(st1, us) {
      var w :| w in us && Abandoned(st1, w) && Revived(st1.threads[w]);
      assert w in [u] + us;
      StillAbandoned(st, u, w);
    }
    assert u in [u] + us;
  }

  lemma StillAbandoned(st: State, u: Tid, w: Tid)
    requires Abandoned(Drop(st, u), w)
    ensures Abandoned(st, w) && Drop(st, u).threads[w] == st.threads[w]
  {
  }

  lemma {:induction false} DropAllHaunts(st: State, us: seq<Tid>)
    requires Inv(st) && EndsQueued(st)
    ensures EndsQueued(DropAll(st, us))
    ensures Haunted(DropAll(st, us)) <==> Haunted(st) || AnyRevived(st, us)
    decreases |us|
  {
    hide Inv, Drop, Haunted, EndsQueued, AnyRevived, Abandoned;
    if us == [] {
      NoneRevived(st);
    } else {
      OneDropHaunts(st, us[0]);
      DropSound(st, us[0]);
      OthersRevived(st, us[0], us[1..]);
      assert [us[0]] + us[1..] == us;
      DropAllHaunts(Drop(st, us[0]), us[1..]);
    }
  }

  lemma NoneRevived(st: State)
    ensures !AnyRevived(st, [])
  {
  }

  // ---------------------------------------------------------------------------
  // Calls
  // ---------------------------------------------------------------------------

  /** A live thread leaves the ready queue, and nothing else happens to it or to others that matters here. */
  lemma LeavesQueue(st: State, st': State, t: Tid, ready: seq<Tid>)
    requires EndsQueued(st) && t in st.threads && st.threads[t].life == Alive
    requires st'.threads.Keys == st.threads.Keys && st'.nextTid == st.nextTid
    requires forall u | u in st.threads && u != t :: st'.threads[u] == st.threads[u]
    requires st'.threads[t].life == Alive || st'.threads[t].status == Stopped
    requires st'.ready == ready && forall u :: u in ready ==> u in st.ready
    requires forall u :: u in st.ready && u != t ==> u in ready
    ensures Settled(st, st')
  {
    SameDanglingHaunted(st, st');
  }

  lemma WaitSettled(st: State, t: Tid, handles: seq<Handle>, all: bool, timeout: int)
    requires EndsQueued(st) && t in st.threads && st.threads[t].status == Ready && st.threads[t].life == Alive
    ensures Wait(st, t, handles, all, timeout).Ok? ==> Settled(st, Wait(st, t, handles, all, timeout).state)
  {
    hide Scan, Register, WaitHandles, Ids;
    var r := Wait(st, t, handles, all, timeout);
    if r.Ok? {
      var os := Ids(WaitHandles(handles));
      var th := BeginWait(st, st.threads[t], os, all, timeout);
      var st0 := SetThread(st, t, th);
      RegisterClosed(st0, os, t);
      var st1 := Register(st0, os, t);
      ScanOnly(st1, t, 0, all);
      WaitEndSettled(st, st1, Scan(st1, t, 0, all).state, t, all);
    }
  }

  lemma WaitEndSettled(st: State, st1: State, st2: State, t: Tid, all: bool)
    requires EndsQueued(st) && t in st.threads && st.threads[t].life == Alive
    requires t in st1.threads && st1.threads == st.threads[t := st1.threads[t]] && st1.threads[t].life == Alive
    requires st1.ready == st.ready && st1.nextTid == st.nextTid && OnlyOf(st1, st2, t)
    ensures Settled(st, EndWait(st2, t, all))
  {
    var st3 := EndWait(st2, t, all);
    assert st3.threads.Keys == st.threads.Keys;
    LeavesQueue(st, st3, t, st3.ready);
  }

  lemma ExitSettled(st: State, t: Tid, held: seq<Oid>)
    requires Inv(st) && EndsQueued(st) && t in st.threads
    ensures ExitThread(st, t, held).Ok? ==> Settled(st, ExitThread(st, t, held).state)
  {
    hide Core, NoLostWakeup, SameNames, KeepsReady, ReleaseOwned, OnResourceReady, UnregisterAll, Wakes, Quiet, Settled, GaveUp;
    SettledSelf(st);
    ReleaseOwnedSettles(st, held, t);
    SettlesSound(st, ReleaseOwned(st, held, t));
    ReleaseOwnedWoke(st, held, t);
    if st.threads[t].status != Stopped && ExitThread(st, t, held).Ok? {
      var st1 := ReleaseOwned(st, held, t).state;
      WakesSettled(st, st1);
      SettledQueued(st, st1);
      SubjectExists(st1, t);
      var th := Ended(st1.threads[t]);
      var ready := RemoveAll(st1.ready, t);
      EndedOk(th);
      GiveUpKeeps(st1, t, th, ready);
      var st2 := UnregisterAll(st1, st1.threads[t].waitList, t).state;
      var st3 := SetThread(st2, t, th).(ready := ready);
      assert st3.ready == RemoveAll(st2.ready, t);
      StoppedSettled(st1, st3, t, th, ready);
      SettledQueued(st1, st3);
      ReadyWoke(st3, th.subject);
      WakesSettled(st3, OnResourceReady(st3, th.subject).state);
      SettledTrans(st1, st3, OnResourceReady(st3, th.subject).state);
      SettledTrans(st, st1, OnResourceReady(st3, th.subject).state);
    }
  }

  lemma SettledSelf(st: State)
    requires EndsQueued(st)
    ensures Settled(st, st)
  {
  }

  lemma SettledQueued(st: State, st': State)
    requires Settled(st, st')
    ensures EndsQueued(st')
  {
  }

  lemma EndedOk(th: Thread)
    requires th.status == Stopped && th.phase == Idle && th.waitList == [] && th.life != Alive
    ensures ThreadOk(th)
  {
  }

  lemma StoppedSettled(st: State, st': State, t: Tid, th: Thread, ready: seq<Tid>)
    requires EndsQueued(st) && t in st.threads && GaveUp(st, st', t, th, ready) && th.status == Stopped
    requires ready == RemoveAll(st.ready, t)
    ensures Settled(st, st')
  {
    assert st'.nextTid == st.nextTid;
    SameDanglingHaunted(st, st');
  }

  /** Ending the victims drops a revived thread with the process of one of them. */
  ghost predicate ExitsDrop(st: State, victims: seq<Victim>, me: Tid)
    decreases |victims|
  {
    victims != [] &&
    var v := victims[0];
    if v.tid !in st.threads || st.threads[v.tid].life == Released then ExitsDrop(st, victims[1..], me)
    else
      var r := ExitThread(st, v.tid, v.held);
      r.Ok? &&
      if v.tid == me then ExitsDrop(r.state, victims[1..], me)
      else AnyRevived(Release(r.state, v.tid, v.last), v.closed) || ExitsDrop(Discharge(r.state, v), victims[1..], me)
  }

  lemma DischargeHaunts(st: State, v: Victim)
    requires Inv(st) && EndsQueued(st)
    ensures EndsQueued(Discharge(st, v))
    ensures Haunted(Discharge(st, v)) <==> Haunted(st) || AnyRevived(Release(st, v.tid, v.last), v.closed)
  {
    hide Inv, Release, DropAll, Haunted, EndsQueued, AnyRevived;
    ReleaseSettled(st, v.tid, v.last);
    ReleaseSound(st, v.tid, v.last);
    DropAllHaunts(Release(st, v.tid, v.last), v.closed);
  }

  lemma {:induction false} ExitsHaunt(st: State, victims: seq<Victim>, me: Tid)
    requires Inv(st) && EndsQueued(st)
    ensures var r := ExitThreads(st, victims, me);
            r.Ok? ==> EndsQueued(r.state) && (Haunted(r.state) <==> Haunted(st) || ExitsDrop(st, victims, me))
    decreases |victims|
  {
    hide Inv, ExitThread, Release, Discharge, Haunted, EndsQueued, AnyRevived;
    if victims != [] {
      var v := victims[0];
      if v.tid !in st.threads || st.threads[v.tid].life == Released {
        ExitsHaunt(st, victims[1..], me);
      } else {
        ExitSound(st, v.tid, v.held);
        ExitSettled(st, v.tid, v.held);
        var r := ExitThread(st, v.tid, v.held);
        if r.Ok? {
          if v.tid != me {
            DischargeSound(r.state, v);
            DischargeHaunts(r.state, v);
          }
          ExitsHaunt(if v.tid == me then r.state else Discharge(r.state, v), victims[1..], me);
        }
      }
    }
  }

  lemma RescheduleSettled(st: State, tick: Tick)
    requires Inv(st) && EndsQueued(st)
    ensures Reschedule(st, tick).Ok? ==> Settled(st, Reschedule(st, tick).state)
  {
    hide Core, NoLostWakeup, ElapseTime;
    ElapseRevives(st, tick);
    if ElapseTime(st, tick).Ok? {
      var st1 := ElapseTime(st, tick).state;
      SameDanglingHaunted(st1, st1.(ready := Rotate(st1.ready)));
    }
  }

  /** The call drops the last reference to an exited thread that was revived: it closes the last handle to
      it, or ends a process that has that handle. */
  ghost predicate DropsRevived(st: State, t: Tid, call: Call) {
    || (call.CloseThread? && Abandoned(st, call.tid) && Revived(st.threads[call.tid]))
    || (call.Exit? && ExitsDrop(st, call.victims, t))
  }

  lemma ArbitrationSettled(st: State, t: Tid, tick: Tick)
    requires Inv(st) && EndsQueued(st) && t in st.threads && st.threads[t].status == Ready && st.threads[t].life == Alive
    ensures Perform(st, t, AwaitArbitration(tick)).Ok? ==> Settled(st, Perform(st, t, AwaitArbitration(tick)).state)
  {
    hide Core, NoLostWakeup, Settled, Reschedule, OnResourceReady, Wait, ExitThreads, ReleaseSemaphoreOn, SpawnThread, AddSubject;
    var th := st.threads[t].(timeoutAt := NO_TIMEOUT, result := RESULT_OK, phase := Idle, status := WaitingForArbitration);
    var st1 := SetThread(st, t, th).(ready := RemoveAll(st.ready, t));
    RecordOf(st, t);
    PauseSound(st, t, th, st.waiting);
    LeavesQueue(st, st1, t, RemoveAll(st.ready, t));
    assert st1.waiting == st.waiting;
    SettledQueued(st, st1);
    RescheduleSettled(st1, tick);
    if Reschedule(st1, tick).Ok? {
      SettledTrans(st, st1, Reschedule(st1, tick).state);
    }
  }

  lemma CreateSettled(st: State, t: Tid, call: Call)
    requires Inv(st) && EndsQueued(st) && t in st.threads
    requires call.CreateEvent? || call.CreateSemaphore? || call.CreateMutex? || call.CreateTimer? || call.CreateThread?
             || call.GetSystemTick? || call.Preempted?
    ensures Perform(st, t, call).Ok? ==> Settled(st, Perform(st, t, call).state)
  {
    hide OnResourceReady, Wait, ExitThreads, Reschedule, ReleaseSemaphoreOn, ReleaseMutex, Linked, ThreadsOk, SubjectsOk, NoLostWakeup;
    var r := Perform(st, t, call);
    if r.Ok? {
      SameDanglingHaunted(st, r.state);
    }
  }

  /** A call leaves an entry of a gone thread behind exactly if it drops a revived thread. */
  lemma PerformHaunts(st: State, t: Tid, call: Call)
    requires Inv(st) && EndsQueued(st) && t in st.threads && st.threads[t].status == Ready && st.threads[t].life == Alive
    ensures var r := Perform(st, t, call);
            r.Ok? ==> EndsQueued(r.state) && (Haunted(r.state) <==> Haunted(st) || DropsRevived(st, t, call))
  {
    var r := Perform(st, t, call);
    if call.SignalEvent? || call.ClearEvent? || call.ReleaseSemaphore? || call.UnlockMutex? || call.CloseMutex? || call.SetTimer? {
      ObjectCallWoke(st, t, call);
      hide Perform, Wakes;
      if r.Ok? {
        WakesSettled(st, r.state);
      }
    } else if call.WaitSynchronization? {
      hide Inv, Wait;
      WaitSettled(st, t, call.handles, call.all, call.timeout);
    } else if call.Exit? {
      hide Inv, ExitThreads, ExitsDrop, Haunted, EndsQueued;
      ExitsHaunt(st, call.victims, t);
    } else if call.AwaitArbitration? {
      ArbitrationSettled(st, t, call.first);
    } else if call.CloseThread? {
      CloseHaunts(st, t, call.tid);
    } else if call.SleepThread? {
      SleepSettled(st, t, call.duration);
    } else {
      hide Inv, Perform;
      CreateSettled(st, t, call);
    }
  }

  lemma CloseHaunts(st: State, t: Tid, u: Tid)
    requires Inv(st) && EndsQueued(st) && t in st.threads
    ensures var r := Perform(st, t, CloseThread(u));
            r.Ok? ==> EndsQueued(r.state) && (Haunted(r.state) <==> Haunted(st) || DropsRevived(st, t, CloseThread(u)))
  {
    hide Inv, Drop, Haunted, EndsQueued, OnResourceReady, Wait, ExitThreads, Reschedule, ReleaseSemaphoreOn;
    OneDropHaunts(st, u);
  }

  lemma SleepSettled(st: State, t: Tid, duration: int)
    requires EndsQueued(st) && t in st.threads && st.threads[t].life == Alive
    ensures var r := Perform(st, t, SleepThread(duration));
            r.Ok? ==> Settled(st, r.state)
  {
    var th := st.threads[t].(timeoutAt := (st.now + duration) % U64, status := WaitingForTimeout);
    var st' := SetThread(st, t, th).(ready := RemoveAll(st.ready, t), waiting := st.waiting + [t]);
    hide OnResourceReady, Wait, ExitThreads, Reschedule, ReleaseSemaphoreOn, ReleaseMutex, SpawnThread, AddSubject;
    LeavesQueue(st, st', t, RemoveAll(st.ready, t));
  }

  // ---------------------------------------------------------------------------
  // Turns and runs
  // ---------------------------------------------------------------------------

  /** In this turn the last reference to an exited thread goes that was revived: by what the running thread
      asks for, or at the end of the turn. */
  ghost predicate DropsAt(st: State, turn: Turn) {
    || (&& st.ready != [] && st.ready[0] in st.threads && st.threads[st.ready[0]].life == Alive
        && ElapseTime(st, turn.ran).Ok? && DropsRevived(ElapseTime(st, turn.ran).state, st.ready[0], turn.call))
    || (Serve(st, turn).Ok? && AnyRevived(Serve(st, turn).state, turn.dropped))
  }

  lemma CallHaunts(st: State, t: Tid, turn: Turn)
    requires Inv(st) && EndsQueued(st) && t in st.threads && st.threads[t].status == Ready && st.threads[t].life == Alive
    ensures var r := SystemCall(st, t, turn.call, turn.tick);
            r.Ok? ==>
              && EndsQueued(Release(r.state, t, turn.last))
              && (Haunted(Release(r.state, t, turn.last)) <==> Haunted(st) || DropsRevived(st, t, turn.call))
  {
    hide Inv, Perform, Reschedule, Release, Haunted, EndsQueued, DropsRevived;
    PerformSound(st, t, turn.call);
    PerformHaunts(st, t, turn.call);
    if Perform(st, t, turn.call).Ok? {
      var st1 := Perform(st, t, turn.call).state;
      RescheduleSettled(st1, turn.tick);
      RescheduleSound(st1, turn.tick);
      var r := SystemCall(st, t, turn.call, turn.tick);
      if r.Ok? {
        ReleaseSettled(r.state, t, turn.last);
      }
    }
  }

  /** The turn up to the drops at its end. */
  lemma ServeHaunts(st: State, turn: Turn)
    requires Inv(st) && EndsQueued(st)
    ensures Serve(st, turn).Ok? ==>
              && EndsQueued(Serve(st, turn).state)
              && (Haunted(Serve(st, turn).state)
                  <==> || Haunted(st)
                       || (&& st.ready != [] && st.ready[0] in st.threads && st.threads[st.ready[0]].life == Alive
                           && ElapseTime(st, turn.ran).Ok?
                           && DropsRevived(ElapseTime(st, turn.ran).state, st.ready[0], turn.call)))
  {
    hide Inv, ElapseTime, SystemCall, Release, EndsQueued, Haunted, DropsRevived;
    if st.ready != [] && st.ready[0] in st.threads {
      FrontStaysReady(st, turn.ran);
    }
    ElapseSound(st, turn.ran);
    ElapseHaunts(st, turn.ran);
    if st.ready != [] && st.ready[0] in st.threads && ElapseTime(st, turn.ran).Ok? {
      if st.threads[st.ready[0]].life == Alive {
        CallHaunts(ElapseTime(st, turn.ran).state, st.ready[0], turn);
      }
    }
  }

  /** A turn of the dispatcher leaves an entry of a gone thread in the ready queue exactly if there was one
      before or if the turn drops a revived thread; it trips over one exactly if that is at the front. */
  lemma DispatchHaunts(st: State, turn: Turn)
    requires Inv(st) && EndsQueued(st)
    ensures Dispatch(st, turn).Ok? ==>
              && EndsQueued(Dispatch(st, turn).state)
              && (Haunted(Dispatch(st, turn).state) <==> Haunted(st) || DropsAt(st, turn))
    ensures Dispatch(st, turn) == Failed(ReadyThreadGone) ==> Haunted(st)
    ensures st.ready != [] && st.ready[0] !in st.threads <==> Dispatch(st, turn) == Failed(ReadyThreadGone)
  {
    if st.ready != [] && st.ready[0] !in st.threads {
      assert Dangles(st, st.ready[0]);
    }
    hide Inv, ElapseTime, Serve, DropAll, EndsQueued, Haunted, DropsRevived, AnyRevived;
    DispatchSound(st, turn);
    ServeSound(st, turn);
    ServeHaunts(st, turn);
    if Serve(st, turn).Ok? {
      DropAllHaunts(Serve(st, turn).state, turn.dropped);
    }
  }

  lemma ElapseHaunts(st: State, tick: Tick)
    requires Inv(st) && EndsQueued(st)
    ensures ElapseTime(st, tick).Ok? ==>
              EndsQueued(ElapseTime(st, tick).state) && (Haunted(ElapseTime(st, tick).state) <==> Haunted(st))
  {
    hide Core, NoLostWakeup, ElapseTime, EndsQueued, Haunted;
    ElapseRevives(st, tick);
  }

  /** Turn k of the run drops a revived thread. */
  ghost predicate DropsInRun(st: State, turns: seq<Turn>, k: nat) {
    k < |turns| && Run(st, turns[..k]).Ok? && DropsAt(Run(st, turns[..k]).state, turns[k])
  }

  /** The same turn, counted from after the first one. */
  lemma DropsLater(st: State, turns: seq<Turn>, k: nat)
    requires turns != [] && Dispatch(st, turns[0]).Ok?
    ensures DropsInRun(st, turns, k + 1) <==> DropsInRun(Dispatch(st, turns[0]).state, turns[1..], k)
  {
    hide Dispatch, DropsAt;
    if k + 1 < |turns| {
      assert turns[..k + 1][1..] == turns[1..][..k];
    }
  }

  lemma {:induction false} RunHaunts(st: State, turns: seq<Turn>)
    requires Inv(st) && EndsQueued(st)
    ensures Run(st, turns).Ok? ==>
              && Inv(Run(st, turns).state) && EndsQueued(Run(st, turns).state)
              && (Haunted(Run(st, turns).state) <==> Haunted(st) || exists k: nat :: DropsInRun(st, turns, k))
    ensures Run(st, turns) == Failed(ReadyThreadGone) ==> Haunted(st) || exists k: nat :: DropsInRun(st, turns, k)
    decreases |turns|
  {
    hide Inv, Dispatch, Haunted, EndsQueued, DropsInRun, DropsAt;
    if turns == [] {
      NoTurns(st);
    } else {
      DispatchSound(st, turns[0]);
      DispatchHaunts(st, turns[0]);
      FirstTurn(st, turns);
      if Dispatch(st, turns[0]).Ok? {
        var st1 := Dispatch(st, turns[0]).state;
        RunHaunts(st1, turns[1..]);
        ShiftDrops(st, turns);
      }
    }
  }

  lemma NoTurns(st: State)
    ensures forall k: nat :: !DropsInRun(st, [], k)
  {
  }

  lemma FirstTurn(st: State, turns: seq<Turn>)
    requires turns != []
    ensures DropsInRun(st, turns, 0) <==> DropsAt(st, turns[0])
  {
    hide DropsAt;
    assert turns[..0] == [];
  }

  lemma ShiftDrops(st: State, turns: seq<Turn>)
    requires turns != [] && Dispatch(st, turns[0]).Ok?
    ensures (exists k: nat :: DropsInRun(st, turns, k))
            <==> DropsInRun(st, turns, 0) || exists k: nat :: DropsInRun(Dispatch(st, turns[0]).state, turns[1..], k)
  {
    hide Dispatch, DropsInRun;
    if k: nat :| DropsInRun(st, turns, k) {
      if k > 0 {
        DropsLater(st, turns, k - 1);
      }
    }
    if k: nat :| DropsInRun(Dispatch(st, turns[0]).state, turns[1..], k) {
      DropsLater(st, turns, k);
    }
  }

  /** Over every run from boot: some entry of the ready queue is of a thread that is gone exactly if some
      turn dropped the last reference to an exited thread after a leftover timeout had made it ready
      again; and the dispatcher only ever trips over a gone thread after such a turn. */
  lemma GoneEntriesExactly(turns: seq<Turn>)
    ensures Run(Boot(), turns).Ok? ==>
              (Haunted(Run(Boot(), turns).state) <==> exists k: nat :: DropsInRun(Boot(), turns, k))
    ensures Run(Boot(), turns) == Failed(ReadyThreadGone) ==> exists k: nat :: DropsInRun(Boot(), turns, k)
  {
    BootSound();
    assert Boot().threads.Keys == {0} && Boot().ready == [0] && Boot().nextTid == 1;
    assert !Haunted(Boot()) && EndsQueued(Boot());
    hide Inv, Boot, Haunted, EndsQueued, DropsInRun;
    RunHaunts(Boot(), turns);
  }

  // ---------------------------------------------------------------------------
  // A run that gets there
  // ---------------------------------------------------------------------------

  const NOW: Tick := Tick(0, [])

  function Doing(call: Call): Turn {
    Turn(NOW, call, NOW, false, false, [])
  }

  /** Thread 1 sleeps for a while, is ended by thread 0, and its time comes before thread 0 closes the
      last handle to it. */
  function FatalTurns(): seq<Turn> {
    [Doing(CreateThread), Doing(SleepThread(10)), Doing(Exit([Victim(1, [], false, [])], true)),
     Turn(Tick(10, []), CloseThread(1), NOW, false, false, []), Doing(Preempted)]
  }

  function Newborn(subject: Oid): Thread {
    Thread(Ready, [], false, 0, None, NO_TIMEOUT, RESULT_OK, subject, [], false, [], Idle, Alive)
  }

  const ENDS: map<Oid, Subject> := map[0 := Subject([], ThreadEnd(0), 0, 0), 1 := Subject([], ThreadEnd(1), 0, 0)]

  /** The states of that run. */
  function Created(): State {
    State(map[0 := Newborn(0), 1 := Newborn(1)], ENDS, [1, 0], [], [], 0, 2, 2)
  }

  function Dozing(): State {
    State(map[0 := Newborn(0), 1 := Newborn(1).(timeoutAt := 10, status := WaitingForTimeout)], ENDS, [0], [1], [], 0, 2, 2)
  }

  function Killed(): State {
    State(map[0 := Newborn(0), 1 := Newborn(1).(timeoutAt := 10, status := Stopped, life := Released)], ENDS, [0], [1], [], 0, 2, 2)
  }

  function Dropped(): State {
    State(map[0 := Newborn(0)], ENDS, [1, 0], [], [], 10, 2, 2)
  }

  /** Nothing is due, and no timers or interrupts. */
  lemma QuietClock(st: State, n: nat)
    requires st.timers == [] && |st.waiting| <= 1
    requires forall t | t in st.waiting :: t in st.threads && st.now + n < st.threads[t].timeoutAt
    ensures ElapseTime(st, Tick(n, [])) == Ok(st.(now := st.now + n))
  {
    var st0 := st.(now := st.now + n);
    if |st.waiting| == 1 {
      assert st.waiting[0] in st.waiting;
      assert RunTimeouts(st0, 1) == Ok(st0);
    }
  }

  lemma QuietReschedule(st: State)
    requires st.timers == [] && |st.waiting| <= 1
    requires forall t | t in st.waiting :: t in st.threads && st.now < st.threads[t].timeoutAt
    ensures Reschedule(st, NOW) == Ok(st.(ready := Rotate(st.ready)))
  {
    hide ElapseTime, Rotate;
    QuietClock(st, 0);
  }

  /** A turn put together from its parts. */
  lemma TurnIs(st: State, turn: Turn, t: Tid, st1: State, st2: State, st3: State)
    requires st.ready != [] && st.ready[0] == t && t in st.threads && st.threads[t].waitList == []
    requires st.threads[t].status == Ready && st.threads[t].life == Alive
    requires ElapseTime(st, turn.ran) == Ok(st1) && t in st1.threads && Perform(st1, t, turn.call) == Ok(st2)
    requires if Reschedules(st2, t, turn.call) then Reschedule(st2, turn.tick) == Ok(st3) else st3 == st2
    requires (t in st3.threads ==> st3.threads[t].status != Stopped) && turn.dropped == []
    ensures Dispatch(st, turn) == Ok(st3)
  {
    hide ElapseTime, Perform, Reschedule, Reschedules;
  }

  /** What the calls of the run do. */
  lemma CallsAre(st: State, t: Tid, n: int, victims: seq<Victim>, u: Tid)
    requires t in st.threads
    ensures Perform(st, t, CreateThread) == Ok(SpawnThread(st))
    ensures Perform(st, t, SleepThread(n))
            == Ok(SetThread(st, t, st.threads[t].(timeoutAt := (st.now + n) % U64, status := WaitingForTimeout))
                  .(ready := RemoveAll(st.ready, t), waiting := st.waiting + [t]))
    ensures Perform(st, t, Exit(victims, true)) == ExitThreads(st, victims, t)
    ensures Perform(st, t, CloseThread(u)) == Ok(Drop(st, u))
  {
    hide OnResourceReady, Wait, ExitThreads, Reschedule, ReleaseSemaphoreOn, SpawnThread, AddSubject, Drop, RemoveAll;
  }

  lemma CreateTurn()
    ensures Dispatch(Boot(), Doing(CreateThread)) == Ok(Created())
  {
    hide ElapseTime, Reschedule, Perform, Dispatch;
    var b := State(map[0 := Newborn(0)], map[0 := Subject([], ThreadEnd(0), 0, 0)], [0], [], [], 0, 1, 1);
    var st1 := Created().(ready := [0, 1]);
    assert Boot() == b && SpawnThread(b) == st1;
    assert Rotate([0, 1]) == [1, 0];
    QuietClock(b, 0);
    CallsAre(b, 0, 0, [], 0);
    QuietReschedule(st1);
    TurnIs(b, Doing(CreateThread), 0, b, st1, Created());
  }

  lemma SleepCall()
    ensures Perform(Created(), 1, SleepThread(10)) == Ok(Dozing())
  {
    hide Perform;
    var s := Created();
    assert RemoveAll([1, 0], 1) == [0];
    assert s.threads[1 := Dozing().threads[1]] == Dozing().threads && [] + [1] == [1];
    CallsAre(s, 1, 10, [], 0);
  }

  lemma SleepTurn()
    ensures Dispatch(Created(), Doing(SleepThread(10))) == Ok(Dozing())
  {
    hide ElapseTime, Reschedule, Perform, Dispatch;
    var s := Created();
    QuietClock(s, 0);
    SleepCall();
    TurnIs(s, Doing(SleepThread(10)), 1, s, Dozing(), Dozing());
  }

  /** Ending a thread that holds and awaits nothing and that nobody waits for. */
  lemma PlainExit(st: State, t: Tid)
    requires t in st.threads && st.threads[t].status != Stopped && st.threads[t].waitList == []
    requires st.threads[t].subject in st.subjects && st.subjects[st.threads[t].subject].observers == []
    ensures ExitThread(st, t, []) == Ok(SetThread(st, t, Ended(st.threads[t])).(ready := RemoveAll(st.ready, t)))
  {
    hide RemoveAll;
  }

  lemma OneVictim(st: State, v: Victim, me: Tid, st1: State)
    requires v.tid in st.threads && st.threads[v.tid].life != Released && v.tid != me
    requires ExitThread(st, v.tid, v.held) == Ok(st1) && v.closed == []
    ensures ExitThreads(st, [v], me) == Ok(Release(st1, v.tid, v.last))
  {
    hide ExitThread, Release;
    assert [v][1..] == [];
  }

  lemma KillTurn()
    ensures Dispatch(Dozing(), Doing(Exit([Victim(1, [], false, [])], true))) == Ok(Killed())
  {
    hide ElapseTime, Reschedule, Perform, Dispatch, ExitThread, ExitThreads;
    var s := Dozing();
    var v := Victim(1, [], false, []);
    var st1 := Killed().(threads := s.threads[1 := Ended(s.threads[1])]);
    QuietClock(s, 0);
    assert RemoveAll([0], 1) == [0];
    PlainExit(s, 1);
    OneVictim(s, v, 0, st1);
    assert st1.threads[1 := Killed().threads[1]] == Killed().threads;
    assert Release(st1, 1, false) == Killed();
    CallsAre(s, 0, 0, [v], 0);
    QuietReschedule(Killed());
    assert Rotate([0]) == [0];
    TurnIs(s, Doing(Exit([v], true)), 0, s, Killed(), Killed());
  }

  /** The leftover entry of thread 1 comes due. */
  lemma LeftoverDue()
    ensures ElapseTime(Killed(), Tick(10, []))
            == Ok(Killed().(now := 10, threads := Killed().threads[1 := Killed().threads[1].(status := Ready)],
                            ready := [0, 1], waiting := []))
  {
    var st0 := Killed().(now := 10);
    var st1 := st0.(threads := st0.threads[1 := st0.threads[1].(status := Ready)], ready := [0, 1]);
    assert Expire(st0, 1) == Ok(st1);
    assert RemoveAt([1], 0) == [];
    assert RunTimeouts(st1.(waiting := []), 0) == Ok(st1.(waiting := []));
    assert RunTimeouts(st0, 0) == Ok(st1.(waiting := []));
  }

  lemma DropTurn()
    ensures Dispatch(Killed(), Turn(Tick(10, []), CloseThread(1), NOW, false, false, [])) == Ok(Dropped())
    ensures DropsAt(Killed(), Turn(Tick(10, []), CloseThread(1), NOW, false, false, []))
  {
    hide ElapseTime, Reschedule, Perform, Dispatch;
    LeftoverDue();
    var st1 := ElapseTime(Killed(), Tick(10, [])).state;
    var st2 := Dropped().(ready := [0, 1]);
    assert Destroy(st1, 1).threads == map[0 := Newborn(0)];
    assert Destroy(st1, 1) == st2;
    CallsAre(st1, 0, 0, [], 1);
    QuietReschedule(st2);
    assert Rotate([0, 1]) == [1, 0];
    TurnIs(Killed(), Turn(Tick(10, []), CloseThread(1), NOW, false, false, []), 0, st1, st2, Dropped());
  }

  /** The dispatcher trips over the thread that is gone. */
  lemma LeftoverTimeoutIsFatal()
    ensures Run(Boot(), FatalTurns()) == Failed(ReadyThreadGone)
    ensures DropsInRun(Boot(), FatalTurns(), 3)
  {
    hide Dispatch, DropsAt, Boot, Created, Dozing, Killed, Dropped;
    CreateTurn();
    SleepTurn();
    KillTurn();
    DropTurn();
    LastTurn();
    var ts := FatalTurns();
    assert ts[1..][1..] == ts[2..] && ts[2..][1..] == ts[3..] && ts[3..][1..] == ts[4..];
    assert Run(Dropped(), ts[4..]) == Failed(ReadyThreadGone);
    assert Run(Killed(), ts[3..]) == Failed(ReadyThreadGone);
    assert Run(Dozing(), ts[2..]) == Failed(ReadyThreadGone);
    assert Run(Created(), ts[1..]) == Failed(ReadyThreadGone);
    var us := ts[..3];
    assert us[0] == ts[0] && us[1..][0] == ts[1] && us[1..][1..] == us[2..] && us[2..][0] == ts[2] && us[2..][1..] == [];
    assert Run(Killed(), us[2..][1..]) == Ok(Killed());
    assert Run(Dozing(), us[2..]) == Ok(Killed());
    assert Run(Created(), us[1..]) == Ok(Killed());
  }

  lemma LastTurn()
    ensures Dispatch(Dropped(), Doing(Preempted)) == Failed(ReadyThreadGone)
  {
  }
}
