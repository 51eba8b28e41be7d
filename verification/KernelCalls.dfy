/**
  What the remaining calls do: creating objects and threads, clearing events, setting
  timers, closing mutexes, and the mutexes of a thread that ends.
 */
module KernelCalls {
  import opened Options
  import opened Lists
  import opened Kernel
  import opened KernelInvariants
  import opened KernelWaiting
  import opened KernelRuns
  import opened KernelEffects
  import opened KernelTimeouts
  import opened KernelEndings
  import opened KernelServing
  import opened KernelWaits

  // ---------------------------------------------------------------------------
  // Creating
  // ---------------------------------------------------------------------------

  /** Object o is new, nobody waits for it, and all others are as before. */
  ghost predicate Added(st: State, st': State, o: Oid, r: Resource) {
    && o !in st.subjects && o in st'.subjects && st'.subjects == st.subjects[o := st'.subjects[o]]
    && st'.subjects[o].resource == r && st'.subjects[o].observers == []
    && st'.waiting == st.waiting && st'.now == st.now
  }

  /** A new event is not signalled, a new semaphore has its initial count, a new timer does not run, a new mutex
      is locked by its creator if that was asked for and free otherwise, and a new thread can run and
      is queued behind all others. Nothing that existed changes. */
  lemma CreatesNew(st: State, t: Tid, call: Call)
    requires Inv(st) && t in st.threads
    requires call.CreateEvent? || call.CreateSemaphore? || call.CreateMutex? || call.CreateTimer? || call.CreateThread?
    ensures var r := Perform(st, t, call);
            && (call.CreateEvent? ==> (r.Ok? <==> call.reset != Pulse))
            && (call.CreateSemaphore? ==> (r.Ok? <==> 0 <= call.initial <= call.max))
            && (call.CreateMutex? || call.CreateTimer? || call.CreateThread? ==> r.Ok?)
            && (r.Ok? ==>
                  var st' := r.state;
                  && (call.CreateEvent? ==> Added(st, st', st.nextOid, Event(false, call.reset)))
                  && (call.CreateSemaphore? ==> Added(st, st', st.nextOid, Semaphore(call.initial, call.max)))
                  && (call.CreateMutex? && call.locked ==> Added(st, st', st.nextOid, Mutex(1, Some(t))))
                  && (call.CreateMutex? && !call.locked ==>
                        st.nextOid in st'.subjects && st'.subjects[st.nextOid].resource.Mutex?
                        && st'.subjects[st.nextOid].resource.lockCount == 0
                        && Added(st, st', st.nextOid, st'.subjects[st.nextOid].resource))
                  && (call.CreateTimer? ==> Added(st, st', st.nextOid, Timer(false, call.reset, 0, 0)) && st.nextOid in st'.timers)
                  && (call.CreateThread? ==>
                        && Added(st, st', st.nextOid, ThreadEnd(st.nextTid))
                        && st.nextTid !in st.threads && st.nextTid in st'.threads
                        && st'.threads == st.threads[st.nextTid := st'.threads[st.nextTid]]
                        && st'.threads[st.nextTid].status == Ready && st'.threads[st.nextTid].life == Alive
                        && st'.threads[st.nextTid].waitList == [] && st'.ready == st.ready + [st.nextTid])
                  && (!call.CreateThread? ==> st'.threads == st.threads && st'.ready == st.ready))
  {
    assert forall o | o in st.subjects :: o < st.nextOid;
    assert forall u | u in st.threads :: u < st.nextTid;
    hide Inv, OnResourceReady, Wait, ExitThreads, Reschedule, ReleaseSemaphoreOn;
  }

  // ---------------------------------------------------------------------------
  // Events and timers
  // ---------------------------------------------------------------------------

  lemma ClearIs(st: State, t: Tid, e: Oid)
    requires t in st.threads && e in st.subjects && st.subjects[e].resource.Event?
    ensures Perform(st, t, ClearEvent(Object(e))) == Ok(SetResource(st, e, st.subjects[e].resource.(signalled := false)))
  {
    hide OnResourceReady, Wait, ExitThreads, SpawnThread, Reschedule, AddSubject, ReleaseSemaphoreOn;
  }

  /** A wait for an event that was cleared sleeps, whatever happened to the event before. */
  lemma ClearedBlocks(st: State, t: Tid, e: Oid, timeout: int)
    requires Inv(st) && t in st.threads && st.threads[t].status == Ready && st.threads[t].life == Alive
    requires e in st.subjects && st.subjects[e].resource.Event?
    ensures var r := Perform(st, t, ClearEvent(Object(e)));
            && r.Ok? && r.state.threads == st.threads && e in r.state.subjects
            && r.state.subjects[e].observers == st.subjects[e].observers
            && (forall o | o in st.subjects && o != e :: o in r.state.subjects && r.state.subjects[o] == st.subjects[o])
            && FellAsleepOn(r.state, Wait(r.state, t, [Object(e)], false, timeout), t, e)
  {
    hide Perform, Inv, Wait, FellAsleepOn;
    PerformSound(st, t, ClearEvent(Object(e)));
    ClearIs(st, t, e);
    WaitOne(Perform(st, t, ClearEvent(Object(e))).state, t, e, timeout);
  }

  lemma SetTimerIs(st: State, t: Tid, o: Oid, n: int, period: int)
    requires t in st.threads && o in st.subjects && st.subjects[o].resource.Timer? && n >= 0 && period >= 0
    ensures var st1 := SetResource(st, o, Timer(true, st.subjects[o].resource.reset, st.now + n, period));
            Perform(st, t, SetTimer(Object(o), n, period)) == if n == 0 then OnResourceReady(st1, o) else Ok(st1)
  {
    hide OnResourceReady, Wait, ExitThreads, SpawnThread, Reschedule, AddSubject, ReleaseSemaphoreOn, IsOwner, ReleaseMutex,
      SameShape, RemoveAll, Drop, SetThread;
    assert Expired(SetResource(st, o, Timer(true, st.subjects[o].resource.reset, st.now + n, period)), o) <==> n == 0;
    hide Expired, SetResource;
  }

  /** Timers that have not expired stay as they are. */
  lemma {:induction false} TimersLeave(st: State, timers: seq<Oid>, o: Oid)
    requires Core(st) && o in st.subjects && st.subjects[o].resource.Timer? && !Expired(st, o)
    ensures var r := RunTimers(st, timers);
            r.Ok? ==> o in r.state.subjects && r.state.subjects[o].resource == st.subjects[o].resource
    decreases |timers|
  {
    hide Core, OnResourceReady, Calmer, SameNames, KeepsReady;
    if timers != [] {
      if timers[0] in st.subjects && Expired(st, timers[0]) {
        ReadyKeeps(st, timers[0]);
        ReadyOnlyWakes(st, timers[0]);
        var r := OnResourceReady(st, timers[0]);
        if r.Ok? {
          TimersLeave(r.state, timers[1..], o);
        }
      } else {
        TimersLeave(st, timers[1..], o);
      }
    }
  }

  /** Timeouts take nothing of any object. */
  lemma {:induction false} TimeoutsBooks(st: State, i: nat)
    requires i <= |st.waiting|
    ensures var r := RunTimeouts(st, i);
            r.Ok? ==> r.state.subjects.Keys == st.subjects.Keys
                      && forall o | o in st.subjects :: r.state.subjects[o].resource == st.subjects[o].resource
    decreases |st.waiting| - i
  {
    hide UnregisterAll, RemoveAt;
    if i < |st.waiting| {
      var t := st.waiting[i];
      if t !in st.threads {
        TimeoutsBooks(st.(waiting := RemoveAt(st.waiting, i)), i);
      } else if st.threads[t].timeoutAt <= st.now {
        if Expire(st, t).Ok? {
          TimeoutsBooks(Expire(st, t).state.(waiting := RemoveAt(st.waiting, i)), i);
        }
      } else {
        TimeoutsBooks(st, i + 1);
      }
    }
  }

  /** The passing of time leaves a timer alone that has not expired by then. */
  lemma ElapseLeaves(st: State, tick: Tick, o: Oid)
    requires Core(st) && o in st.subjects && st.subjects[o].resource.Timer? && ElapseTime(st, tick).Ok?
    requires !Expired(st.(now := st.now + tick.elapsed), o)
    ensures o in ElapseTime(st, tick).state.subjects
    ensures ElapseTime(st, tick).state.subjects[o].resource == st.subjects[o].resource
  {
    var st0 := st.(now := st.now + tick.elapsed);
    assert Core(st0) by { CoreIgnores(st, st0); }
    ElapseParts(st, tick);
    hide Core, RunTimers, FireInterrupts, RunTimeouts, ElapseTime, Calmer, SameNames, KeepsReady;
    TimersLeave(st0, st0.timers, o);
    TimersKeep(st0, st0.timers);
    var st1 := RunTimers(st0, st0.timers).state;
    InterruptsSignal(st1, tick.fired);
    var st2 := FireInterrupts(st1, tick.fired).state;
    assert o !in tick.fired;
    TimeoutsBooks(st2, 0);
  }

  /** A timer that has just been acquired: a one-shot timer stops, a pulsing one starts its next period now. */
  ghost function Rung(timer: Resource, now: nat): Resource
    requires timer.Timer?
  {
    match timer.reset
    case OneShot => Timer(false, OneShot, timer.deadline, timer.period)
    case Sticky => timer
    case Pulse => Timer(timer.active, Pulse, now + timer.period, timer.period)
  }

  /** In st' object o is the given timer, which was just set: if it runs out at once and somebody waits for it,
      it has been acquired; otherwise nobody was woken. */
  ghost predicate SetAtOnce(st: State, st': State, o: Oid, timer: Resource)
    requires o in st.subjects && timer.Timer?
  {
    && o in st'.subjects && st'.now == st.now
    && if timer.deadline == st.now && st.subjects[o].observers != [] then st'.subjects[o].resource == Rung(timer, st.now)
       else st'.subjects[o] == st.subjects[o].(resource := timer) && st'.threads == st.threads
  }

  lemma TimerSet(st: State, t: Tid, o: Oid, n: int, period: int)
    requires Inv(st) && t in st.threads
    requires o in st.subjects && st.subjects[o].resource.Timer? && n >= 0 && period >= 0
    ensures var r := Perform(st, t, SetTimer(Object(o), n, period));
            && r.Ok? && Core(r.state)
            && SetAtOnce(st, r.state, o, Timer(true, st.subjects[o].resource.reset, st.now + n, period))
  {
    hide Perform;
    InvParts(st);
    hide Inv, Core, OnResourceReady;
    SetTimerIs(st, t, o, n, period);
    TimerInOrder(st, o, n, period);
    if n == 0 {
      SetToZero(SetResource(st, o, Timer(true, st.subjects[o].resource.reset, st.now + n, period)), o);
    }
  }

  lemma TimerInOrder(st: State, o: Oid, n: int, period: int)
    requires Core(st) && o in st.subjects && st.subjects[o].resource.Timer? && n >= 0 && period >= 0
    ensures Core(SetResource(st, o, Timer(true, st.subjects[o].resource.reset, st.now + n, period)))
  {
    SubjectInOrder(st, o);
    hide Core, SameNames, KeepsReady, Quiet;
    RestockKeeps(st, o, st.subjects[o].(resource := Timer(true, st.subjects[o].resource.reset, st.now + n, period)));
  }

  /** A timer set to n runs out exactly when the clock has moved by n: before that it stays as it was set, and
      after it nobody is asleep on it while it is expired. */
  lemma TimerRings(st: State, t: Tid, o: Oid, n: int, period: int, tick: Tick)
    requires Inv(st) && t in st.threads
    requires o in st.subjects && st.subjects[o].resource.Timer? && n >= 0 && period >= 0
    requires Perform(st, t, SetTimer(Object(o), n, period)).Ok?
    requires ElapseTime(Perform(st, t, SetTimer(Object(o), n, period)).state, tick).Ok?
    ensures var st2 := ElapseTime(Perform(st, t, SetTimer(Object(o), n, period)).state, tick).state;
            && o in st2.subjects && st2.subjects[o].resource.Timer?
            && (n > tick.elapsed ==> st2.subjects[o].resource == Timer(true, st.subjects[o].resource.reset, st.now + n, period))
            && (Expired(st2, o) ==> st2.subjects[o].observers == [])
  {
    hide Perform, Inv, Core, ElapseTime;
    TimerSet(st, t, o, n, period);
    var st1 := Perform(st, t, SetTimer(Object(o), n, period)).state;
    TimerSettled(st1, tick, o);
    if n > tick.elapsed {
      ElapseLeaves(st1, tick, o);
    }
  }

  lemma SetToZero(st: State, o: Oid)
    requires Core(st) && o in st.subjects && Expired(st, o)
    ensures OnResourceReady(st, o).Ok? && Core(OnResourceReady(st, o).state) && OnResourceReady(st, o).state.now == st.now
    ensures st.subjects[o].observers == [] ==> OnResourceReady(st, o) == Ok(st)
    ensures st.subjects[o].observers != [] ==>
              && o in OnResourceReady(st, o).state.subjects
              && OnResourceReady(st, o).state.subjects[o].resource == Rung(st.subjects[o].resource, st.now)
  {
    hide Core;
    if st.subjects[o].observers != [] {
      hide OnResourceReady;
      RungOut(st, o);
      StillCore(st, o);
    }
  }

  lemma StillCore(st: State, o: Oid)
    requires Core(st) && o in st.subjects && OnResourceReady(st, o).Ok?
    ensures Core(OnResourceReady(st, o).state) && OnResourceReady(st, o).state.now == st.now
  {
    hide Core, OnResourceReady, Calmer, SameNames, KeepsReady;
    ReadyKeeps(st, o);
    ReadyOnlyWakes(st, o);
  }

  lemma RungOut(st: State, o: Oid)
    requires Core(st) && o in st.subjects && Expired(st, o) && st.subjects[o].observers != []
    ensures OnResourceReady(st, o).Ok? && o in OnResourceReady(st, o).state.subjects
    ensures OnResourceReady(st, o).state.subjects[o].resource == Rung(st.subjects[o].resource, st.now)
  {
    hide Core, OnResourceReady, Served;
    TimerServes(st, o);
  }

  lemma TimerSettled(st: State, tick: Tick, o: Oid)
    requires Core(st) && o in st.subjects && st.subjects[o].resource.Timer? && ElapseTime(st, tick).Ok?
    ensures var st2 := ElapseTime(st, tick).state;
            o in st2.subjects && st2.subjects[o].resource.Timer? && (Expired(st2, o) ==> st2.subjects[o].observers == [])
  {
    hide Core, ElapseTime, KeepsReady;
    ElapseSettles(st, tick);
  }

  // ---------------------------------------------------------------------------
  // Mutexes
  // ---------------------------------------------------------------------------

  /** A mutex that its owner keeps serves nobody, unless the owner itself waits for it. */
  lemma LockedServesNobody(st: State, o: Oid, u: Tid)
    requires Core(st) && o in st.subjects && u in st.threads && u !in st.subjects[o].observers
    requires st.subjects[o].resource.Mutex? && st.subjects[o].resource.lockCount > 0 && st.subjects[o].resource.owner == Some(u)
    ensures OnResourceReady(st, o) == Ok(st)
  {
    if st.subjects[o].observers != [] {
      FrontSleeps(st, o);
      LockedTry(st, o, st.subjects[o].observers[0], u);
      hide Core, TryAcquire;
    }
  }

  lemma CloseIs(st: State, t: Tid, o: Oid)
    requires t in st.threads && o in st.subjects
    ensures Perform(st, t, CloseMutex(Object(o)))
            == if IsOwner(st.subjects[o].resource, t) then OnResourceReady(Restocked(st, o, Unlocked(st.subjects[o])), o) else Ok(st)
  {
    hide OnResourceReady, Wait, ExitThreads, SpawnThread, Reschedule, AddSubject, ReleaseSemaphoreOn;
    if IsOwner(st.subjects[o].resource, t) {
      assert ReleaseMutex(st, o) == Restocked(st, o, Unlocked(st.subjects[o]));
    }
  }

  /** Closing a handle to a mutex unlocks it once if the caller owns it, and does nothing otherwise; a mutex that
      is free then goes to its first observer. */
  lemma CloseUnlocks(st: State, t: Tid, o: Oid)
    requires Inv(st) && t in st.threads && st.threads[t].status == Ready && o in st.subjects && st.subjects[o].resource.Mutex?
    ensures var r := Perform(st, t, CloseMutex(Object(o)));
            && r.Ok? && o in r.state.subjects && r.state.subjects[o].resource.Mutex?
            && var m, m' := st.subjects[o].resource, r.state.subjects[o].resource;
            && (!IsOwner(m, t) ==> r.state == st)
            && (IsOwner(m, t) && m.lockCount > 1 ==> m' == Mutex(m.lockCount - 1, Some(t)) && r.state.threads == st.threads)
            && (IsOwner(m, t) && m.lockCount == 1 && st.subjects[o].observers == [] ==> m' == Mutex(0, None))
            && (IsOwner(m, t) && m.lockCount == 1 && st.subjects[o].observers != [] ==>
                  m'.lockCount > 0 && m'.owner == Some(st.subjects[o].observers[0]))
  {
    hide Perform, Inv;
    CloseIs(st, t, o);
    BooksOf(st, o);
    InvParts(st);
    var s := st.subjects[o];
    if IsOwner(s.resource, t) {
      AwakeObservesNothing(st, t, o);
      hide Core;
      RestockKeeps(st, o, Unlocked(s));
      var st1 := Restocked(st, o, Unlocked(s));
      if s.resource.lockCount > 1 {
        hide OnResourceReady;
        LockedServesNobody(st1, o, t);
      } else if s.observers != [] {
        hide OnResourceReady;
        FreeMutexGoesToFirst(st1, o);
      }
    }
  }

  /** The loop that announces an object fails only at a mutex whose owner is gone, or at a check of its own. */
  lemma {:induction false} ReadyFaults(st: State, o: Oid)
    requires o in st.subjects
    ensures var r := OnResourceReady(st, o);
            r.Failed? ==> Internal(r.fault) || st.subjects[o].resource.Mutex?
    decreases |st.subjects[o].observers|
  {
    hide UnregisterAll, Granted, RemoveFirst, RemoveAt;
    var s := st.subjects[o];
    if s.observers != [] {
      var t := s.observers[0];
      if t !in st.threads {
        ReadyFaults(st.(subjects := st.subjects[o := s.(observers := s.observers[1..])]), o);
      } else if st.threads[t].status == Sleeping && TryAcquire(st, o, t).Got? {
        var st1 := TryAcquire(st, o, t).state;
        assert st1.subjects[o].resource.Mutex? == s.resource.Mutex?;
        AcquiredFaults(st1, t, o);
        hide TryAcquire, OnResourceAcquired;
        if OnResourceAcquired(st1, t, o).Ok? {
          ReadyFaults(OnResourceAcquired(st1, t, o).state, o);
        }
      }
    }
  }

  lemma AcquiredFaults(st: State, t: Tid, o: Oid)
    requires t in st.threads && o in st.subjects
    ensures var r := OnResourceAcquired(st, t, o);
            && (r.Failed? ==> Internal(r.fault))
            && (r.Ok? ==> o in r.state.subjects && r.state.subjects[o].resource == st.subjects[o].resource)
  {
    var th := st.threads[t];
    if o in th.waitList {
      UnregisterFaults(st, RemoveAt(th.waitList, IndexOf(th.waitList, o)), t);
    }
    hide Granted, UnregisterAll;
  }

  lemma {:induction false} UnregisterFaults(st: State, os: seq<Oid>, t: Tid)
    ensures UnregisterAll(st, os, t).Failed? ==> UnregisterAll(st, os, t).fault == NotRegistered
    decreases |os|
  {
    if os != [] && os[0] in st.subjects && t in st.subjects[os[0]].observers {
      UnregisterFaults(Unregister(st, os[0], t), os[1..], t);
    }
  }

  lemma AnnouncesOk(st: State, o: Oid, s: Subject)
    requires Core(st) && o in st.subjects && s.observers == st.subjects[o].observers
    requires SameKind(st.subjects[o].resource, s.resource) && SubjectOk(s) && !s.resource.Mutex?
    ensures OnResourceReady(Restocked(st, o, s), o).Ok?
  {
    hide Core, SameNames, KeepsReady, Quiet, OnResourceReady, Calmer;
    RestockKeeps(st, o, s);
    ReadyKeeps(Restocked(st, o, s), o);
    ReadyFaults(Restocked(st, o, s), o);
  }

  /** Whether the call names an object it can be made on. */
  predicate Permitted(st: State, t: Tid, call: Call) {
    match call
    case SignalEvent(h) => Names(st, h) && st.subjects[h.id].resource.Event?
    case ClearEvent(h) => Names(st, h) && st.subjects[h.id].resource.Event?
    case ReleaseSemaphore(h, _) => Names(st, h) && st.subjects[h.id].resource.Semaphore?
    case UnlockMutex(h) => Names(st, h) && IsOwner(st.subjects[h.id].resource, t)
    case SetTimer(h, n, period) => n >= 0 && period >= 0 && Names(st, h) && st.subjects[h.id].resource.Timer?
    case _ => true
  }

  function Complaint(call: Call): Fault {
    match call
    case UnlockMutex(_) => MutexNotOwned
    case SetTimer(_, n, period) => if n < 0 || period < 0 then Panic else WrongObject
    case _ => WrongObject
  }

  /** A call on an object is refused exactly if it does not name an object of the right kind, or a mutex that the
      caller does not own, or a timer that would run for a negative time. Closing a mutex is never refused. */
  lemma RefusedExactly(st: State, t: Tid, call: Call)
    requires Inv(st) && t in st.threads && st.threads[t].status == Ready
    requires call.SignalEvent? || call.ClearEvent? || call.ReleaseSemaphore? || call.UnlockMutex? || call.CloseMutex? || call.SetTimer?
    ensures Perform(st, t, call).Ok? <==> Permitted(st, t, call)
    ensures Perform(st, t, call).Failed? ==> Perform(st, t, call).fault == Complaint(call)
  {
    if !Permitted(st, t, call) {
      RefusedIfNot(st, t, call);
    } else if call.CloseMutex? {
      CloseNeverRefused(st, t, call.target);
    } else {
      hide Perform;
      PermittedGoesOn(st, t, call);
    }
  }

  lemma RefusedIfNot(st: State, t: Tid, call: Call)
    requires t in st.threads && !Permitted(st, t, call)
    ensures Perform(st, t, call) == Failed(Complaint(call))
  {
    hide OnResourceReady, Wait, ExitThreads, SpawnThread, Reschedule, AddSubject, ReleaseSemaphoreOn, ReleaseMutex;
  }

  lemma CloseNeverRefused(st: State, t: Tid, h: Handle)
    requires Inv(st) && t in st.threads && st.threads[t].status == Ready
    ensures Perform(st, t, CloseMutex(h)).Ok?
  {
    if Names(st, h) && IsOwner(st.subjects[h.id].resource, t) {
      hide Perform;
      CloseUnlocks(st, t, h.id);
    } else {
      hide OnResourceReady, Wait, ExitThreads, SpawnThread, Reschedule, AddSubject, ReleaseSemaphoreOn, ReleaseMutex;
    }
  }

  lemma PermittedGoesOn(st: State, t: Tid, call: Call)
    requires Inv(st) && t in st.threads && st.threads[t].status == Ready && Permitted(st, t, call)
    requires call.SignalEvent? || call.ClearEvent? || call.ReleaseSemaphore? || call.UnlockMutex? || call.SetTimer?
    ensures Perform(st, t, call).Ok?
  {
    hide Perform, OnResourceReady;
    InvParts(st);
    var o := call.target.id;
    var s := st.subjects[o];
    SubjectInOrder(st, o);
    hide Core;
    match call {
      case SignalEvent(_) =>
        SignalIs(st, t, o);
        AnnouncesOk(st, o, s.(resource := s.resource.(signalled := true)));
      case ClearEvent(_) =>
        ClearIs(st, t, o);
      case ReleaseSemaphore(_, times) =>
        ReleaseIs(st, t, o, times);
        AnnouncesOk(st, o, Refilled(s, times));
      case UnlockMutex(_) =>
        UnlockHandsOver(st, t, o);
      case SetTimer(_, n, period) =>
        TimerSet(st, t, o, n, period);
    }
  }

  lemma SignalIs(st: State, t: Tid, o: Oid)
    requires t in st.threads && o in st.subjects && st.subjects[o].resource.Event?
    ensures var s := st.subjects[o];
            Perform(st, t, SignalEvent(Object(o)))
            == OnResourceReady(Restocked(st, o, s.(resource := s.resource.(signalled := true))), o)
  {
    hide OnResourceReady, Wait, ExitThreads, SpawnThread, Reschedule, AddSubject, ReleaseSemaphoreOn, ReleaseMutex;
  }

  lemma AwakeObservesNothing(st: State, t: Tid, o: Oid)
    requires Core(st) && t in st.threads && st.threads[t].status == Ready && o in st.subjects
    ensures t !in st.subjects[o].observers
  {
    RecordOk(st, t);
    NotAmong(st, t, o);
  }

  /** t waits for none of the listed mutexes that it owns. */
  ghost predicate WaitsForNoneOfIts(st: State, held: seq<Oid>, t: Tid) {
    forall o | o in held && o in st.subjects && IsOwner(st.subjects[o].resource, t) :: t !in st.subjects[o].observers
  }

  /** t has locked each of the listed mutexes that it owns just once. */
  ghost predicate LockedOnce(st: State, held: seq<Oid>, t: Tid) {
    forall o | o in held && o in st.subjects && IsOwner(st.subjects[o].resource, t) :: st.subjects[o].resource.lockCount == 1
  }

  ghost predicate OwnsNone(st: State, held: seq<Oid>, t: Tid) {
    forall o | o in held && o in st.subjects :: !IsOwner(st.subjects[o].resource, t)
  }

  /** The objects that t does not own, or that are not listed, are as before. */
  ghost predicate RestUntouched(st: State, st': State, held: seq<Oid>, t: Tid) {
    && st'.subjects.Keys == st.subjects.Keys
    && forall o | o in st.subjects && (o !in held || !IsOwner(st.subjects[o].resource, t)) ::
         st'.subjects[o].resource == st.subjects[o].resource
  }

  ghost predicate OthersKept(st: State, st': State, o: Oid) {
    && st'.subjects.Keys == st.subjects.Keys
    && forall p | p in st.subjects && p != o :: st'.subjects[p].resource == st.subjects[p].resource
  }

  /** A free mutex is offered to its observers, none of whom is t. */
  lemma GivenAway(st: State, o: Oid, t: Tid)
    requires Core(st) && t in st.threads && o in st.subjects && t !in st.subjects[o].observers
    requires st.subjects[o].resource.Mutex? && st.subjects[o].resource.lockCount == 0
    ensures var r := OnResourceReady(st, o);
            && r.Ok? && Core(r.state) && t in r.state.threads && r.state.threads[t] == st.threads[t] && OthersKept(st, r.state, o)
            && r.state.subjects[o].resource.Mutex? && !IsOwner(r.state.subjects[o].resource, t)
  {
    hide Core, Calmer, SameNames, KeepsReady;
    if st.subjects[o].observers == [] {
      assert OnResourceReady(st, o) == Ok(st);
    } else {
      hide OnResourceReady, TryAcquire, TryAcquireImpl;
      FreeMutexGoesToFirst(st, o);
      assert st.subjects[o].observers[0] in st.subjects[o].observers;
      ReadyKeeps(st, o);
      ReadyOnlyWakes(st, o);
      ReadySpares(st, o, t);
    }
  }

  lemma OnceUnlocked(st: State, o: Oid, t: Tid)
    requires Core(st) && o in st.subjects && IsOwner(st.subjects[o].resource, t) && st.subjects[o].resource.lockCount == 1
    ensures var st1 := ReleaseMutex(st, o);
            && Core(st1) && o in st1.subjects && st1.subjects[o].resource == Mutex(0, None)
            && st1.subjects[o].observers == st.subjects[o].observers && OthersKept(st, st1, o)
  {
    SubjectInOrder(st, o);
    hide Core, SameNames, KeepsReady, Quiet;
    RestockKeeps(st, o, Unlocked(st.subjects[o]));
  }

  /** One mutex is given back. */
  lemma OneReleased(st: State, o: Oid, t: Tid)
    requires Core(st) && t in st.threads && o in st.subjects && IsOwner(st.subjects[o].resource, t)
    requires st.subjects[o].resource.lockCount == 1 && t !in st.subjects[o].observers
    ensures var r := OnResourceReady(ReleaseMutex(st, o), o);
            && r.Ok? && Core(r.state) && t in r.state.threads && r.state.threads[t] == st.threads[t] && OthersKept(st, r.state, o)
            && r.state.subjects[o].resource.Mutex? && !IsOwner(r.state.subjects[o].resource, t)
  {
    hide Core, OnResourceReady;
    OnceUnlocked(st, o, t);
    GivenAway(ReleaseMutex(st, o), o, t);
  }

  lemma {:induction false} ReleaseOwnedExact(st: State, held: seq<Oid>, t: Tid)
    requires Core(st) && t in st.threads && WaitsForNoneOfIts(st, held, t)
    ensures var r := ReleaseOwned(st, held, t);
            && (r.Ok? <==> LockedOnce(st, held, t)) && (r.Failed? ==> r.fault == RecursiveMutexOnExit)
            && (r.Ok? ==> OwnsNone(r.state, held, t) && RestUntouched(st, r.state, held, t))
    decreases |held|
  {
    if held != [] {
      var o := held[0];
      var rest := held[1..];
      hide Core, OnResourceReady;
      if o in st.subjects && IsOwner(st.subjects[o].resource, t) {
        assert o in held;
        if st.subjects[o].resource.lockCount == 1 {
          OneReleased(st, o, t);
          var st2 := OnResourceReady(ReleaseMutex(st, o), o).state;
          hide OthersKept, WaitsForNoneOfIts, LockedOnce, OwnsNone, RestUntouched;
          StillWaitsForNone(st, st2, held, t);
          ReleaseOwnedExact(st2, rest, t);
          ThenReleased(st, st2, ReleaseOwned(st2, rest, t), held, t);
        }
      } else {
        assert forall p :: p in held <==> p == o || p in rest;
        ReleaseOwnedExact(st, rest, t);
      }
    }
  }

  lemma StillWaitsForNone(st: State, st2: State, held: seq<Oid>, t: Tid)
    requires Core(st) && Core(st2) && t in st.threads && t in st2.threads && st2.threads[t] == st.threads[t]
    requires held != [] && held[0] in st.subjects && OthersKept(st, st2, held[0]) && !IsOwner(st2.subjects[held[0]].resource, t)
    requires WaitsForNoneOfIts(st, held, t)
    ensures WaitsForNoneOfIts(st2, held[1..], t)
  {
    hide Core;
    forall p | p in held[1..] && p in st2.subjects && IsOwner(st2.subjects[p].resource, t)
      ensures t !in st2.subjects[p].observers
    {
      assert p in held && p != held[0] && st2.subjects[p].resource == st.subjects[p].resource;
      StillNotAmong(st, st2, t, p);
    }
  }

  lemma StillNotAmong(st: State, st2: State, t: Tid, p: Oid)
    requires Core(st) && Core(st2) && t in st.threads && t in st2.threads && st2.threads[t] == st.threads[t]
    requires p in st.subjects && p in st2.subjects && t !in st.subjects[p].observers
    ensures t !in st2.subjects[p].observers
  {
    assert Observes(st, t, p) == Awaits(st, t, p) && Observes(st2, t, p) == Awaits(st2, t, p);
  }

  lemma ThenReleased(st: State, st2: State, r: Result, held: seq<Oid>, t: Tid)
    requires held != [] && held[0] in st.subjects && IsOwner(st.subjects[held[0]].resource, t) && st.subjects[held[0]].resource.lockCount == 1
    requires OthersKept(st, st2, held[0]) && !IsOwner(st2.subjects[held[0]].resource, t)
    requires r.Ok? <==> LockedOnce(st2, held[1..], t)
    requires r.Ok? ==> OwnsNone(r.state, held[1..], t) && RestUntouched(st2, r.state, held[1..], t)
    ensures r.Ok? <==> LockedOnce(st, held, t)
    ensures r.Ok? ==> OwnsNone(r.state, held, t) && RestUntouched(st, r.state, held, t)
  {
    assert forall p :: p in held <==> p == held[0] || p in held[1..];
    assert forall p | p in st.subjects && p != held[0] :: st2.subjects[p].resource == st.subjects[p].resource;
  }

  /** A thread that ends has given back every mutex that its process has a handle to; it fails to end exactly
      if it has locked one of them more than once. The mutexes of others stay as they are. */
  lemma ExitReleases(st: State, t: Tid, held: seq<Oid>)
    requires Inv(st) && t in st.threads && st.threads[t].status != Stopped && WaitsForNoneOfIts(st, held, t)
    ensures var r := ExitThread(st, t, held);
            && (r.Ok? <==> LockedOnce(st, held, t)) && (r.Failed? ==> r.fault == RecursiveMutexOnExit)
            && (r.Ok? ==> OwnsNone(r.state, held, t) && RestUntouched(st, r.state, held, t))
  {
    InvParts(st);
    hide Core, Inv, ReleaseOwned, OnResourceReady, UnregisterAll, OwnsNone, RestUntouched, LockedOnce, Settles;
    ReleaseOwnedExact(st, held, t);
    ReleaseOwnedSettles(st, held, t);
    if ReleaseOwned(st, held, t).Ok? {
      var st1 := ReleaseOwned(st, held, t).state;
      StillThere(st, st1, t);
      GoneQuietly(st1, t);
      var st3 := Gone(st1, t);
      StillReleased(st, st1, OnResourceReady(st3, st3.threads[t].subject).state, held, t);
    }
  }

  /** The state in which the end of t is announced. */
  ghost function Gone(st: State, t: Tid): (st3: State)
    requires t in st.threads && UnregisterAll(st, st.threads[t].waitList, t).Ok?
    ensures t in st3.threads
  {
    var st2 := UnregisterAll(st, st.threads[t].waitList, t).state;
    SetThread(st2, t, Ended(st2.threads[t])).(ready := RemoveAll(st2.ready, t))
  }

  /** All objects are as they were but for those who wait for them. */
  ghost predicate SameBooks(st: State, st': State) {
    && st'.subjects.Keys == st.subjects.Keys
    && forall o | o in st.subjects :: st'.subjects[o].resource == st.subjects[o].resource
  }

  lemma GoneCore(st: State, t: Tid)
    requires Core(st) && t in st.threads
    ensures UnregisterAll(st, st.threads[t].waitList, t).Ok? && Core(Gone(st, t)) && SameBooks(st, Gone(st, t))
    ensures Gone(st, t).threads[t].status == Stopped
  {
    var ready := RemoveAll(st.ready, t);
    RecordOk(st, t);
    GiveUpKeeps(st, t, Ended(st.threads[t]), ready);
    hide Core, SameNames, Calmer;
    var st2 := UnregisterAll(st, st.threads[t].waitList, t).state;
    assert Gone(st, t) == SetThread(st2, t, Ended(st.threads[t])).(ready := ready);
  }

  lemma GoneQuietly(st: State, t: Tid)
    requires Core(st) && t in st.threads
    ensures UnregisterAll(st, st.threads[t].waitList, t).Ok?
    ensures var st3 := Gone(st, t);
            && st3.threads[t].subject in st3.subjects && OnResourceReady(st3, st3.threads[t].subject).Ok?
            && SameBooks(st, OnResourceReady(st3, st3.threads[t].subject).state)
  {
    hide Core, OnResourceReady, UnregisterAll;
    GoneCore(st, t);
    EndAnnounced(Gone(st, t), t);
  }

  lemma StillReleased(st: State, st1: State, st2: State, held: seq<Oid>, t: Tid)
    requires OwnsNone(st1, held, t) && RestUntouched(st, st1, held, t) && SameBooks(st1, st2)
    ensures OwnsNone(st2, held, t) && RestUntouched(st, st2, held, t)
  {
  }

  lemma StillThere(st: State, st1: State, t: Tid)
    requires t in st.threads && Settles(st, Ok(st1))
    ensures t in st1.threads && Core(st1)
  {
  }

  lemma EndAnnounced(st: State, t: Tid)
    requires Core(st) && t in st.threads && st.threads[t].status == Stopped
    ensures st.threads[t].subject in st.subjects && OnResourceReady(st, st.threads[t].subject).Ok?
    ensures SameBooks(st, OnResourceReady(st, st.threads[t].subject).state)
  {
    SubjectExists(st, t);
    hide Core, OnResourceReady, Served;
    LastingServesAll(st, st.threads[t].subject);
    ReadyOnlyWakes(st, st.threads[t].subject);
  }
}
