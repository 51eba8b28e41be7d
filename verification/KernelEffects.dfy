/**
  What the calls that announce an object do, beyond keeping the invariants: who
  gets the object, and what stays as it was.
 */
module KernelEffects {
  import opened Options
  import opened Lists
  import opened Kernel
  import opened KernelInvariants
  import opened KernelRuns

  /** Waking observers of o touches the books of o only, no queue but the ready queue, and of the
      threads only sleeping ones, which become ready or stay asleep. */
  ghost predicate OnlyWakes(st: State, st': State, o: Oid) {
    && st'.threads.Keys == st.threads.Keys && st'.subjects.Keys == st.subjects.Keys
    && st'.waiting == st.waiting && st'.timers == st.timers && st'.now == st.now && st'.nextTid == st.nextTid
    && (forall p | p in st.subjects ::
          && st'.subjects[p].given == st.subjects[p].given
          && (p != o ==> st'.subjects[p].resource == st.subjects[p].resource && st'.subjects[p].taken == st.subjects[p].taken))
    && (forall t | t in st.threads ::
          && st'.threads[t].timeoutAt == st.threads[t].timeoutAt
          && (st.threads[t].status != Sleeping ==> st'.threads[t] == st.threads[t])
          && (st'.threads[t].status == Ready || st'.threads[t].status == st.threads[t].status)
          && (st'.threads[t].status != st.threads[t].status ==> t in st'.ready)
          && st'.threads[t].life == st.threads[t].life && st'.threads[t].result == st.threads[t].result
          && st'.threads[t].request == st.threads[t].request && st'.threads[t].waitForAll == st.threads[t].waitForAll)
    && (forall t | t in st.ready :: t in st'.ready)
    && (forall t | t in st'.ready :: t in st.ready || (t in st.threads && st.threads[t].status == Sleeping))
  }

  lemma OnlyWakesTrans(a: State, b: State, c: State, o: Oid)
    requires OnlyWakes(a, b, o) && OnlyWakes(b, c, o)
    ensures OnlyWakes(a, c, o)
  {
  }

  /** Granting o to t: everything about t is its own affair, and everything else stays. */
  ghost predicate Grants(st: State, st2: State, o: Oid, t: Tid)
    requires o in st.subjects && t in st.threads
  {
    && st2.subjects.Keys == st.subjects.Keys
    && TryAcquireImpl(st, st.subjects[o].resource, t).Acquired?
    && st2.subjects[o].resource == TryAcquireImpl(st, st.subjects[o].resource, t).resource
    && st2.subjects[o].taken == st.subjects[o].taken + 1
    && t in st2.threads && o in st.threads[t].waitList
    && st2.threads == st.threads[t := Granted(st.threads[t].(acquired := st.threads[t].acquired + [o]), o)]
    && st2.ready == (if st2.threads[t].status == Ready then [t] + st.ready else st.ready)
  }

  /** One round of the loop for a sleeping observer. */
  lemma GrantRound(st: State, o: Oid, t: Tid)
    requires o in st.subjects && t in st.threads && st.threads[t].status == Sleeping && TryAcquire(st, o, t).Got?
    requires OnResourceAcquired(TryAcquire(st, o, t).state, t, o).Ok?
    ensures var st2 := OnResourceAcquired(TryAcquire(st, o, t).state, t, o).state;
            Grants(st, st2, o, t) && OnlyWakes(st, st2, o)
  {
    hide RemoveAt, IndexOf, RemoveFirst, UnregisterAll, TryAcquireImpl;
    var st1 := TryAcquire(st, o, t).state;
    var th := st1.threads[t];
    var rest := RemoveAt(th.waitList, IndexOf(th.waitList, o));
    var st2 := OnResourceAcquired(st1, t, o).state;
    assert st2.threads == st.threads[t := Granted(th, o)];
  }

  lemma {:induction false} ReadyOnlyWakes(st: State, o: Oid)
    requires Core(st) && o in st.subjects
    ensures OnResourceReady(st, o).Ok? ==> OnlyWakes(st, OnResourceReady(st, o).state, o)
    decreases |st.subjects[o].observers|
  {
    hide Core, TryAcquire, OnResourceAcquired, OnlyWakes, Calmer, SameNames, KeepsReady;
    NothingWoken(st, o);
    if st.subjects[o].observers != [] {
      var t := st.subjects[o].observers[0];
      FrontSleeps(st, o);
      if TryAcquire(st, o, t).Got? {
        GrantStep(st, o, t);
        GrantRound(st, o, t);
        var st2 := OnResourceAcquired(TryAcquire(st, o, t).state, t, o).state;
        ReadyOnlyWakes(st2, o);
        if OnResourceReady(st2, o).Ok? {
          OnlyWakesTrans(st, st2, OnResourceReady(st2, o).state, o);
        }
      }
    }
  }

  lemma NothingWoken(st: State, o: Oid)
    ensures OnlyWakes(st, st, o)
  {
  }

  /** The front observer exists and sleeps. */
  lemma FrontSleeps(st: State, o: Oid)
    requires Core(st) && o in st.subjects && st.subjects[o].observers != []
    ensures var t := st.subjects[o].observers[0];
            t in st.subjects[o].observers && t in st.threads && st.threads[t].status == Sleeping && o in st.threads[t].waitList
  {
    ObserverSleeps(st, o, st.subjects[o].observers[0]);
  }

  // ---------------------------------------------------------------------------
  // Several objects
  // ---------------------------------------------------------------------------

  /** As OnlyWakes, for any number of objects. */
  ghost predicate Wakes(st: State, st': State) {
    && st'.threads.Keys == st.threads.Keys
    && st'.waiting == st.waiting && st'.now == st.now && st'.nextTid == st.nextTid
    && (forall t | t in st.threads ::
          && st'.threads[t].timeoutAt == st.threads[t].timeoutAt
          && (st.threads[t].status != Sleeping ==> st'.threads[t] == st.threads[t])
          && (st'.threads[t].status == Ready || st'.threads[t].status == st.threads[t].status)
          && (st'.threads[t].status != st.threads[t].status ==> t in st'.ready)
          && st'.threads[t].life == st.threads[t].life && st'.threads[t].result == st.threads[t].result
          && st'.threads[t].request == st.threads[t].request && st'.threads[t].waitForAll == st.threads[t].waitForAll)
    && (forall t | t in st.ready :: t in st'.ready)
    && (forall t | t in st'.ready :: t in st.ready || (t in st.threads && st.threads[t].status == Sleeping))
  }

  ghost predicate Woke(st: State, r: Result) {
    r.Ok? ==> Wakes(st, r.state)
  }

  lemma WokeTrans(a: State, b: State, r: Result)
    requires Wakes(a, b) && Woke(b, r)
    ensures Woke(a, r)
  {
  }

  /** Nothing but objects changed. */
  lemma WakesNobody(st: State, st': State)
    requires st'.threads == st.threads && st'.ready == st.ready && st'.waiting == st.waiting && st'.now == st.now
    requires st'.nextTid == st.nextTid
    ensures Wakes(st, st')
  {
  }

  lemma ReadyWoke(st: State, o: Oid)
    requires Core(st) && o in st.subjects
    ensures Woke(st, OnResourceReady(st, o))
  {
    hide Core, OnResourceReady;
    ReadyOnlyWakes(st, o);
  }

  lemma {:induction false} TimersWoke(st: State, timers: seq<Oid>)
    requires Core(st)
    ensures Woke(st, RunTimers(st, timers))
    decreases |timers|
  {
    hide Core, OnResourceReady, Wakes, Calmer, SameNames, KeepsReady;
    WakesNobody(st, st);
    if timers != [] {
      if timers[0] in st.subjects && Expired(st, timers[0]) {
        ReadyWoke(st, timers[0]);
        ReadyKeeps(st, timers[0]);
        var r := OnResourceReady(st, timers[0]);
        if r.Ok? {
          TimersWoke(r.state, timers[1..]);
          WokeTrans(st, r.state, RunTimers(r.state, timers[1..]));
        }
      } else {
        TimersWoke(st, timers[1..]);
      }
    }
  }

  /** Changing the books of o and announcing it. */
  lemma AnnounceWoke(st: State, o: Oid, s: Subject)
    requires Core(st) && o in st.subjects && s.observers == st.subjects[o].observers
    requires SameKind(st.subjects[o].resource, s.resource) && SubjectOk(s)
    ensures Woke(st, OnResourceReady(Restocked(st, o, s), o)) && Wakes(st, Restocked(st, o, s))
    ensures OnResourceReady(Restocked(st, o, s), o).Ok? ==> Core(OnResourceReady(Restocked(st, o, s), o).state)
  {
    hide Core, OnResourceReady, Wakes, Quiet, SameNames, KeepsReady;
    RestockKeeps(st, o, s);
    RestockAndAnnounce(st, o, s);
    WakesNobody(st, Restocked(st, o, s));
    ReadyWoke(Restocked(st, o, s), o);
    WokeTrans(st, Restocked(st, o, s), OnResourceReady(Restocked(st, o, s), o));
  }

  lemma {:induction false} InterruptsWoke(st: State, events: seq<Oid>)
    requires Core(st)
    ensures Woke(st, FireInterrupts(st, events))
    decreases |events|
  {
    hide Core, OnResourceReady, Wakes;
    WakesNobody(st, st);
    if events != [] && events[0] in st.subjects && st.subjects[events[0]].resource.Event? {
      var e := events[0];
      var s := st.subjects[e].(resource := st.subjects[e].resource.(signalled := true));
      SubjectInOrder(st, e);
      AnnounceWoke(st, e, s);
      var r := OnResourceReady(Restocked(st, e, s), e);
      if r.Ok? {
        InterruptsWoke(r.state, events[1..]);
        WokeTrans(st, r.state, FireInterrupts(r.state, events[1..]));
      }
    }
  }

  lemma SubjectInOrder(st: State, o: Oid)
    requires Core(st) && o in st.subjects
    ensures SubjectOk(st.subjects[o])
  {
  }

  lemma {:induction false} ReleaseOwnedWoke(st: State, held: seq<Oid>, t: Tid)
    requires Core(st)
    ensures Woke(st, ReleaseOwned(st, held, t))
    decreases |held|
  {
    hide Core, OnResourceReady, Wakes;
    WakesNobody(st, st);
    if held != [] {
      var o := held[0];
      if o in st.subjects && IsOwner(st.subjects[o].resource, t) {
        SubjectInOrder(st, o);
        assert ReleaseMutex(st, o) == Restocked(st, o, Unlocked(st.subjects[o]));
        AnnounceWoke(st, o, Unlocked(st.subjects[o]));
        var r := OnResourceReady(ReleaseMutex(st, o), o);
        if r.Ok? {
          ReleaseOwnedWoke(r.state, held[1..], t);
          WokeTrans(st, r.state, ReleaseOwned(r.state, held[1..], t));
        }
      } else {
        ReleaseOwnedWoke(st, held[1..], t);
      }
    }
  }

  // ---------------------------------------------------------------------------
  // Events
  // ---------------------------------------------------------------------------

  /** An object that nobody can acquire wakes nobody. */
  lemma UnavailableWakesNobody(st: State, o: Oid)
    requires Core(st) && o in st.subjects
    requires forall t | t in st.threads :: TryAcquireImpl(st, st.subjects[o].resource, t) == Unavailable
    ensures OnResourceReady(st, o) == Ok(st)
  {
    if st.subjects[o].observers != [] {
      FrontSleeps(st, o);
      hide Core;
    }
  }

  /** The loop on a signalled one-shot event with an observer. */
  lemma OneShotGoesToFirst(st: State, e: Oid)
    requires Core(st) && e in st.subjects && st.subjects[e].resource == Event(true, OneShot) && st.subjects[e].observers != []
    ensures var u := st.subjects[e].observers[0];
            && u in st.threads && OnResourceReady(st, e).Ok? && Grants(st, OnResourceReady(st, e).state, e, u)
  {
    FrontSleeps(st, e);
    var u := st.subjects[e].observers[0];
    assert TryAcquire(st, e, u).Got?;
    hide Core, NoLostWakeup, OnResourceAcquired, SameNames, Calmer, KeepsReady;
    GrantStep(st, e, u);
    GrantRound(st, e, u);
    hide TryAcquire;
    var st2 := OnResourceAcquired(TryAcquire(st, e, u).state, u, e).state;
    UnavailableWakesNobody(st2, e);
  }

  lemma SignalIs(st: State, t: Tid, e: Oid)
    requires t in st.threads && e in st.subjects && st.subjects[e].resource.Event?
    ensures Perform(st, t, SignalEvent(Object(e)))
            == OnResourceReady(SetResource(st, e, st.subjects[e].resource.(signalled := true)), e)
  {
    hide OnResourceReady, Wait, ExitThreads, SpawnThread, Reschedule, AddSubject;
  }

  /** Signalling a one-shot event gives it to the first observer and to nobody else; without an observer
      the event stays signalled. */
  lemma SignalOneShot(st: State, t: Tid, e: Oid)
    requires Inv(st) && t in st.threads && e in st.subjects && st.subjects[e].resource == Event(false, OneShot)
    ensures var r := Perform(st, t, SignalEvent(Object(e)));
            && r.Ok?
            && (st.subjects[e].observers == [] ==>
                  r.state == SetResource(st, e, Event(true, OneShot)))
            && (st.subjects[e].observers != [] ==>
                  var u := st.subjects[e].observers[0];
                  && e in r.state.subjects
                  && r.state.subjects[e].resource == Event(false, OneShot) && r.state.subjects[e].taken == st.subjects[e].taken + 1
                  && u in st.threads && e in st.threads[u].waitList
                  && r.state.threads == st.threads[u := Granted(st.threads[u].(acquired := st.threads[u].acquired + [e]), e)])
  {
    hide Perform, Core, NoLostWakeup, Granted;
    var s := st.subjects[e].(resource := Event(true, OneShot));
    assert SetResource(st, e, Event(true, OneShot)) == Restocked(st, e, s);
    SignalIs(st, t, e);
    RestockKeeps(st, e, s);
    if st.subjects[e].observers != [] {
      hide OnResourceReady;
      OneShotGoesToFirst(Restocked(st, e, s), e);
    }
  }

  // ---------------------------------------------------------------------------
  // Semaphores
  // ---------------------------------------------------------------------------

  /** The books of a semaphore after a release. */
  ghost function Refilled(s: Subject, times: int): Subject
    requires s.resource.Semaphore?
  {
    if 0 <= times <= s.resource.max - s.resource.available
    then s.(resource := s.resource.(available := s.resource.available + times), given := s.given + times)
    else s
  }

  lemma ReleaseIs(st: State, t: Tid, o: Oid, times: int)
    requires t in st.threads && o in st.subjects && st.subjects[o].resource.Semaphore?
    ensures Perform(st, t, ReleaseSemaphore(Object(o), times))
            == OnResourceReady(Restocked(st, o, Refilled(st.subjects[o], times)), o)
  {
    hide OnResourceReady, Wait, ExitThreads, SpawnThread, Reschedule, AddSubject, ReleaseSemaphoreOn, Refilled;
    ReleaseOnIs(st, o, times);
  }

  lemma ReleaseOnIs(st: State, o: Oid, times: int)
    requires o in st.subjects && st.subjects[o].resource.Semaphore?
    ensures ReleaseSemaphoreOn(st, o, times) == OnResourceReady(Restocked(st, o, Refilled(st.subjects[o], times)), o)
  {
    hide OnResourceReady;
    assert Restocked(st, o, st.subjects[o]) == st;
  }

  /** A release that fits adds exactly that many units, one that does not adds none; afterwards either
      nothing is available or nobody waits, and what is missing went to threads. */
  lemma ReleaseAddsUnits(st: State, t: Tid, o: Oid, times: int)
    requires Inv(st) && t in st.threads && o in st.subjects && st.subjects[o].resource.Semaphore?
    ensures var r := Perform(st, t, ReleaseSemaphore(Object(o), times));
            r.Ok? ==>
              var s := st.subjects[o];
              var added := if 0 <= times <= s.resource.max - s.resource.available then times else 0;
              && o in r.state.subjects && r.state.subjects[o].resource.Semaphore?
              && var s' := r.state.subjects[o];
              && s'.given == s.given + added
              && s'.resource.available == s.resource.available + added - (s'.taken - s.taken)
              && (s'.resource.available == 0 || s'.observers == [])
  {
    hide Perform, OnResourceReady;
    var s := st.subjects[o];
    assert SubjectOk(s);
    hide Core, NoLostWakeup, Quiet, KeepsReady, OnlyWakes, SameNames;
    var s1 := Refilled(s, times);
    var st1 := Restocked(st, o, s1);
    ReleaseIs(st, t, o, times);
    RestockKeeps(st, o, s1);
    RestockAndAnnounce(st, o, s1);
    ReadyOnlyWakes(st1, o);
    ReadyKeeps(st1, o);
    var r := OnResourceReady(st1, o);
    if r.Ok? {
      KeptParts(st1, r);
      SemaphoreBooks(st1, r.state, o);
    }
  }

  lemma KeptParts(st: State, r: Result)
    requires Kept(st, r) && r.Ok?
    ensures Core(r.state) && SameNames(st, r.state)
  {
  }

  lemma SemaphoreBooks(st: State, st': State, o: Oid)
    requires Core(st') && o in st.subjects && st.subjects[o].resource.Semaphore? && SubjectOk(st.subjects[o])
    requires OnlyWakes(st, st', o) && SameNames(st, st') && Quiet(st', o)
    ensures var s, s' := st.subjects[o], st'.subjects[o];
            && s'.resource.Semaphore? && s'.given == s.given
            && s'.resource.available == s.resource.available - (s'.taken - s.taken)
            && (s'.resource.available == 0 || s'.observers == [])
  {
    assert SubjectOk(st'.subjects[o]);
  }

  // ---------------------------------------------------------------------------
  // Mutexes
  // ---------------------------------------------------------------------------

  /** A locked mutex stays with its owner. */
  lemma {:induction false} LockedStays(st: State, o: Oid, u: Tid)
    requires Core(st) && o in st.subjects && u in st.threads
    requires st.subjects[o].resource.Mutex? && st.subjects[o].resource.lockCount > 0 && st.subjects[o].resource.owner == Some(u)
    ensures OnResourceReady(st, o).Ok?
    ensures var st' := OnResourceReady(st, o).state;
            && o in st'.subjects && st'.subjects[o].resource.Mutex?
            && st'.subjects[o].resource.lockCount > 0 && st'.subjects[o].resource.owner == Some(u)
    decreases |st.subjects[o].observers|
  {
    hide Core, TryAcquire, OnResourceAcquired, Calmer, SameNames, KeepsReady, OnlyWakes;
    if st.subjects[o].observers != [] {
      var t := st.subjects[o].observers[0];
      FrontSleeps(st, o);
      LockedTry(st, o, t, u);
      if TryAcquire(st, o, t).Got? {
        GrantStep(st, o, t);
        GrantRound(st, o, t);
        LockedStays(OnResourceAcquired(TryAcquire(st, o, t).state, t, o).state, o, u);
      }
    }
  }

  /** Only its owner can lock it again. */
  lemma LockedTry(st: State, o: Oid, t: Tid, u: Tid)
    requires o in st.subjects && u in st.threads && t in st.threads && t in st.subjects[o].observers
    requires st.subjects[o].resource.Mutex? && st.subjects[o].resource.lockCount > 0 && st.subjects[o].resource.owner == Some(u)
    ensures !TryAcquire(st, o, t).Aborted?
    ensures TryAcquire(st, o, t).Got? ==> t == u
  {
  }

  lemma UnlockIs(st: State, t: Tid, o: Oid)
    requires t in st.threads && o in st.subjects && IsOwner(st.subjects[o].resource, t)
    ensures var st1 := Restocked(st, o, Unlocked(st.subjects[o]));
            Perform(st, t, UnlockMutex(Object(o)))
            == if st.subjects[o].resource.lockCount == 1 then OnResourceReady(st1, o) else Ok(st1)
  {
    hide OnResourceReady, Wait, ExitThreads, SpawnThread, Reschedule, AddSubject, ReleaseSemaphoreOn, RemoveAll, Drop, SetThread,
         SetResource, SameShape;
    assert ReleaseMutex(st, o) == Restocked(st, o, Unlocked(st.subjects[o]));
  }

  /** A free mutex goes to its first observer. */
  lemma FreeMutexGoesToFirst(st: State, o: Oid)
    requires Core(st) && o in st.subjects && st.subjects[o].resource.Mutex? && st.subjects[o].resource.lockCount == 0
    requires st.subjects[o].observers != []
    ensures OnResourceReady(st, o).Ok?
    ensures var st' := OnResourceReady(st, o).state;
            && o in st'.subjects && st'.subjects[o].resource.Mutex?
            && st'.subjects[o].resource.lockCount > 0 && st'.subjects[o].resource.owner == Some(st.subjects[o].observers[0])
  {
    FrontSleeps(st, o);
    var u := st.subjects[o].observers[0];
    assert TryAcquire(st, o, u).Got?;
    hide Core, OnResourceAcquired, SameNames, Calmer, KeepsReady;
    GrantStep(st, o, u);
    GrantRound(st, o, u);
    hide TryAcquire;
    LockedStays(OnResourceAcquired(TryAcquire(st, o, u).state, u, o).state, o, u);
  }

  /** Releasing the last lock hands the mutex to the first observer; releasing an inner one keeps the owner. */
  lemma UnlockHandsOver(st: State, t: Tid, o: Oid)
    requires Inv(st) && t in st.threads && o in st.subjects && IsOwner(st.subjects[o].resource, t)
    ensures var r := Perform(st, t, UnlockMutex(Object(o)));
            && r.Ok? && o in r.state.subjects && r.state.subjects[o].resource.Mutex?
            && var m, m' := st.subjects[o].resource, r.state.subjects[o].resource;
            && (m.lockCount > 1 ==> m' == Mutex(m.lockCount - 1, Some(t)) && r.state.threads == st.threads)
            && (m.lockCount == 1 && st.subjects[o].observers == [] ==> m' == Mutex(0, None))
            && (m.lockCount == 1 && st.subjects[o].observers != [] ==>
                  m'.lockCount > 0 && m'.owner == Some(st.subjects[o].observers[0]))
  {
    hide Perform;
    var s := st.subjects[o];
    assert SubjectOk(s);
    hide Core, NoLostWakeup, KeepsReady, SameNames, Quiet;
    UnlockIs(st, t, o);
    RestockKeeps(st, o, Unlocked(s));
    if s.resource.lockCount == 1 && s.observers != [] {
      hide OnResourceReady;
      FreeMutexGoesToFirst(Restocked(st, o, Unlocked(s)), o);
    }
  }

  // ---------------------------------------------------------------------------
  // All calls on objects
  // ---------------------------------------------------------------------------

  /** A call that announces or retires an object touches no thread but sleeping ones. */
  lemma ObjectCallWoke(st: State, t: Tid, call: Call)
    requires Inv(st) && t in st.threads
    requires call.SignalEvent? || call.ClearEvent? || call.ReleaseSemaphore? || call.UnlockMutex?
             || call.CloseMutex? || call.SetTimer?
    ensures Woke(st, Perform(st, t, call))
  {
    hide Core, NoLostWakeup, OnResourceReady, Wakes, ReleaseSemaphoreOn, Wait, ExitThreads, SpawnThread, Reschedule, AddSubject;
    WakesNobody(st, st);
    var h := call.target;
    if Names(st, h) {
      var o := h.id;
      var s := st.subjects[o];
      SubjectInOrder(st, o);
      if s.resource.Event? {
        AnnounceWoke(st, o, s.(resource := s.resource.(signalled := call.SignalEvent?)));
      } else if s.resource.Semaphore? && call.ReleaseSemaphore? {
        ReleaseOnIs(st, o, call.times);
        AnnounceWoke(st, o, Refilled(s, call.times));
      } else if IsOwner(s.resource, t) {
        assert ReleaseMutex(st, o) == Restocked(st, o, Unlocked(s));
        AnnounceWoke(st, o, Unlocked(s));
      } else if s.resource.Timer? && call.SetTimer? && call.initial >= 0 && call.interval >= 0 {
        AnnounceWoke(st, o, s.(resource := Timer(true, s.resource.reset, st.now + call.initial, call.interval)));
      }
    }
  }

  // ---------------------------------------------------------------------------
  // Ending threads
  // ---------------------------------------------------------------------------

  /** A thread that ended is stopped, registered nowhere and in no ready queue entry, and nobody waits for
      its end any more. */
  lemma ExitStops(st: State, t: Tid, held: seq<Oid>)
    requires Inv(st) && t in st.threads && ExitThread(st, t, held).Ok?
    ensures var st' := ExitThread(st, t, held).state;
            && t in st'.threads && st'.threads[t].status == Stopped && t !in st'.ready
            && (forall o | o in st'.subjects :: t !in st'.subjects[o].observers)
            && st'.threads[t].subject in st'.subjects && st'.subjects[st'.threads[t].subject].observers == []
  {
    ExitedStatus(st, t, held);
    ExitSound(st, t, held);
    var st' := ExitThread(st, t, held).state;
    hide ExitThread;
    assert ThreadOk(st'.threads[t]);
    forall o | o in st'.subjects
      ensures t !in st'.subjects[o].observers
    {
      assert Observes(st', t, o) == Awaits(st', t, o);
    }
    SubjectExists(st', t);
    assert Quiet(st', st'.threads[t].subject);
  }

  lemma ExitedStatus(st: State, t: Tid, held: seq<Oid>)
    requires Inv(st) && t in st.threads && ExitThread(st, t, held).Ok?
    ensures t in ExitThread(st, t, held).state.threads && ExitThread(st, t, held).state.threads[t].status == Stopped
  {
    hide Core, NoLostWakeup, SameNames, KeepsReady, ReleaseOwned, OnResourceReady, UnregisterAll, OnlyWakes, Quiet, Calmer;
    if st.threads[t].status != Stopped {
      ReleaseOwnedSettles(st, held, t);
      SettlesSound(st, ReleaseOwned(st, held, t));
      var st1 := ReleaseOwned(st, held, t).state;
      var th := Ended(st1.threads[t]);
      var ready := RemoveAll(st1.ready, t);
      GiveUpKeeps(st1, t, th, ready);
      var st2 := UnregisterAll(st1, st1.threads[t].waitList, t).state;
      var st3 := SetThread(st2, t, th).(ready := ready);
      assert st3.ready == RemoveAll(st2.ready, t);
      ReadyOnlyWakes(st3, th.subject);
      LeavesAwake(st3, OnResourceReady(st3, th.subject).state, th.subject, t);
    }
  }

  lemma LeavesAwake(st: State, st': State, o: Oid, t: Tid)
    requires OnlyWakes(st, st', o) && t in st.threads && st.threads[t].status != Sleeping
    ensures t in st'.threads && st'.threads[t] == st.threads[t]
  {
  }
}
