/**
  Who is served when an object is announced, and what is left of the object, said
  of the objects and threads themselves: events that stay signalled, timers of the
  three kinds, events bound to interrupts.
 */
module KernelServing {
  import opened Options
  import opened Lists
  import opened Kernel
  import opened KernelInvariants
  import opened KernelRuns
  import opened KernelEffects

  // ---------------------------------------------------------------------------
  // Objects that serve everybody
  // ---------------------------------------------------------------------------

  /** Whoever asks gets the object, and it stays as it is. */
  ghost predicate Lasting(st: State, o: Oid)
    requires o in st.subjects
  {
    match st.subjects[o].resource
    case Event(signalled, reset) => signalled && reset == Sticky
    case Timer(active, reset, deadline, period) =>
      active && deadline <= st.now && (reset == Sticky || (reset == Pulse && deadline == st.now && period == 0))
    case ThreadEnd(u) => u !in st.threads || st.threads[u].status == Stopped
    case _ => false
  }

  /** A thread that slept on o has been given o as often as it asked for it: a wait for any object is over
      with just that one, and a wait for all goes on exactly if it lacks something else. */
  ghost predicate Served(th: Thread, th': Thread, o: Oid) {
    && o !in th'.waitList && th'.waitForAll == th.waitForAll
    && th'.status == (if th'.waitList == [] then Ready else Sleeping)
    && (!th.waitForAll ==> th'.waitList == [] && th'.acquired == [o])
    && (th.waitForAll ==>
          && (forall p: Oid | p != o :: Count(th'.waitList, p) == Count(th.waitList, p)
                                        && Count(th'.acquired, p) == Count(th.acquired, p))
          && Count(th'.acquired, o) == Count(th.acquired, o) + Count(th.waitList, o))
  }

  /** The thread after o was acquired for it once. */
  ghost function Once(th: Thread, o: Oid): Thread
    requires o in th.waitList
  {
    Granted(th.(acquired := th.acquired + [o]), o)
  }

  lemma OnceCounts(th: Thread, o: Oid)
    requires ThreadOk(th) && o in th.waitList
    ensures var th1 := Once(th, o);
            && th1.waitForAll == th.waitForAll
            && (th1.status == if th1.waitList == [] then Ready else Sleeping)
            && (!th.waitForAll ==> Served(th, th1, o))
            && (th.waitForAll ==> forall p: Oid ::
                  && Count(th1.waitList, p) + (if p == o then 1 else 0) == Count(th.waitList, p)
                  && Count(th1.acquired, p) == Count(th.acquired, p) + (if p == o then 1 else 0))
  {
    var i := IndexOf(th.waitList, o);
    forall p: Oid
      ensures Count(th.acquired + [o], p) == Count(th.acquired, p) + (if p == o then 1 else 0)
      ensures Count(RemoveAt(th.waitList, i), p) + (if p == o then 1 else 0) == Count(th.waitList, p)
    {
      CountConcat(th.acquired, [o], p);
      RemoveAtCount(th.waitList, i, p);
    }
  }

  /** The last acquisition of o completes the service, and one more before it does not matter. */
  lemma OnceServed(th: Thread, o: Oid, th': Thread)
    requires ThreadOk(th) && o in th.waitList
    requires if o in Once(th, o).waitList then Served(Once(th, o), th', o) else th' == Once(th, o)
    ensures Served(th, th', o)
  {
    OnceCounts(th, o);
    hide Granted, ThreadOk;
    var th1 := Once(th, o);
    if th.waitForAll {
      assert Count(th1.waitList, o) + 1 == Count(th.waitList, o);
    }
  }

  /** One round of the loop: the front observer was asleep on o and has acquired it once. */
  lemma Round(st: State, o: Oid)
    requires Core(st) && o in st.subjects && st.subjects[o].observers != []
    requires TryAcquire(st, o, st.subjects[o].observers[0]).Got?
    ensures var t := st.subjects[o].observers[0];
            var r := OnResourceAcquired(TryAcquire(st, o, t).state, t, o);
            && t in st.threads && o in st.threads[t].waitList && ThreadOk(st.threads[t])
            && r.Ok? && Core(r.state) && Grants(st, r.state, o, t) && r.state.now == st.now
            && |r.state.subjects[o].observers| < |st.subjects[o].observers|
            && OnResourceReady(st, o) == OnResourceReady(r.state, o)
            && r.state.threads == st.threads[t := Once(st.threads[t], o)]
            && (forall u | u in st.threads && u != t ::
                  u in r.state.subjects[o].observers <==> u in st.subjects[o].observers)
            && (t in r.state.subjects[o].observers <==> o in r.state.threads[t].waitList)
  {
    hide Core, Calmer, SameNames, KeepsReady, TryAcquire, OnResourceAcquired, ThreadOk, Granted, TryAcquireImpl;
    var t := st.subjects[o].observers[0];
    FrontSleeps(st, o);
    RecordOk(st, t);
    GrantStep(st, o, t);
    GrantRound(st, o, t);
    var st2 := OnResourceAcquired(TryAcquire(st, o, t).state, t, o).state;
    SameObservers(st, st2, o, t);
  }

  /** Whoever did not change waits as before. */
  lemma SameObservers(st: State, st2: State, o: Oid, t: Tid)
    requires Core(st) && Core(st2) && o in st.subjects && o in st2.subjects && st2.threads.Keys == st.threads.Keys
    requires forall u | u in st.threads && u != t :: st2.threads[u] == st.threads[u]
    ensures forall u | u in st.threads && u != t :: u in st2.subjects[o].observers <==> u in st.subjects[o].observers
    ensures forall u | u in st2.threads :: u in st2.subjects[o].observers <==> o in st2.threads[u].waitList
  {
    forall u | u in st.threads
      ensures Observes(st, u, o) == Awaits(st, u, o) && Observes(st2, u, o) == Awaits(st2, u, o)
    {
    }
    hide Core;
  }

  lemma LastingTry(st: State, o: Oid, t: Tid)
    requires o in st.subjects && t in st.threads && t in st.subjects[o].observers && Lasting(st, o)
    ensures TryAcquire(st, o, t).Got? && TryAcquire(st, o, t).state.subjects[o].resource == st.subjects[o].resource
    ensures TryAcquireImpl(st, st.subjects[o].resource, t) == Acquired(st.subjects[o].resource)
  {
  }

  /** Announcing such an object serves every observer, and nobody else; it stays as it was. */
  lemma {:induction false} LastingServesAll(st: State, o: Oid)
    requires Core(st) && o in st.subjects && Lasting(st, o)
    ensures var r := OnResourceReady(st, o);
            && r.Ok? && o in r.state.subjects
            && r.state.subjects[o].resource == st.subjects[o].resource && r.state.subjects[o].observers == []
            && r.state.threads.Keys == st.threads.Keys
            && forall t | t in st.threads ::
                 if t in st.subjects[o].observers then Served(st.threads[t], r.state.threads[t], o)
                 else r.state.threads[t] == st.threads[t]
    decreases |st.subjects[o].observers|
  {
    hide Core, TryAcquire, OnResourceAcquired, Granted, ThreadOk, Served, TryAcquireImpl;
    if st.subjects[o].observers != [] {
      var t := st.subjects[o].observers[0];
      FrontSleeps(st, o);
      LastingTry(st, o, t);
      Round(st, o);
      hide OnResourceReady;
      var st2 := OnResourceAcquired(TryAcquire(st, o, t).state, t, o).state;
      StillLasting(st, st2, o, t);
      LastingServesAll(st2, o);
      ThenServed(st, st2, OnResourceReady(st2, o).state, o, t);
    }
  }

  lemma StillLasting(st: State, st2: State, o: Oid, t: Tid)
    requires o in st.subjects && o in st2.subjects && t in st.threads && t in st2.threads && Lasting(st, o)
    requires st2.subjects[o].resource == st.subjects[o].resource && st2.now == st.now
    requires st2.threads == st.threads[t := st2.threads[t]] && st.threads[t].status == Sleeping
    ensures Lasting(st2, o)
  {
  }

  /** t acquired o once, and then everybody else was served. */
  lemma ThenServed(st: State, st2: State, st': State, o: Oid, t: Tid)
    requires o in st.subjects && o in st2.subjects && t in st.threads && t in st.subjects[o].observers
    requires o in st.threads[t].waitList && ThreadOk(st.threads[t]) && st2.threads == st.threads[t := Once(st.threads[t], o)]
    requires forall u | u in st.threads && u != t :: u in st2.subjects[o].observers <==> u in st.subjects[o].observers
    requires t in st2.subjects[o].observers <==> o in st2.threads[t].waitList
    requires st'.threads.Keys == st2.threads.Keys
    requires forall u | u in st2.threads ::
               if u in st2.subjects[o].observers then Served(st2.threads[u], st'.threads[u], o)
               else st'.threads[u] == st2.threads[u]
    ensures forall u | u in st.threads ::
              if u in st.subjects[o].observers then Served(st.threads[u], st'.threads[u], o)
              else st'.threads[u] == st.threads[u]
  {
    hide Granted, ThreadOk, Served;
    OnceServed(st.threads[t], o, st'.threads[t]);
  }

  /** Signalling a sticky event leaves it signalled, with nobody asleep on it: every observer has it. */
  lemma SignalSticky(st: State, t: Tid, e: Oid)
    requires Inv(st) && t in st.threads && e in st.subjects && st.subjects[e].resource == Event(false, Sticky)
    ensures var r := Perform(st, t, SignalEvent(Object(e)));
            && r.Ok? && e in r.state.subjects
            && r.state.subjects[e].resource == Event(true, Sticky) && r.state.subjects[e].observers == []
            && r.state.threads.Keys == st.threads.Keys
            && forall u | u in st.threads ::
                 && (u !in st.subjects[e].observers ==> r.state.threads[u] == st.threads[u])
                 && (u in st.subjects[e].observers ==>
                       && Served(st.threads[u], r.state.threads[u], e)
                       && (!st.threads[u].waitForAll ==>
                             && r.state.threads[u].status == Ready && r.state.threads[u].acquired == [e]
                             && u in r.state.ready))
  {
    hide Perform, Core, NoLostWakeup, Served, OnResourceReady;
    var s := st.subjects[e].(resource := Event(true, Sticky));
    assert SetResource(st, e, Event(true, Sticky)) == Restocked(st, e, s);
    SignalIs(st, t, e);
    RestockKeeps(st, e, s);
    var st1 := Restocked(st, e, s);
    LastingServesAll(st1, e);
    ReadyOnlyWakes(st1, e);
    forall u | u in st.subjects[e].observers && u in st.threads
      ensures st.threads[u].status == Sleeping
      ensures !st.threads[u].waitForAll ==> OnResourceReady(st1, e).state.threads[u].status == Ready
                                            && OnResourceReady(st1, e).state.threads[u].acquired == [e]
    {
      ObserverAsleep(st, e, u);
      ServedAny(st.threads[u], OnResourceReady(st1, e).state.threads[u], e);
    }
  }

  lemma ObserverAsleep(st: State, o: Oid, t: Tid)
    requires Core(st) && o in st.subjects && t in st.subjects[o].observers
    ensures t in st.threads && st.threads[t].status == Sleeping
  {
    ObserverSleeps(st, o, t);
  }

  lemma ServedAny(th: Thread, th': Thread, o: Oid)
    requires Served(th, th', o)
    ensures !th.waitForAll ==> th'.status == Ready && th'.acquired == [o]
  {
  }

  // ---------------------------------------------------------------------------
  // Timers
  // ---------------------------------------------------------------------------

  /** An expired timer that serves one thread at a time. */
  lemma TimerTry(st: State, o: Oid, t: Tid)
    requires o in st.subjects && t in st.threads && t in st.subjects[o].observers && Expired(st, o)
    ensures TryAcquire(st, o, t).Got?
    ensures var tm := st.subjects[o].resource;
            TryAcquireImpl(st, tm, t)
            == Acquired(match tm.reset
                        case OneShot => Timer(false, OneShot, tm.deadline, tm.period)
                        case Sticky => tm
                        case Pulse => Timer(true, Pulse, st.now + tm.period, tm.period))
  {
  }

  lemma QuietTimer(st: State, o: Oid)
    requires Core(st) && o in st.subjects && st.subjects[o].resource.Timer? && !Expired(st, o)
    ensures OnResourceReady(st, o) == Ok(st)
  {
    UnavailableWakesNobody(st, o);
  }

  /** An expired timer with observers. A one-shot timer is off afterwards, and a pulse timer runs again for its
      period; both serve the first observer and change nobody else. A sticky timer stays
      expired, and a pulse timer without a period expires again at once: they serve everybody. */
  lemma TimerServes(st: State, o: Oid)
    requires Core(st) && o in st.subjects && Expired(st, o) && st.subjects[o].observers != []
    ensures var tm := st.subjects[o].resource;
            var u := st.subjects[o].observers[0];
            var r := OnResourceReady(st, o);
            && r.Ok? && o in r.state.subjects && r.state.threads.Keys == st.threads.Keys
            && r.state.subjects[o].resource == (match tm.reset
                                                case OneShot => Timer(false, OneShot, tm.deadline, tm.period)
                                                case Sticky => tm
                                                case Pulse => Timer(true, Pulse, st.now + tm.period, tm.period))
            && (if tm.reset == OneShot || (tm.reset == Pulse && tm.period > 0)
                then u in st.threads && o in st.threads[u].waitList
                     && r.state.threads == st.threads[u := Once(st.threads[u], o)]
                else r.state.subjects[o].observers == []
                     && forall t | t in st.threads ::
                          if t in st.subjects[o].observers then Served(st.threads[t], r.state.threads[t], o)
                          else r.state.threads[t] == st.threads[t])
  {
    hide Core, TryAcquire, OnResourceAcquired, OnResourceReady, Granted, ThreadOk, Served, TryAcquireImpl;
    var tm := st.subjects[o].resource;
    var u := st.subjects[o].observers[0];
    if tm.reset == Sticky {
      LastingServesAll(st, o);
    } else {
      FrontSleeps(st, o);
      TimerTry(st, o, u);
      Round(st, o);
      var st2 := OnResourceAcquired(TryAcquire(st, o, u).state, u, o).state;
      if tm.reset == Pulse && tm.period == 0 {
        assert Lasting(st2, o);
        LastingServesAll(st2, o);
        ThenServed(st, st2, OnResourceReady(st2, o).state, o, u);
      } else {
        QuietTimer(st2, o);
      }
    }
  }

  // ---------------------------------------------------------------------------
  // Interrupts
  // ---------------------------------------------------------------------------

  /** The event has been signalled since: it still is and nobody waits for it, or somebody has acquired it,
      which a sticky event does not show. */
  ghost predicate Signalled(s: Subject, s': Subject) {
    && s'.resource.Event? && s.resource.Event? && s'.resource.reset == s.resource.reset
    && (s'.resource.signalled ==> s'.observers == [])
    && (s'.resource.signalled || (s.resource.reset == OneShot && s'.taken > s.taken))
  }

  lemma EventAnnounced(st: State, e: Oid)
    requires Core(st) && e in st.subjects && st.subjects[e].resource.Event? && st.subjects[e].resource.signalled
    ensures OnResourceReady(st, e).Ok? && e in OnResourceReady(st, e).state.subjects
    ensures Signalled(st.subjects[e], OnResourceReady(st, e).state.subjects[e])
    ensures st.subjects[e].observers != [] ==> OnResourceReady(st, e).state.subjects[e].taken > st.subjects[e].taken
  {
    assert SubjectOk(st.subjects[e]);
    if st.subjects[e].observers != [] {
      if st.subjects[e].resource.reset == OneShot {
        OneShotGoesToFirst(st, e);
      } else {
        LastingServesAll(st, e);
        TakenGrows(st, e);
      }
    }
  }

  lemma {:induction false} TakenKept(st: State, o: Oid)
    requires Core(st) && o in st.subjects
    ensures OnResourceReady(st, o).Ok? ==>
              o in OnResourceReady(st, o).state.subjects && OnResourceReady(st, o).state.subjects[o].taken >= st.subjects[o].taken
    decreases |st.subjects[o].observers|
  {
    if st.subjects[o].observers != [] {
      FrontSleeps(st, o);
      var t := st.subjects[o].observers[0];
      if TryAcquire(st, o, t).Got? {
        Round(st, o);
        hide Core, TryAcquire, OnResourceAcquired, OnResourceReady;
        TakenKept(OnResourceAcquired(TryAcquire(st, o, t).state, t, o).state, o);
      }
    }
  }

  lemma TakenGrows(st: State, o: Oid)
    requires Core(st) && o in st.subjects && st.subjects[o].observers != [] && Lasting(st, o)
    ensures OnResourceReady(st, o).Ok? ==>
              o in OnResourceReady(st, o).state.subjects && OnResourceReady(st, o).state.subjects[o].taken > st.subjects[o].taken
  {
    FrontSleeps(st, o);
    var t := st.subjects[o].observers[0];
    LastingTry(st, o, t);
    Round(st, o);
    hide Core, TryAcquire, OnResourceAcquired, OnResourceReady;
    TakenKept(OnResourceAcquired(TryAcquire(st, o, t).state, t, o).state, o);
  }

  /** Every event bound to a fired interrupt has been signalled, and no other object was touched. */
  lemma {:induction false} InterruptsSignal(st: State, events: seq<Oid>)
    requires Core(st)
    ensures FireInterrupts(st, events).Ok? ==>
              var st' := FireInterrupts(st, events).state;
              && st'.subjects.Keys == st.subjects.Keys
              && (forall e | e in events :: e in st.subjects && Signalled(st.subjects[e], st'.subjects[e]))
              && (forall o | o in st.subjects && o !in events ::
                    st'.subjects[o].resource == st.subjects[o].resource && st'.subjects[o].taken == st.subjects[o].taken)
              && (forall o | o in st.subjects && st.subjects[o].observers == [] :: st'.subjects[o].observers == [])
              && (forall o | o in st.subjects :: st'.subjects[o].taken >= st.subjects[o].taken)
    decreases |events|
  {
    if events != [] && events[0] in st.subjects && st.subjects[events[0]].resource.Event? {
      var e := events[0];
      var s := st.subjects[e].(resource := st.subjects[e].resource.(signalled := true));
      var st1 := Restocked(st, e, s);
      SubjectInOrder(st, e);
      assert SetResource(st, e, s.resource) == st1;
      hide Core, OnResourceReady;
      RestockKeeps(st, e, s);
      EventAnnounced(st1, e);
      ReadyKeeps(st1, e);
      ReadyOnlyWakes(st1, e);
      TakenKept(st1, e);
      var st2 := OnResourceReady(st1, e).state;
      InterruptsSignal(st2, events[1..]);
      if FireInterrupts(st2, events[1..]).Ok? {
        SignalledThen(st, st1, st2, FireInterrupts(st2, events[1..]).state, events);
      }
    }
  }

  lemma SignalledThen(st: State, st1: State, st2: State, st': State, events: seq<Oid>)
    requires events != [] && events[0] in st.subjects && events[0] in st1.subjects
    requires st1 == Restocked(st, events[0], st1.subjects[events[0]])
    requires var e := events[0];
             && e in st1.subjects && st1.subjects[e].taken == st.subjects[e].taken && st1.subjects[e].observers == st.subjects[e].observers
             && st.subjects[e].resource.Event? && st1.subjects[e].resource == st.subjects[e].resource.(signalled := true)
             && OnlyWakes(st1, st2, e) && Calmer(st1, st2) && Signalled(st1.subjects[e], st2.subjects[e])
    requires st'.subjects.Keys == st2.subjects.Keys
    requires forall e | e in events[1..] :: e in st2.subjects && Signalled(st2.subjects[e], st'.subjects[e])
    requires forall o | o in st2.subjects && o !in events[1..] ::
               st'.subjects[o].resource == st2.subjects[o].resource && st'.subjects[o].taken == st2.subjects[o].taken
    requires forall o | o in st2.subjects && st2.subjects[o].observers == [] :: st'.subjects[o].observers == []
    requires forall o | o in st2.subjects :: st'.subjects[o].taken >= st2.subjects[o].taken
    requires forall o | o in st1.subjects :: st2.subjects[o].taken >= st1.subjects[o].taken
    ensures st'.subjects.Keys == st.subjects.Keys
    ensures forall e | e in events :: e in st.subjects && Signalled(st.subjects[e], st'.subjects[e])
    ensures forall o | o in st.subjects && o !in events ::
              st'.subjects[o].resource == st.subjects[o].resource && st'.subjects[o].taken == st.subjects[o].taken
    ensures forall o | o in st.subjects && st.subjects[o].observers == [] :: st'.subjects[o].observers == []
    ensures forall o | o in st.subjects :: st'.subjects[o].taken >= st.subjects[o].taken
  {
  }
}
