/**
  Nobody waits for itself: over every run no thread is an observer of a mutex
  that it owns. The order of observers matters for this. The registrations of a
  thread with an object stand next to each other, so that a thread which is given
  a mutex has all of them served before another observer stops the loop.
 */
module KernelOwners {
  import opened Options
  import opened Lists
  import opened Kernel
  import opened KernelInvariants
  import opened KernelWaiting
  import opened KernelRuns
  import opened KernelEffects
  import opened KernelTimeouts
  import opened KernelEndings
  import opened KernelWaits
  import opened KernelCalls

  /** Equal entries stand next to each other. */
  ghost predicate Grouped(q: seq<Tid>) {
    forall i, j, k | 0 <= i < j < k < |q| && q[i] == q[k] :: q[j] == q[i]
  }

  /** The entries of t are in front of all others. */
  ghost predicate Leads(q: seq<Tid>, t: Tid) {
    forall i, j | 0 <= i < j < |q| && q[j] == t :: q[i] == t
  }

  ghost predicate Unawaited(s: Subject) {
    forall t | t in s.observers :: !IsOwner(s.resource, t)
  }

  /** No observer but t owns the object. */
  ghost predicate UnawaitedBut(s: Subject, t: Tid) {
    forall u | u in s.observers && u != t :: !IsOwner(s.resource, u)
  }

  ghost predicate OwnOk(s: Subject) {
    Grouped(s.observers) && Unawaited(s)
  }

  ghost predicate Owned(st: State) {
    forall o | o in st.subjects :: OwnOk(st.subjects[o])
  }

  ghost predicate OwnedBut(st: State, t: Tid) {
    forall o | o in st.subjects :: Grouped(st.subjects[o].observers) && UnawaitedBut(st.subjects[o], t)
  }

  ghost predicate StillOwned(r: Result) {
    r.Ok? ==> Owned(r.state)
  }

  // ---------------------------------------------------------------------------
  // Observers come and go
  // ---------------------------------------------------------------------------

  lemma {:induction false} RemoveFirstAt(q: seq<Tid>, x: Tid)
    requires x in q
    ensures RemoveFirst(q, x) == q[..IndexOf(q, x)] + q[IndexOf(q, x) + 1..]
  {
    if q[0] != x {
      RemoveFirstAt(q[1..], x);
      var i := IndexOf(q[1..], x);
      assert [q[0]] + q[1..][..i] == q[..i + 1] && q[1..][i + 1..] == q[i + 2..];
    }
  }

  lemma RemoveFirstGrouped(q: seq<Tid>, x: Tid)
    requires x in q && Grouped(q)
    ensures Grouped(RemoveFirst(q, x))
  {
    RemoveFirstAt(q, x);
    var n := IndexOf(q, x);
    var r := RemoveFirst(q, x);
    hide RemoveFirst, IndexOf;
    forall i, j, k | 0 <= i < j < k < |r| && r[i] == r[k]
      ensures r[j] == r[i]
    {
      var i', j', k' := if i < n then i else i + 1, if j < n then j else j + 1, if k < n then k else k + 1;
      assert q[i'] == r[i] && q[j'] == r[j] && q[k'] == r[k];
    }
  }

  lemma RemoveFirstLeads(q: seq<Tid>, t: Tid)
    requires t in q && Leads(q, t)
    ensures Leads(RemoveFirst(q, t), t)
  {
    assert q[0] == t;
  }

  /** Whoever is at the front of a grouped queue leads it. */
  lemma FrontLeads(q: seq<Tid>)
    requires Grouped(q) && q != []
    ensures Leads(q, q[0]) && Leads(q[1..], q[0]) && Grouped(q[1..])
  {
  }

  lemma GroupedAppend(q: seq<Tid>, t: Tid, n: nat)
    requires Grouped(q) && t !in q
    ensures Grouped(q + Repeated(t, n))
    ensures forall u | u in q + Repeated(t, n) :: u in q || u == t
  {
    RepeatedIs(t, n);
  }

  lemma {:induction false} RepeatedIs(t: Tid, n: nat)
    ensures |Repeated(t, n)| == n && forall i | 0 <= i < n :: Repeated(t, n)[i] == t
  {
    if n > 0 {
      RepeatedIs(t, n - 1);
    }
  }

  lemma ShorterOk(s: Subject, t: Tid)
    requires t in s.observers
    ensures var s' := s.(observers := RemoveFirst(s.observers, t));
            && (OwnOk(s) ==> OwnOk(s'))
            && (Grouped(s.observers) ==> Grouped(s'.observers))
            && forall u | UnawaitedBut(s, u) :: UnawaitedBut(s', u)
  {
    if Grouped(s.observers) {
      RemoveFirstGrouped(s.observers, t);
    }
  }

  lemma {:induction false} UnregisterOwned(st: State, os: seq<Oid>, t: Tid, u: Tid)
    requires UnregisterAll(st, os, t).Ok?
    ensures Owned(st) ==> Owned(UnregisterAll(st, os, t).state)
    ensures OwnedBut(st, u) ==> OwnedBut(UnregisterAll(st, os, t).state, u)
    decreases |os|
  {
    if os != [] {
      ShorterOk(st.subjects[os[0]], t);
      hide OwnOk, Grouped, UnawaitedBut, RemoveFirst;
      UnregisterOwned(Unregister(st, os[0], t), os[1..], t, u);
    }
  }

  // ---------------------------------------------------------------------------
  // Announcing
  // ---------------------------------------------------------------------------

  /** Everything but o is in order, and an owner of o that observes it is in front. */
  ghost predicate OwnerFirst(st: State, o: Oid)
    requires o in st.subjects
  {
    && (forall p | p in st.subjects && p != o :: OwnOk(st.subjects[p]))
    && Grouped(st.subjects[o].observers)
    && forall t | t in st.subjects[o].observers && IsOwner(st.subjects[o].resource, t) :: Leads(st.subjects[o].observers, t)
  }

  /** The front observer takes the object. */
  lemma TakenOwned(st: State, o: Oid)
    requires o in st.subjects && OwnerFirst(st, o) && st.subjects[o].observers != []
    requires st.subjects[o].observers[0] in st.threads && TryAcquire(st, o, st.subjects[o].observers[0]).Got?
    ensures var t := st.subjects[o].observers[0];
            var st1 := TryAcquire(st, o, t).state;
            && t in st1.threads && st1.subjects.Keys == st.subjects.Keys
            && (forall p | p in st.subjects && p != o :: st1.subjects[p] == st.subjects[p])
            && Grouped(st1.subjects[o].observers) && Leads(st1.subjects[o].observers, t) && UnawaitedBut(st1.subjects[o], t)
  {
    var q := st.subjects[o].observers;
    FrontLeads(q);
    assert RemoveFirst(q, q[0]) == q[1..];
  }

  lemma GrantedOwned(st: State, t: Tid, o: Oid)
    requires o in st.subjects && t in st.threads && OnResourceAcquired(st, t, o).Ok?
    requires forall p | p in st.subjects && p != o :: OwnOk(st.subjects[p])
    requires Grouped(st.subjects[o].observers) && Leads(st.subjects[o].observers, t) && UnawaitedBut(st.subjects[o], t)
    ensures OwnerFirst(OnResourceAcquired(st, t, o).state, o)
  {
    var th := st.threads[t];
    var rest := RemoveAt(th.waitList, IndexOf(th.waitList, o));
    hide Grouped, Leads, Granted, RemoveAt, IndexOf;
    if !th.waitForAll {
      DroppedOwned(st, rest, t, o);
      hide UnregisterAll;
    }
  }

  lemma {:induction false} DroppedOwned(st: State, os: seq<Oid>, t: Tid, o: Oid)
    requires o in st.subjects && UnregisterAll(st, os, t).Ok?
    requires forall p | p in st.subjects && p != o :: OwnOk(st.subjects[p])
    requires Grouped(st.subjects[o].observers) && Leads(st.subjects[o].observers, t) && UnawaitedBut(st.subjects[o], t)
    ensures OwnerFirst(UnregisterAll(st, os, t).state, o)
    ensures Leads(UnregisterAll(st, os, t).state.subjects[o].observers, t)
    ensures UnawaitedBut(UnregisterAll(st, os, t).state.subjects[o], t)
    decreases |os|
  {
    if os != [] {
      ShorterOk(st.subjects[os[0]], t);
      if os[0] == o {
        RemoveFirstLeads(st.subjects[o].observers, t);
      }
      hide OwnOk, Grouped, Leads, RemoveFirst, UnawaitedBut;
      DroppedOwned(Unregister(st, os[0], t), os[1..], t, o);
    }
  }

  /** Nothing is left of the loop that could have been served. */
  lemma StoppedOwned(st: State, o: Oid)
    requires o in st.subjects && OwnerFirst(st, o)
    requires st.subjects[o].observers != [] ==>
               st.subjects[o].observers[0] in st.threads && TryAcquire(st, o, st.subjects[o].observers[0]).Missed?
    ensures Owned(st)
  {
    hide Grouped;
    var q := st.subjects[o].observers;
    forall t | t in q
      ensures Leads(q, t) ==> q[0] == t
    {
      var i :| 0 <= i < |q| && q[i] == t;
    }
  }

  lemma GoneOwned(st: State, o: Oid)
    requires o in st.subjects && OwnerFirst(st, o) && st.subjects[o].observers != []
    ensures var s := st.subjects[o];
            OwnerFirst(st.(subjects := st.subjects[o := s.(observers := s.observers[1..])]), o)
  {
    FrontLeads(st.subjects[o].observers);
    var q := st.subjects[o].observers;
    forall t | t in q[1..] && IsOwner(st.subjects[o].resource, t)
      ensures Leads(q[1..], t)
    {
      assert t in q && Leads(q, t);
    }
  }

  lemma {:induction false} ReadyOwned(st: State, o: Oid)
    requires o in st.subjects && OwnerFirst(st, o)
    ensures StillOwned(OnResourceReady(st, o))
    decreases |st.subjects[o].observers|
  {
    hide OwnerFirst, Owned, TryAcquire, OnResourceAcquired, TryAcquireImpl;
    var s := st.subjects[o];
    if s.observers == [] {
      StoppedOwned(st, o);
    } else {
      var t := s.observers[0];
      if t !in st.threads {
        GoneOwned(st, o);
        ReadyOwned(st.(subjects := st.subjects[o := s.(observers := s.observers[1..])]), o);
      } else if TryAcquire(st, o, t).Missed? {
        StoppedOwned(st, o);
      } else if st.threads[t].status == Sleeping && TryAcquire(st, o, t).Got? {
        var st1 := TryAcquire(st, o, t).state;
        TakenRound(st, o);
        if OnResourceAcquired(st1, t, o).Ok? {
          ReadyOwned(OnResourceAcquired(st1, t, o).state, o);
        }
      }
    }
  }

  lemma TakenRound(st: State, o: Oid)
    requires o in st.subjects && OwnerFirst(st, o) && st.subjects[o].observers != []
    requires st.subjects[o].observers[0] in st.threads && TryAcquire(st, o, st.subjects[o].observers[0]).Got?
    ensures var t := st.subjects[o].observers[0];
            var st1 := TryAcquire(st, o, t).state;
            && t in st1.threads && o in st1.subjects && |st1.subjects[o].observers| < |st.subjects[o].observers|
            && (OnResourceAcquired(st1, t, o).Ok? ==> OwnerFirst(OnResourceAcquired(st1, t, o).state, o))
  {
    var t := st.subjects[o].observers[0];
    var st1 := TryAcquire(st, o, t).state;
    assert |st1.subjects[o].observers| < |st.subjects[o].observers|;
    TakenOwned(st, o);
    hide TryAcquire, OnResourceAcquired, Grouped, Leads, UnawaitedBut, OwnOk;
    if OnResourceAcquired(st1, t, o).Ok? {
      GrantedOwned(st1, t, o);
    }
  }

  /** Announcing an object whose observers do not own it. */
  lemma AnnouncedOwned(st: State, o: Oid, s: Subject)
    requires Owned(st) && o in st.subjects && s.observers == st.subjects[o].observers && Unawaited(s)
    ensures StillOwned(OnResourceReady(Restocked(st, o, s), o))
  {
    hide Grouped;
    assert OwnOk(st.subjects[o]);
    assert OwnerFirst(Restocked(st, o, s), o);
    hide Owned, OwnOk, OwnerFirst, OnResourceReady;
    ReadyOwned(Restocked(st, o, s), o);
  }

  lemma JustAnnounced(st: State, o: Oid)
    requires Owned(st) && o in st.subjects
    ensures StillOwned(OnResourceReady(st, o))
  {
    assert OwnOk(st.subjects[o]);
    assert st.subjects == Restocked(st, o, st.subjects[o]).subjects;
    assert st == Restocked(st, o, st.subjects[o]);
    hide Owned, OnResourceReady, Grouped;
    AnnouncedOwned(st, o, st.subjects[o]);
  }

  // ---------------------------------------------------------------------------
  // Time
  // ---------------------------------------------------------------------------

  lemma {:induction false} TimersOwned(st: State, timers: seq<Oid>)
    requires Owned(st)
    ensures StillOwned(RunTimers(st, timers))
    decreases |timers|
  {
    hide Owned, OnResourceReady;
    if timers != [] {
      if timers[0] in st.subjects && Expired(st, timers[0]) {
        JustAnnounced(st, timers[0]);
        var r := OnResourceReady(st, timers[0]);
        if r.Ok? {
          TimersOwned(r.state, timers[1..]);
        }
      } else {
        TimersOwned(st, timers[1..]);
      }
    }
  }

  lemma {:induction false} InterruptsOwned(st: State, events: seq<Oid>)
    requires Owned(st)
    ensures StillOwned(FireInterrupts(st, events))
    decreases |events|
  {
    hide Owned, OnResourceReady;
    if events != [] && events[0] in st.subjects && st.subjects[events[0]].resource.Event? {
      var e := events[0];
      var s := st.subjects[e].(resource := st.subjects[e].resource.(signalled := true));
      AnnouncedOwned(st, e, s);
      var r := OnResourceReady(Restocked(st, e, s), e);
      if r.Ok? {
        InterruptsOwned(r.state, events[1..]);
      }
    }
  }

  lemma ExpireOwned(st: State, t: Tid)
    requires Owned(st) && t in st.threads
    ensures StillOwned(Expire(st, t))
  {
    hide OwnOk;
    if st.threads[t].status == Sleeping && UnregisterAll(st, st.threads[t].waitList, t).Ok? {
      UnregisterOwned(st, st.threads[t].waitList, t, t);
      hide UnregisterAll;
    }
  }

  lemma {:induction false} TimeoutsOwned(st: State, i: nat)
    requires Owned(st) && i <= |st.waiting|
    ensures StillOwned(RunTimeouts(st, i))
    decreases |st.waiting| - i
  {
    hide OwnOk, Expire, RemoveAt;
    if i < |st.waiting| {
      var t := st.waiting[i];
      if t !in st.threads {
        TimeoutsOwned(st.(waiting := RemoveAt(st.waiting, i)), i);
      } else if st.threads[t].timeoutAt <= st.now {
        ExpireOwned(st, t);
        if Expire(st, t).Ok? {
          TimeoutsOwned(Expire(st, t).state.(waiting := RemoveAt(st.waiting, i)), i);
        }
      } else {
        TimeoutsOwned(st, i + 1);
      }
    }
  }

  lemma SameSubjects(st: State, st': State)
    requires Owned(st) && st'.subjects == st.subjects
    ensures Owned(st')
  {
  }

  lemma ElapseOwned(st: State, tick: Tick)
    requires Owned(st)
    ensures StillOwned(ElapseTime(st, tick))
  {
    hide Owned, RunTimers, FireInterrupts, RunTimeouts;
    var st0 := st.(now := st.now + tick.elapsed);
    SameSubjects(st, st0);
    TimersOwned(st0, st0.timers);
    var r1 := RunTimers(st0, st0.timers);
    if r1.Ok? {
      InterruptsOwned(r1.state, tick.fired);
      var r2 := FireInterrupts(r1.state, tick.fired);
      if r2.Ok? {
        TimeoutsOwned(r2.state, 0);
      }
    }
  }

  lemma RescheduleOwned(st: State, tick: Tick)
    requires Owned(st)
    ensures StillOwned(Reschedule(st, tick))
  {
    hide Owned, ElapseTime, Rotate;
    ElapseOwned(st, tick);
    if ElapseTime(st, tick).Ok? {
      var st1 := ElapseTime(st, tick).state;
      SameSubjects(st1, st1.(ready := Rotate(st1.ready)));
    }
  }

  // ---------------------------------------------------------------------------
  // Waiting
  // ---------------------------------------------------------------------------

  lemma RegisteredOwned(st: State, t: Tid, th: Thread, os: seq<Oid>)
    requires Linked(st) && Owned(st) && t in st.threads && st.threads[t].waitList == [] == th.waitList
    requires forall o | o in os :: o in st.subjects
    ensures OwnedBut(Register(SetThread(st, t, th), os, t), t)
  {
    hide Linked, Register, Grouped;
    var st0 := SetThread(st, t, th);
    var st1 := Register(st0, os, t);
    RegisterClosed(st0, os, t);
    forall o | o in st1.subjects
      ensures Grouped(st1.subjects[o].observers) && UnawaitedBut(st1.subjects[o], t)
    {
      assert OwnOk(st.subjects[o]);
      RegisterObservers(st0, os, t, o);
      NotObserving(st, t, o);
      GroupedAppend(st.subjects[o].observers, t, Count(os, o));
    }
  }

  /** t owns none of the first n objects on its wait list. */
  ghost predicate OwnsNoneOf(st: State, t: Tid, n: nat) {
    && t in st.threads && n <= |st.threads[t].waitList|
    && forall j | 0 <= j < n ::
         st.threads[t].waitList[j] in st.subjects && !IsOwner(st.subjects[st.threads[t].waitList[j]].resource, t)
  }

  /** An attempt fails only at objects that t does not own, and changes only the object it is made at. */
  lemma AttemptOwns(st: State, o: Oid, t: Tid)
    requires o in st.subjects && t in st.threads && OwnedBut(st, t) && SubjectOk(st.subjects[o])
    ensures TryAcquire(st, o, t).Missed? ==> !IsOwner(st.subjects[o].resource, t)
    ensures TryAcquire(st, o, t).Got? ==>
              var st1 := TryAcquire(st, o, t).state;
              && st1.subjects.Keys == st.subjects.Keys && (forall p | p in st.subjects && p != o :: st1.subjects[p] == st.subjects[p])
              && OwnedBut(st1, t)
              && (st.subjects[o].resource.Timer? || Available(st, o) || IsOwner(st.subjects[o].resource, t))
              && (st.subjects[o].resource.Timer? ==> st1.subjects[o].resource.Timer?)
  {
    if TryAcquire(st, o, t).Got? {
      ShorterOk(st.subjects[o], t);
      hide RemoveFirst, Grouped;
      assert forall p | p in st.subjects :: Grouped(st.subjects[p].observers) && UnawaitedBut(st.subjects[p], t);
    }
  }

  lemma {:induction false} ScanOwned(st: State, t: Tid, i: nat, all: bool)
    requires Scanning(st, t, i, all) && OwnedBut(st, t) && OwnsNoneOf(st, t, i)
    ensures forall o | o in st.threads[t].waitList :: o in st.subjects
    ensures var r := Scan(st, t, i, all);
            r.Ok? ==> OwnedBut(r.state, t) && t in r.state.threads && OwnsNoneOf(r.state, t, |r.state.threads[t].waitList|)
    decreases |st.threads[t].waitList| - i
  {
    OwnRegistration(st, t, i, all);
    assert t in st.threads && i <= |st.threads[t].waitList|;
    hide Scanning, SubjectsOk, OwnedBut, OwnsNoneOf, TryAcquire, UnregisterAll, RemoveAt, SetThread;
    if i == |st.threads[t].waitList| {
      assert Scan(st, t, i, all) == Ok(st);
    } else {
      var o := st.threads[t].waitList[i];
      if TryAcquire(st, o, t).Missed? {
        PassedOver(st, t, i, all);
        ScanOwned(st, t, i + 1, all);
      } else if TryAcquire(st, o, t).Got? {
        var st1 := TryAcquire(st, o, t).state;
        var rest := RemoveAt(st.threads[t].waitList, i);
        var th := st1.threads[t].(wakeIndex := i, woken := Some(o), waitList := rest);
        if all {
          GotOneOfAll(st, t, i);
          ScanOwned(SetThread(st1, t, th), t, i, all);
        } else if UnregisterAll(st1, rest, t).Ok? {
          GotAny(st, t, i, th.(waitList := []));
        }
      }
    }
  }

  lemma PassedOver(st: State, t: Tid, i: nat, all: bool)
    requires Scanning(st, t, i, all) && OwnedBut(st, t) && OwnsNoneOf(st, t, i) && i < |st.threads[t].waitList|
    requires st.threads[t].waitList[i] in st.subjects && TryAcquire(st, st.threads[t].waitList[i], t).Missed?
    ensures Scanning(st, t, i + 1, all) && OwnsNoneOf(st, t, i + 1)
  {
    var o := st.threads[t].waitList[i];
    assert SubjectOk(st.subjects[o]);
    hide Scanning, OwnedBut, OwnsNoneOf, TryAcquire, Available;
    AttemptOwns(st, o, t);
    MissedOn(st, o, t);
    ScanMiss(st, t, i, all);
    MissOwns(st, t, i);
  }

  lemma GotOneOfAll(st: State, t: Tid, i: nat)
    requires Scanning(st, t, i, true) && OwnedBut(st, t) && OwnsNoneOf(st, t, i) && i < |st.threads[t].waitList|
    requires st.threads[t].waitList[i] in st.subjects && TryAcquire(st, st.threads[t].waitList[i], t).Got?
    ensures var o := st.threads[t].waitList[i];
            var st1 := TryAcquire(st, o, t).state;
            var th := st1.threads[t].(wakeIndex := i, woken := Some(o), waitList := RemoveAt(st.threads[t].waitList, i));
            var st2 := SetThread(st1, t, th);
            Scanning(st2, t, i, true) && OwnedBut(st2, t) && OwnsNoneOf(st2, t, i)
  {
    var o := st.threads[t].waitList[i];
    assert SubjectOk(st.subjects[o]) && Tried(st, t, i);
    hide Scanning, OwnedBut, OwnsNoneOf, TryAcquire, Available, Tried;
    AttemptOwns(st, o, t);
    var st1 := TryAcquire(st, o, t).state;
    var th := st1.threads[t].(wakeIndex := i, woken := Some(o), waitList := RemoveAt(st.threads[t].waitList, i));
    TakeAll(st, t, i);
    TookOwns(st, st1, t, i, th);
  }

  lemma GotAny(st: State, t: Tid, i: nat, th: Thread)
    requires Scanning(st, t, i, false) && OwnedBut(st, t) && i < |st.threads[t].waitList| && th.waitList == []
    requires st.threads[t].waitList[i] in st.subjects && TryAcquire(st, st.threads[t].waitList[i], t).Got?
    requires UnregisterAll(TryAcquire(st, st.threads[t].waitList[i], t).state, RemoveAt(st.threads[t].waitList, i), t).Ok?
    ensures var st1 := TryAcquire(st, st.threads[t].waitList[i], t).state;
            var st2 := SetThread(UnregisterAll(st1, RemoveAt(st.threads[t].waitList, i), t).state, t, th);
            OwnedBut(st2, t) && t in st2.threads && st2.threads[t].waitList == [] && OwnsNoneOf(st2, t, 0)
  {
    var o := st.threads[t].waitList[i];
    assert SubjectOk(st.subjects[o]);
    hide Scanning, OwnedBut, OwnsNoneOf, TryAcquire, UnregisterAll, RemoveAt;
    AttemptOwns(st, o, t);
    var st1 := TryAcquire(st, o, t).state;
    var rest := RemoveAt(st.threads[t].waitList, i);
    UnregisterOwned(st1, rest, t, t);
    DoneOwns(UnregisterAll(st1, rest, t).state, t, th);
  }

  lemma MissedOn(st: State, o: Oid, t: Tid)
    requires o in st.subjects && t in st.threads && TryAcquire(st, o, t).Missed?
    ensures !Available(st, o)
  {
  }

  lemma MissOwns(st: State, t: Tid, i: nat)
    requires OwnsNoneOf(st, t, i) && i < |st.threads[t].waitList| && st.threads[t].waitList[i] in st.subjects
    requires !IsOwner(st.subjects[st.threads[t].waitList[i]].resource, t)
    ensures OwnsNoneOf(st, t, i + 1)
  {
  }

  lemma DoneOwns(st: State, t: Tid, th: Thread)
    requires OwnedBut(st, t) && th.waitList == []
    ensures OwnedBut(SetThread(st, t, th), t) && OwnsNoneOf(SetThread(st, t, th), t, 0)
  {
  }

  lemma TookOwns(st: State, st1: State, t: Tid, i: nat, th: Thread)
    requires OwnsNoneOf(st, t, i) && i < |st.threads[t].waitList| && Tried(st, t, i)
    requires th.waitList == RemoveAt(st.threads[t].waitList, i) && OwnedBut(st1, t)
    requires var o := st.threads[t].waitList[i];
             && o in st.subjects && st1.subjects.Keys == st.subjects.Keys
             && (forall p | p in st.subjects && p != o :: st1.subjects[p] == st.subjects[p])
             && (st.subjects[o].resource.Timer? || Available(st, o) || IsOwner(st.subjects[o].resource, t))
             && (st.subjects[o].resource.Timer? ==> st1.subjects[o].resource.Timer?)
    ensures OwnedBut(SetThread(st1, t, th), t) && OwnsNoneOf(SetThread(st1, t, th), t, i)
  {
    hide Available, Grouped, UnawaitedBut;
    var o := st.threads[t].waitList[i];
    forall j | 0 <= j < i
      ensures th.waitList[j] == st.threads[t].waitList[j] && th.waitList[j] in st1.subjects
      ensures !IsOwner(st1.subjects[th.waitList[j]].resource, t)
    {
      if th.waitList[j] == o {
        assert Available(st, o) ==> st.subjects[o].resource.Timer?;
      }
    }
  }

  /** Once the scan is over t is registered only with what it does not own. */
  lemma ScannedOwned(st: State, t: Tid, all: bool)
    requires Scanned(st, t, all) && OwnedBut(st, t) && OwnsNoneOf(st, t, |st.threads[t].waitList|)
    ensures Owned(EndWait(st, t, all))
  {
    hide ThreadsOkBut, QueueOk, SubjectsOk, NamesOk, NoLostWakeup, UnderWay, WaitHonoured, Grouped;
    forall o | o in st.subjects
      ensures OwnOk(st.subjects[o])
    {
      assert Grouped(st.subjects[o].observers) && UnawaitedBut(st.subjects[o], t);
      if t in st.subjects[o].observers {
        ObserverWaits(st, o, t);
      }
    }
  }

  lemma WaitForOwned(st: State, t: Tid, th: Thread, os: seq<Oid>, all: bool)
    requires Inv(st) && Owned(st) && t in st.threads
    requires th.waitList == st.threads[t].waitList == [] && th.status == st.threads[t].status == Ready
    requires th.life == st.threads[t].life == Alive
    requires th.subject == st.threads[t].subject && th.phase == Completed
    requires th.requestAll == all && th.result == RESULT_OK && th.request == os && th.acquired == []
    requires forall o | o in os :: o in st.subjects
    ensures StillOwned(WaitFor(st, t, th, os, all))
  {
    assert Linked(st);
    hide Inv, Linked, Scan, Register, Scanned, Scanning, EndWait, Owned, OwnedBut, WaitFor;
    StartScan(st, t, th, os, all);
    RegisteredOwned(st, t, th, os);
    WaitForIs(st, t, th, os, all);
    var st1 := Register(SetThread(st, t, th), os, t);
    ScanOwned(st1, t, 0, all);
    ScanKeeps(st1, t, 0, all);
    if Scan(st1, t, 0, all).Ok? {
      ScannedOwned(Scan(st1, t, 0, all).state, t, all);
    }
  }

  lemma WaitOwned(st: State, t: Tid, handles: seq<Handle>, all: bool, timeout: int)
    requires Inv(st) && Owned(st) && t in st.threads && st.threads[t].status == Ready && st.threads[t].life == Alive
    ensures StillOwned(Wait(st, t, handles, all, timeout))
  {
    assert st.threads[t].waitList == [] by { RecordOf(st, t); }
    hide Inv, WaitFor, Owned;
    var hs := WaitHandles(handles);
    if forall h | h in hs :: h.Object? && h.id in st.subjects {
      var os := Ids(hs);
      WaitForOwned(st, t, BeginWait(st, st.threads[t], os, all, timeout), os, all);
    }
  }

  // ---------------------------------------------------------------------------
  // Ending threads
  // ---------------------------------------------------------------------------

  lemma {:induction false} ReleasedOwned(st: State, held: seq<Oid>, t: Tid)
    requires Owned(st)
    ensures StillOwned(ReleaseOwned(st, held, t))
    decreases |held|
  {
    hide OnResourceReady, Owned;
    if held != [] {
      var o := held[0];
      if o in st.subjects && IsOwner(st.subjects[o].resource, t) {
        if st.subjects[o].resource.lockCount == 1 {
          var s := Unlocked(st.subjects[o]);
          AnnouncedOwned(st, o, s);
          assert ReleaseMutex(st, o) == Restocked(st, o, s);
          var r := OnResourceReady(ReleaseMutex(st, o), o);
          if r.Ok? {
            ReleasedOwned(r.state, held[1..], t);
          }
        }
      } else {
        ReleasedOwned(st, held[1..], t);
      }
    }
  }

  lemma ExitOwned(st: State, t: Tid, held: seq<Oid>)
    requires Owned(st) && t in st.threads
    ensures StillOwned(ExitThread(st, t, held))
  {
    hide Owned, ReleaseOwned, UnregisterAll, OnResourceReady;
    ReleasedOwned(st, held, t);
    if ReleaseOwned(st, held, t).Ok? {
      var st1 := ReleaseOwned(st, held, t).state;
      if UnregisterAll(st1, st1.threads[t].waitList, t).Ok? {
        UnregisterOwned(st1, st1.threads[t].waitList, t, t);
        var st2 := UnregisterAll(st1, st1.threads[t].waitList, t).state;
        var th := Ended(st2.threads[t]);
        var st3 := SetThread(st2, t, th).(ready := RemoveAll(st2.ready, t));
        SameSubjects(st2, st3);
        if th.subject in st3.subjects {
          JustAnnounced(st3, th.subject);
        }
      }
    }
  }

  lemma {:induction false} DropAllSubjects(st: State, us: seq<Tid>)
    ensures DropAll(st, us).subjects == st.subjects
    decreases |us|
  {
    if us != [] {
      DropAllSubjects(Drop(st, us[0]), us[1..]);
    }
  }

  lemma {:induction false} ExitAllOwned(st: State, victims: seq<Victim>, me: Tid)
    requires Owned(st)
    ensures StillOwned(ExitThreads(st, victims, me))
    decreases |victims|
  {
    hide ExitThread, Owned, DropAll;
    if victims != [] {
      var v := victims[0];
      if v.tid !in st.threads || st.threads[v.tid].life == Released {
        ExitAllOwned(st, victims[1..], me);
      } else {
        ExitOwned(st, v.tid, v.held);
        var r := ExitThread(st, v.tid, v.held);
        if r.Ok? {
          DropAllSubjects(Release(r.state, v.tid, v.last), v.closed);
          SameSubjects(r.state, Discharge(r.state, v));
          ExitAllOwned(if v.tid == me then r.state else Discharge(r.state, v), victims[1..], me);
        }
      }
    }
  }

  // ---------------------------------------------------------------------------
  // Calls and runs
  // ---------------------------------------------------------------------------

  lemma EventCallOwned(st: State, t: Tid, call: Call)
    requires Owned(st) && t in st.threads && (call.SignalEvent? || call.ClearEvent? || call.SetTimer? || call.ReleaseSemaphore?)
    ensures StillOwned(Perform(st, t, call))
  {
    hide OnResourceReady, Owned, Wait, ExitThreads, SpawnThread, Reschedule, AddSubject, IsOwner, ReleaseMutex, Drop, RemoveAll;
    if Names(st, call.target) {
      var o := call.target.id;
      var s := st.subjects[o];
      if s.resource.Event? {
        Unowned(s, s.resource.(signalled := true));
        Unowned(s, s.resource.(signalled := false));
        AnnouncedOwned(st, o, s.(resource := s.resource.(signalled := true)));
        HeldOwned(st, o, s.(resource := s.resource.(signalled := false)));
      } else if s.resource.Semaphore? && call.ReleaseSemaphore? {
        JustAnnounced(st, o);
        var s' := s.(resource := s.resource.(available := s.resource.available + call.times), given := s.given + call.times);
        Unowned(s.(given := s.given + call.times), s'.resource);
        AnnouncedOwned(st, o, s');
      } else if s.resource.Timer? && call.SetTimer? && call.initial >= 0 && call.interval >= 0 {
        var s' := s.(resource := Timer(true, s.resource.reset, st.now + call.initial, call.interval));
        Unowned(s, s'.resource);
        AnnouncedOwned(st, o, s');
        HeldOwned(st, o, s');
      }
    }
  }

  lemma Unowned(s: Subject, r: Resource)
    requires !r.Mutex?
    ensures Unawaited(s.(resource := r))
  {
  }

  lemma MutexCallOwned(st: State, t: Tid, call: Call)
    requires Inv(st) && Owned(st) && t in st.threads && st.threads[t].status == Ready
    requires call.UnlockMutex? || call.CloseMutex?
    ensures StillOwned(Perform(st, t, call))
  {
    if Names(st, call.target) && IsOwner(st.subjects[call.target.id].resource, t) {
      hide Perform, Owned, OnResourceReady;
      var o := call.target.id;
      InvParts(st);
      AwakeObservesNothing(st, t, o);
      hide Inv, Core;
      AnnouncedOwned(st, o, Unlocked(st.subjects[o]));
      HeldOwned(st, o, Unlocked(st.subjects[o]));
      CloseIs(st, t, o);
      UnlockIs(st, t, o);
    }
  }

  lemma HeldOwned(st: State, o: Oid, s: Subject)
    requires Owned(st) && o in st.subjects && s.observers == st.subjects[o].observers && Unawaited(s)
    ensures Owned(Restocked(st, o, s))
  {
    hide Grouped;
    assert OwnOk(st.subjects[o]);
  }

  lemma PerformOwned(st: State, t: Tid, call: Call)
    requires Inv(st) && Owned(st) && t in st.threads && st.threads[t].status == Ready && st.threads[t].life == Alive
    ensures StillOwned(Perform(st, t, call))
  {
    if call.SignalEvent? || call.ReleaseSemaphore? || call.SetTimer? || call.ClearEvent? {
      hide Perform, Inv, Owned;
      EventCallOwned(st, t, call);
    } else if call.UnlockMutex? || call.CloseMutex? {
      hide Perform, Inv, Owned;
      MutexCallOwned(st, t, call);
    } else if call.WaitSynchronization? {
      hide Inv, Owned, Wait;
      WaitOwned(st, t, call.handles, call.all, call.timeout);
    } else if call.Exit? {
      hide Inv, Owned, ExitThreads;
      ExitAllOwned(st, call.victims, t);
    } else if call.AwaitArbitration? {
      hide Inv, Owned, Reschedule;
      var th := st.threads[t].(timeoutAt := NO_TIMEOUT, result := RESULT_OK, phase := Idle, status := WaitingForArbitration);
      var st1 := SetThread(st, t, th).(ready := RemoveAll(st.ready, t));
      SameSubjects(st, st1);
      RescheduleOwned(st1, call.first);
    } else if call.CloseThread? {
      SameSubjects(st, Drop(st, call.tid));
    } else {
      hide Inv, Wait, ExitThreads, Reschedule, OnResourceReady, ReleaseSemaphoreOn;
    }
  }

  lemma CallOwned(st: State, t: Tid, turn: Turn)
    requires Inv(st) && Owned(st) && t in st.threads && st.threads[t].status == Ready && st.threads[t].life == Alive
    ensures var r := SystemCall(st, t, turn.call, turn.tick);
            r.Ok? ==> Owned(Release(r.state, t, turn.last))
  {
    hide Inv, Owned, Perform, Reschedule;
    PerformOwned(st, t, turn.call);
    if Perform(st, t, turn.call).Ok? {
      RescheduleOwned(Perform(st, t, turn.call).state, turn.tick);
      var r := SystemCall(st, t, turn.call, turn.tick);
      if r.Ok? {
        SameSubjects(r.state, Release(r.state, t, turn.last));
      }
    }
  }

  lemma ServeOwned(st: State, turn: Turn)
    requires Inv(st) && Owned(st)
    ensures StillOwned(Serve(st, turn))
  {
    hide Inv, ElapseTime, Owned, SystemCall, Release;
    ElapseOwned(st, turn.ran);
    ElapseSound(st, turn.ran);
    if st.ready != [] && st.ready[0] in st.threads {
      SameSubjects(st, st.(ready := st.ready[1..]));
      FrontStaysReady(st, turn.ran);
      if st.threads[st.ready[0]].life == Alive && ElapseTime(st, turn.ran).Ok? {
        CallOwned(ElapseTime(st, turn.ran).state, st.ready[0], turn);
      }
    }
  }

  lemma {:induction false} RunOwned(st: State, turns: seq<Turn>)
    requires Inv(st) && Owned(st)
    ensures StillOwned(Run(st, turns))
    decreases |turns|
  {
    hide Inv, Serve, DropAll, Owned;
    if turns != [] {
      DispatchSound(st, turns[0]);
      ServeOwned(st, turns[0]);
      if Serve(st, turns[0]).Ok? {
        var st1 := Serve(st, turns[0]).state;
        DropAllSubjects(st1, turns[0].dropped);
        SameSubjects(st1, DropAll(st1, turns[0].dropped));
        RunOwned(DropAll(st1, turns[0].dropped), turns[1..]);
      }
    }
  }

  lemma ReachedOwned(turns: seq<Turn>)
    requires Run(Boot(), turns).Ok?
    ensures Inv(Run(Boot(), turns).state) && Owned(Run(Boot(), turns).state)
  {
    BootSound();
    assert Owned(Boot());
    RunSoundFrom(Boot(), turns);
    RunOwned(Boot(), turns);
    hide Run, Boot;
  }

  /** Over every run no thread waits for a mutex that it owns. */
  lemma NobodyWaitsForItself(turns: seq<Turn>)
    requires Run(Boot(), turns).Ok?
    ensures var st := Run(Boot(), turns).state;
            forall o, t | o in st.subjects && t in st.subjects[o].observers :: !IsOwner(st.subjects[o].resource, t)
  {
    hide Run, Boot, Inv, Grouped;
    ReachedOwned(turns);
    var st := Run(Boot(), turns).state;
    forall o, t | o in st.subjects && t in st.subjects[o].observers
      ensures !IsOwner(st.subjects[o].resource, t)
    {
      assert OwnOk(st.subjects[o]);
    }
  }

  /** In every state that can be reached, a thread can end if and only if it has locked none of its mutexes
      more than once; it then owns none of those that its process has a handle to, and the mutexes of
      others are as they were. */
  lemma ExitGivesBack(turns: seq<Turn>, t: Tid, held: seq<Oid>)
    requires Run(Boot(), turns).Ok? && t in Run(Boot(), turns).state.threads
    requires Run(Boot(), turns).state.threads[t].status != Stopped
    ensures var st := Run(Boot(), turns).state;
            var r := ExitThread(st, t, held);
            && (r.Ok? <==> LockedOnce(st, held, t)) && (r.Failed? ==> r.fault == RecursiveMutexOnExit)
            && (r.Ok? ==> OwnsNone(r.state, held, t) && RestUntouched(st, r.state, held, t))
  {
    hide Run, Boot, Inv, ExitThread, LockedOnce, OwnsNone, RestUntouched;
    ReachedOwned(turns);
    NobodyWaitsForItself(turns);
    ExitReleases(Run(Boot(), turns).state, t, held);
  }
}
