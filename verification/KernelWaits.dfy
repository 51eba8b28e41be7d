/**
  What a wait does, in terms of its arguments: which object a wait for any takes and
  what is left of it, and when a wait or a pause is over by its timeout.
 */
module KernelWaits {
  import opened Options
  import opened Lists
  import opened Kernel
  import opened KernelInvariants
  import opened KernelWaiting
  import opened KernelRuns
  import opened KernelEffects
  import opened KernelTimeouts
  import opened KernelEndings
  import opened KernelServing

  // ---------------------------------------------------------------------------
  // Acquiring
  // ---------------------------------------------------------------------------

  /** Thread t could acquire o now. */
  ghost predicate Obtainable(st: State, o: Oid, t: Tid)
    requires o in st.subjects
  {
    match st.subjects[o].resource
    case Event(signalled, _) => signalled
    case Semaphore(available, _) => available > 0
    case Mutex(lockCount, owner) => lockCount == 0 || owner == Some(t)
    case Timer(active, _, deadline, _) => active && deadline <= st.now
    case ThreadEnd(u) => u !in st.threads || st.threads[u].status == Stopped
  }

  /** A mutex that is locked by a thread that is gone. */
  ghost predicate Orphaned(st: State, o: Oid)
    requires o in st.subjects
  {
    var r := st.subjects[o].resource;
    r.Mutex? && r.lockCount > 0 && (r.owner.None? || r.owner.value !in st.threads)
  }

  /** What one acquisition by t at the given time leaves of an object. */
  ghost predicate Takes(r: Resource, r': Resource, t: Tid, now: nat) {
    match r
    case Event(_, reset) => r' == Event(reset == Sticky, reset)
    case Semaphore(available, max) => r' == Semaphore(available - 1, max)
    case Mutex(lockCount, _) => r' == Mutex(lockCount + 1, Some(t))
    case Timer(_, reset, deadline, period) =>
      r' == Timer(reset != OneShot, reset, if reset == Pulse then now + period else deadline, period)
    case ThreadEnd(_) => r' == r
  }

  lemma TryExact(st: State, o: Oid, t: Tid)
    requires o in st.subjects && t in st.threads && t in st.subjects[o].observers && SubjectOk(st.subjects[o])
    ensures TryAcquire(st, o, t).Got? <==> Obtainable(st, o, t)
    ensures TryAcquire(st, o, t).Aborted? <==> Orphaned(st, o)
    ensures Orphaned(st, o) ==> TryAcquire(st, o, t) == Aborted(MutexOwnerDestroyed)
    ensures TryAcquire(st, o, t).Got? ==>
              Takes(st.subjects[o].resource, TryAcquire(st, o, t).state.subjects[o].resource, t, st.now)
  {
  }

  // ---------------------------------------------------------------------------
  // Registrations come and go
  // ---------------------------------------------------------------------------

  function Repeated(t: Tid, n: nat): seq<Tid> {
    if n == 0 then [] else [t] + Repeated(t, n - 1)
  }

  lemma {:induction false} RegisterObservers(st: State, os: seq<Oid>, t: Tid, o: Oid)
    requires t in st.threads && (forall p | p in os :: p in st.subjects) && o in st.subjects
    ensures o in Register(st, os, t).subjects
    ensures Register(st, os, t).subjects[o].observers == st.subjects[o].observers + Repeated(t, Count(os, o))
    decreases |os|
  {
    if os != [] {
      RegisterObservers(RegisterOne(st, os[0], t), os[1..], t, o);
      if os[0] == o {
        assert st.subjects[o].observers + [t] + Repeated(t, Count(os[1..], o)) == st.subjects[o].observers + Repeated(t, Count(os, o));
      }
    } else {
      assert st.subjects[o].observers + [] == st.subjects[o].observers;
    }
  }

  lemma {:induction false} OthersRepeated(s: seq<Tid>, t: Tid, n: nat)
    ensures RemoveAll(s + Repeated(t, n), t) == RemoveAll(s, t)
    decreases |s|, n
  {
    if s == [] {
      assert s + Repeated(t, n) == Repeated(t, n);
      if n > 0 {
        OthersRepeated([], t, n - 1);
        assert [] + Repeated(t, n - 1) == Repeated(t, n - 1) == Repeated(t, n)[1..];
      }
    } else {
      assert (s + Repeated(t, n))[1..] == s[1..] + Repeated(t, n);
      OthersRepeated(s[1..], t, n);
    }
  }

  lemma {:induction false} OthersFirst(s: seq<Tid>, t: Tid)
    requires t in s
    ensures RemoveAll(RemoveFirst(s, t), t) == RemoveAll(s, t)
  {
    if s[0] != t {
      OthersFirst(s[1..], t);
      assert RemoveFirst(s, t)[1..] == RemoveFirst(s[1..], t);
    }
  }

  lemma {:induction false} NoneToRemove(s: seq<Tid>, t: Tid)
    requires t !in s
    ensures RemoveAll(s, t) == s
  {
    if s != [] {
      NoneToRemove(s[1..], t);
    }
  }

  /** The observers of o other than t, in order. */
  ghost function Others(st: State, o: Oid, t: Tid): seq<Tid>
    requires o in st.subjects
  {
    RemoveAll(st.subjects[o].observers, t)
  }

  lemma {:induction false} UnregisterOthers(st: State, os: seq<Oid>, t: Tid, o: Oid)
    requires UnregisterAll(st, os, t).Ok? && o in st.subjects
    ensures o in UnregisterAll(st, os, t).state.subjects && Others(UnregisterAll(st, os, t).state, o, t) == Others(st, o, t)
    decreases |os|
  {
    if os != [] {
      OthersFirst(st.subjects[os[0]].observers, t);
      UnregisterOthers(Unregister(st, os[0], t), os[1..], t, o);
    }
  }

  // ---------------------------------------------------------------------------
  // A wait for any object
  // ---------------------------------------------------------------------------

  /** Position k was the first that could be acquired. */
  function TookOne(st: State, t: Tid, k: nat): Result
    requires t in st.threads && k < |st.threads[t].waitList| && st.threads[t].waitList[k] in st.subjects
    requires TryAcquire(st, st.threads[t].waitList[k], t).Got?
  {
    var o := st.threads[t].waitList[k];
    var st1 := TryAcquire(st, o, t).state;
    var st2 :- UnregisterAll(st1, RemoveAt(st.threads[t].waitList, k), t);
    Ok(SetThread(st2, t, st1.threads[t].(wakeIndex := k, woken := Some(o), waitList := [])))
  }

  /** The first position from i on whose object can be acquired. */
  ghost predicate FirstFrom(st: State, t: Tid, os: seq<Oid>, i: nat, k: nat)
    requires forall o | o in os :: o in st.subjects
  {
    && i <= k <= |os| && (forall j | i <= j < k :: !Obtainable(st, os[j], t))
    && (k < |os| ==> Obtainable(st, os[k], t))
  }

  ghost predicate OrphanBefore(st: State, os: seq<Oid>, i: nat, k: nat)
    requires k <= |os| && forall o | o in os :: o in st.subjects
  {
    exists j | i <= j < k :: Orphaned(st, os[j])
  }

  lemma {:induction false} ScanAny(st: State, t: Tid, i: nat) returns (k: nat)
    requires t in st.threads && i <= |st.threads[t].waitList| && SubjectsOk(st)
    requires forall o | o in st.threads[t].waitList :: o in st.subjects && t in st.subjects[o].observers
    ensures var os := st.threads[t].waitList;
            && FirstFrom(st, t, os, i, k)
            && (OrphanBefore(st, os, i, k) ==> Scan(st, t, i, false) == Failed(MutexOwnerDestroyed))
            && (!OrphanBefore(st, os, i, k) ==>
                  && (k == |os| ==> Scan(st, t, i, false) == Ok(st))
                  && (k < |os| ==> TryAcquire(st, os[k], t).Got? && Scan(st, t, i, false) == TookOne(st, t, k)))
    decreases |st.threads[t].waitList| - i
  {
    var os := st.threads[t].waitList;
    if i == |os| {
      k := i;
    } else {
      TryExact(st, os[i], t);
      hide TryAcquire, Obtainable, Orphaned, SubjectsOk;
      if TryAcquire(st, os[i], t).Got? {
        k := i;
      } else {
        k := ScanAny(st, t, i + 1);
        if Orphaned(st, os[i]) {
          assert OrphanBefore(st, os, i, k);
        } else {
          assert OrphanBefore(st, os, i, k) <==> OrphanBefore(st, os, i + 1, k);
        }
      }
    }
  }

  /** Thread t took the object at position k, and nothing else changed. */
  ghost predicate TookOnly(st: State, st': State, t: Tid, os: seq<Oid>, k: nat)
    requires t in st.threads && k < |os| && os[k] in st.subjects
  {
    && st'.subjects.Keys == st.subjects.Keys && st'.threads.Keys == st.threads.Keys
    && st'.ready == st.ready && st'.waiting == st.waiting && st'.timers == st.timers && st'.now == st.now
    && (forall u | u in st.threads && u != t :: st'.threads[u] == st.threads[u])
    && (forall o | o in st.subjects ::
          st'.subjects[o].observers == st.subjects[o].observers
          && (o != os[k] ==> st'.subjects[o].resource == st.subjects[o].resource))
    && Takes(st.subjects[os[k]].resource, st'.subjects[os[k]].resource, t, st.now)
    && var th := st'.threads[t];
    && th.status == Ready && th.result == RESULT_OK && th.waitList == []
    && th.wakeIndex == k && th.woken == Some(os[k]) && th.acquired == [os[k]]
  }

  /** Thread t sleeps on all the objects, behind their other observers, and nothing else changed. */
  ghost predicate Slept(st: State, st': State, t: Tid, os: seq<Oid>)
    requires t in st.threads
  {
    && st'.subjects.Keys == st.subjects.Keys && st'.threads.Keys == st.threads.Keys
    && st'.ready == RemoveAll(st.ready, t) && st'.timers == st.timers && st'.now == st.now
    && (forall u | u in st.threads && u != t :: st'.threads[u] == st.threads[u])
    && (forall o | o in st.subjects ::
          st'.subjects[o] == st.subjects[o].(observers := st.subjects[o].observers + Repeated(t, Count(os, o))))
    && var th := st'.threads[t];
    && th.status == Sleeping && th.result == RESULT_OK && th.waitList == os && !th.waitForAll && th.acquired == []
  }

  /** Halfway: t has the object at position k, but is still registered elsewhere. */
  ghost predicate HasTaken(st: State, st2: State, t: Tid, os: seq<Oid>, k: nat)
    requires t in st.threads && k < |os| && os[k] in st.subjects
  {
    && st2.subjects.Keys == st.subjects.Keys && t in st2.threads && st2.threads == st.threads[t := st2.threads[t]]
    && st2 == st.(threads := st2.threads, subjects := st2.subjects)
    && (forall p | p in st.subjects ::
          && Others(st2, p, t) == st.subjects[p].observers
          && (p != os[k] ==> st2.subjects[p].resource == st.subjects[p].resource))
    && Takes(st.subjects[os[k]].resource, st2.subjects[os[k]].resource, t, st.now)
    && var th := st2.threads[t];
    && th.status == Ready && th.result == RESULT_OK && th.waitList == os && th.acquired == [os[k]]
  }

  /** As before the scan: t is registered, and has acquired nothing. */
  ghost predicate HasRegistered(st: State, st1: State, t: Tid, os: seq<Oid>) {
    && t in st.threads && t in st1.threads && st1.subjects.Keys == st.subjects.Keys
    && st1 == st.(threads := st1.threads, subjects := st1.subjects) && st1.threads == st.threads[t := st1.threads[t]]
    && (forall o | o in st.subjects ::
          && st1.subjects[o] == st.subjects[o].(observers := st.subjects[o].observers + Repeated(t, Count(os, o)))
          && Others(st1, o, t) == st.subjects[o].observers)
    && var th := st1.threads[t];
    && th.waitList == os && th.acquired == [] && th.result == RESULT_OK && th.status == Ready
  }

  lemma TryTakes(st: State, st1: State, t: Tid, os: seq<Oid>, k: nat)
    requires HasRegistered(st, st1, t, os) && k < |os| && os[k] in st.subjects && SubjectsOk(st1)
    requires t in st1.subjects[os[k]].observers && TryAcquire(st1, os[k], t).Got?
    ensures HasTaken(st, TryAcquire(st1, os[k], t).state, t, os, k)
  {
    var o := os[k];
    TryExact(st1, o, t);
    OthersFirst(st1.subjects[o].observers, t);
    hide TryAcquireImpl, Takes, Obtainable, Orphaned, SubjectsOk, RemoveAll, RemoveFirst;
    var st2 := TryAcquire(st1, o, t).state;
    assert st2.threads[t].acquired == [] + [o];
    assert st2.threads == st.threads[t := st2.threads[t]];
  }

  lemma TookOneIs(st: State, st1: State, t: Tid, os: seq<Oid>, k: nat)
    requires HasRegistered(st, st1, t, os) && k < |os| && os[k] in st.subjects && SubjectsOk(st1) && Linked(st1)
    requires t in st1.subjects[os[k]].observers && TryAcquire(st1, os[k], t).Got?
    ensures TookOne(st1, t, k).Ok? && TookOnly(st, TookOne(st1, t, k).state, t, os, k)
  {
    var o := os[k];
    WaitsFor(st, st1, t, os);
    TryTakes(st, st1, t, os, k);
    TryAcquireLinks(st1, o, t);
    hide TryAcquire, Linked, LinkedBut, SubjectsOk, UnregisterAll, HasRegistered, HasTaken, TookOnly, RemoveAt;
    var st2 := TryAcquire(st1, o, t).state;
    TakenWaits(st, st2, t, os, k);
    var rest := RemoveAt(os, k);
    DropRest(st2, t, o, k, st2.threads[t].(wakeIndex := k, woken := Some(o), waitList := []));
    Dropped(st, st2, t, os, k, rest);
  }

  lemma TakenWaits(st: State, st2: State, t: Tid, os: seq<Oid>, k: nat)
    requires t in st.threads && k < |os| && os[k] in st.subjects && HasTaken(st, st2, t, os, k)
    ensures t in st2.threads && st2.threads[t].waitList == os && st2.subjects.Keys == st.subjects.Keys
  {
  }

  lemma Dropped(st: State, st2: State, t: Tid, os: seq<Oid>, k: nat, rest: seq<Oid>)
    requires t in st.threads && k < |os| && os[k] in st.subjects && HasTaken(st, st2, t, os, k)
    requires UnregisterAll(st2, rest, t).Ok?
    requires forall p | p in UnregisterAll(st2, rest, t).state.subjects :: t !in UnregisterAll(st2, rest, t).state.subjects[p].observers
    ensures TookOnly(st, SetThread(UnregisterAll(st2, rest, t).state, t,
                                   st2.threads[t].(wakeIndex := k, woken := Some(os[k]), waitList := [])), t, os, k)
  {
    hide UnregisterAll, Others, Takes;
    var st3 := UnregisterAll(st2, rest, t).state;
    forall p | p in st.subjects
      ensures p in st3.subjects && st3.subjects[p].observers == st.subjects[p].observers
    {
      UnregisterOthers(st2, rest, t, p);
      OthersAll(st3, p, t);
    }
  }

  lemma WaitsFor(st: State, st1: State, t: Tid, os: seq<Oid>)
    requires HasRegistered(st, st1, t, os)
    ensures t in st1.threads && st1.threads[t].waitList == os
  {
  }

  lemma OthersAll(st: State, o: Oid, t: Tid)
    requires o in st.subjects && t !in st.subjects[o].observers
    ensures Others(st, o, t) == st.subjects[o].observers
  {
    NoneToRemove(st.subjects[o].observers, t);
  }

  lemma NotObserving(st: State, t: Tid, o: Oid)
    requires Linked(st) && t in st.threads && st.threads[t].waitList == [] && o in st.subjects
    ensures t !in st.subjects[o].observers
  {
    assert Observes(st, t, o) == Awaits(st, t, o);
  }

  /** Registering t, which is registered nowhere, appends it. */
  lemma Registered(st: State, t: Tid, th: Thread, os: seq<Oid>)
    requires Linked(st) && t in st.threads && st.threads[t].waitList == [] == th.waitList
    requires th.acquired == [] && th.result == RESULT_OK && th.status == Ready
    requires forall o | o in os :: o in st.subjects
    ensures HasRegistered(st, Register(SetThread(st, t, th), os, t), t, os)
  {
    hide Linked, Register;
    var st0 := SetThread(st, t, th);
    var st1 := Register(st0, os, t);
    RegisterClosed(st0, os, t);
    assert [] + os == os;
    forall o | o in st.subjects
      ensures st1.subjects[o].observers == st.subjects[o].observers + Repeated(t, Count(os, o))
      ensures Others(st1, o, t) == st.subjects[o].observers
    {
      RegisterObservers(st0, os, t, o);
      OthersRepeated(st.subjects[o].observers, t, Count(os, o));
      NotObserving(st, t, o);
      NoneToRemove(st.subjects[o].observers, t);
    }
  }

  /** Whether t could acquire something does not depend on its own record, while it can run. */
  lemma SameChances(st: State, st1: State, t: Tid, os: seq<Oid>, i: nat, k: nat)
    requires HasRegistered(st, st1, t, os) && st.threads[t].status == Ready && forall o | o in os :: o in st.subjects && o in st1.subjects
    ensures FirstFrom(st, t, os, i, k) <==> FirstFrom(st1, t, os, i, k)
    ensures k <= |os| ==> (OrphanBefore(st, os, i, k) <==> OrphanBefore(st1, os, i, k))
  {
    forall o | o in st.subjects
      ensures Obtainable(st, o, t) == Obtainable(st1, o, t) && Orphaned(st, o) == Orphaned(st1, o)
    {
    }
    hide Obtainable, Orphaned;
  }

  /** The outcome of a wait for any of os, of which the k-th is the first that can be acquired. */
  ghost predicate AnyOutcome(st: State, r: Result, t: Tid, os: seq<Oid>, k: nat)
    requires t in st.threads && (forall o | o in os :: o in st.subjects) && k <= |os|
  {
    && (OrphanBefore(st, os, 0, k) ==> r == Failed(MutexOwnerDestroyed))
    && (!OrphanBefore(st, os, 0, k) ==>
          && r.Ok?
          && (k < |os| ==> TookOnly(st, r.state, t, os, k))
          && (k == |os| && os != [] ==> Slept(st, r.state, t, os))
          && (os == [] ==> r.state.subjects == st.subjects && t in r.state.threads && r.state.threads[t].status == Ready))
  }

  lemma WaitForAny(st: State, t: Tid, th: Thread, os: seq<Oid>) returns (k: nat)
    requires Inv(st) && t in st.threads && (forall o | o in os :: o in st.subjects)
    requires th.waitList == st.threads[t].waitList == [] && th.status == st.threads[t].status == Ready
    requires th.life == st.threads[t].life == Alive && th.subject == st.threads[t].subject
    requires !th.requestAll && th.result == RESULT_OK && th.request == os && th.acquired == []
    ensures FirstFrom(st, t, os, 0, k) && AnyOutcome(st, WaitFor(st, t, th, os, false), t, os, k)
  {
    var st1 := Register(SetThread(st, t, th), os, t);
    Registered(st, t, th, os);
    WaitsFor(st, st1, t, os);
    StartScan(st, t, th, os, false);
    StartedScan(st1, t, os);
    WaitForIs(st, t, th, os, false);
    hide Register, Linked, SubjectsOk, Inv, TookOnly, Slept, Scan, OrphanBefore, TryAcquire, TookOne, Scanning, HasRegistered, FirstFrom,
         EndWait, WaitFor;
    k := ScanAny(st1, t, 0);
    SameChances(st, st1, t, os, 0, k);
    FirstIs(st, t, os, 0, k);
    if !OrphanBefore(st, os, 0, k) {
      if k < |os| {
        TookOneIs(st, st1, t, os, k);
        TookReady(st, TookOne(st1, t, k).state, t, os, k);
      } else if os != [] {
        SleptIs(st, st1, t, os);
      }
    }
  }

  lemma FirstIs(st: State, t: Tid, os: seq<Oid>, i: nat, k: nat)
    requires (forall o | o in os :: o in st.subjects) && FirstFrom(st, t, os, i, k)
    ensures k <= |os|
  {
  }

  lemma WaitForIs(st: State, t: Tid, th: Thread, os: seq<Oid>, all: bool)
    requires t in st.threads && th.waitList == [] && forall o | o in os :: o in st.subjects
    ensures var st1 := Register(SetThread(st, t, th), os, t);
            && t in st1.threads && (forall o | o in st1.threads[t].waitList :: o in st1.subjects)
            && WaitFor(st, t, th, os, all)
               == (var r := Scan(st1, t, 0, all); if r.Failed? then r else Ok(EndWait(r.state, t, all)))
            && (os == [] ==> st1 == SetThread(st, t, th) && EndWait(st1, t, all) == st1)
  {
    hide Scan, EndWait;
    RegisterClosed(SetThread(st, t, th), os, t);
    assert [] + os == os;
    if os == [] {
      NothingToWaitFor(SetThread(st, t, th), t, all);
    }
  }

  lemma NothingToWaitFor(st: State, t: Tid, all: bool)
    requires t in st.threads && st.threads[t].waitList == []
    ensures EndWait(st, t, all) == st
  {
  }

  lemma StartedScan(st: State, t: Tid, os: seq<Oid>)
    requires Scanning(st, t, 0, false) && st.threads[t].waitList == os
    ensures Linked(st) && SubjectsOk(st)
    ensures forall o | o in os :: o in st.subjects && t in st.subjects[o].observers
  {
    OwnRegistration(st, t, 0, false);
  }

  lemma TookReady(st: State, st': State, t: Tid, os: seq<Oid>, k: nat)
    requires t in st.threads && k < |os| && os[k] in st.subjects && TookOnly(st, st', t, os, k)
    ensures t in st'.threads && EndWait(st', t, false) == st'
  {
  }

  lemma SleptIs(st: State, st1: State, t: Tid, os: seq<Oid>)
    requires HasRegistered(st, st1, t, os) && os != []
    ensures Slept(st, EndWait(st1, t, false), t, os)
  {
    hide Others;
  }

  /** A wait for any of some objects takes the first that can be acquired and leaves no trace at the others; if
      there is none the thread sleeps on all of them. It faults exactly at an orphaned mutex
      before that. */
  lemma WaitAnyExact(st: State, t: Tid, handles: seq<Handle>, timeout: int) returns (k: nat)
    requires Inv(st) && t in st.threads && st.threads[t].status == Ready && st.threads[t].life == Alive
    requires forall h | h in WaitHandles(handles) :: h.Object? && h.id in st.subjects
    ensures var os := Ids(WaitHandles(handles));
            && (forall o | o in os :: o in st.subjects)
            && FirstFrom(st, t, os, 0, k) && AnyOutcome(st, Wait(st, t, handles, false, timeout), t, os, k)
  {
    assert st.threads[t].waitList == [] by { RecordOf(st, t); }
    hide Inv, WaitFor, FirstFrom, AnyOutcome;
    var os := Ids(WaitHandles(handles));
    assert forall o | o in os :: o in st.subjects;
    k := WaitForAny(st, t, BeginWait(st, st.threads[t], os, false, timeout), os);
  }

  /** What a wait for one object leads to, by kind. A signalled sticky event stays signalled, a one-shot event does
      not; the owner of a mutex locks it once more; an expired one-shot timer is off, a sticky one
      unchanged, and a pulse timer runs for its period from now on. */
  ghost predicate WaitsByKind(st: State, r: Result, t: Tid, o: Oid)
    requires o in st.subjects
  {
    var x := st.subjects[o].resource;
    && (x == Event(true, Sticky) ==> Completed(st, r, t, o, Event(true, Sticky)))
    && (x == Event(true, OneShot) ==> Completed(st, r, t, o, Event(false, OneShot)))
    && (x.Semaphore? && x.available > 0 ==> Completed(st, r, t, o, x.(available := x.available - 1)))
    && (x.Mutex? && x.lockCount == 0 ==> Completed(st, r, t, o, Mutex(1, Some(t))))
    && (x.Mutex? && x.lockCount > 0 && x.owner == Some(t) ==> Completed(st, r, t, o, Mutex(x.lockCount + 1, Some(t))))
    && (x.Timer? && Expired(st, o) && x.reset == OneShot ==> Completed(st, r, t, o, x.(active := false)))
    && (x.Timer? && Expired(st, o) && x.reset == Sticky ==> Completed(st, r, t, o, x))
    && (x.Timer? && Expired(st, o) && x.reset == Pulse ==> Completed(st, r, t, o, x.(deadline := st.now + x.period)))
    && (x.Event? && !x.signalled ==> FellAsleepOn(st, r, t, o))
    && (x.Semaphore? && x.available == 0 ==> FellAsleepOn(st, r, t, o))
    && (x.Mutex? && x.lockCount > 0 && x.owner != Some(t) && x.owner.Some? && x.owner.value in st.threads
        ==> FellAsleepOn(st, r, t, o))
    && (x.Timer? && !Expired(st, o) ==> FellAsleepOn(st, r, t, o))
    && (x.ThreadEnd? && x.thread in st.threads && st.threads[x.thread].status != Stopped ==> FellAsleepOn(st, r, t, o))
    && (x.ThreadEnd? && (x.thread !in st.threads || st.threads[x.thread].status == Stopped) ==> Completed(st, r, t, o, x))
  }

  lemma WaitOne(st: State, t: Tid, o: Oid, timeout: int)
    requires Inv(st) && t in st.threads && st.threads[t].status == Ready && st.threads[t].life == Alive && o in st.subjects
    ensures WaitsByKind(st, Wait(st, t, [Object(o)], false, timeout), t, o)
  {
    var hs := [Object(o)];
    assert WaitHandles(hs) == hs && Ids(hs) == [o];
    assert SubjectOk(st.subjects[o]);
    hide Wait, WaitHandles, Ids, Inv, WaitsByKind, AnyOutcome, FirstFrom;
    var k := WaitAnyExact(st, t, hs, timeout);
    OneByKind(st, Wait(st, t, hs, false, timeout), t, o, k);
  }

  lemma OneByKind(st: State, r: Result, t: Tid, o: Oid, k: nat)
    requires t in st.threads && o in st.subjects && FirstFrom(st, t, [o], 0, k) && AnyOutcome(st, r, t, [o], k)
    requires SubjectOk(st.subjects[o])
    ensures WaitsByKind(st, r, t, o)
  {
    hide AnyOutcome, FirstFrom, Completed, FellAsleepOn;
    OneOutcome(st, r, t, o, k);
  }

  /** A handle that names no object. */
  predicate Bad(st: State, h: Handle) {
    !h.Object? || h.id !in st.subjects
  }

  /** An invalid handle in third and last place is ignored. Any other handle that names no object makes the call
      fail, and nothing else does so with that error. */
  lemma HandlesChecked(st: State, t: Tid, handles: seq<Handle>, all: bool, timeout: int)
    requires Inv(st) && t in st.threads && st.threads[t].status == Ready && st.threads[t].life == Alive
    ensures var r := Wait(st, t, handles, all, timeout);
            if |handles| == 3 && handles[2] == Invalid then
              && r == Wait(st, t, [handles[0], handles[1]], all, timeout)
              && (r == Failed(HandleNotFound) <==> Bad(st, handles[0]) || Bad(st, handles[1]))
            else r == Failed(HandleNotFound) <==> exists h | h in handles :: Bad(st, h)
  {
    assert st.threads[t].waitList == [] by { RecordOf(st, t); }
    var hs := WaitHandles(handles);
    if |handles| == 3 && handles[2] == Invalid {
      assert handles[..2] == [handles[0], handles[1]];
      assert forall h :: h in hs <==> h == handles[0] || h == handles[1];
    }
    hide Inv, WaitFor;
    if forall h | h in hs :: !Bad(st, h) {
      var os := Ids(hs);
      forall o | o in os
        ensures o in st.subjects
      {
        var i :| 0 <= i < |os| && os[i] == o;
        assert hs[i] in hs && !Bad(st, hs[i]);
      }
      WaitForFault(st, t, BeginWait(st, st.threads[t], os, all, timeout), os, all);
    }
  }

  lemma WaitForFault(st: State, t: Tid, th: Thread, os: seq<Oid>, all: bool)
    requires t in st.threads && th.waitList == [] && forall o | o in os :: o in st.subjects
    ensures WaitFor(st, t, th, os, all) != Failed(HandleNotFound)
  {
    var st0 := SetThread(st, t, th);
    RegisterClosed(st0, os, t);
    hide Scan, Register;
    ScanFault(Register(st0, os, t), t, 0, all);
  }

  lemma {:induction false} ScanFault(st: State, t: Tid, i: nat, all: bool)
    requires t in st.threads && i <= |st.threads[t].waitList|
    requires forall o | o in st.threads[t].waitList :: o in st.subjects
    ensures Scan(st, t, i, all) != Failed(HandleNotFound)
    decreases |st.threads[t].waitList| - i
  {
    var th := st.threads[t];
    if i < |th.waitList| {
      var o := th.waitList[i];
      if TryAcquire(st, o, t).Missed? {
        ScanFault(st, t, i + 1, all);
      } else if TryAcquire(st, o, t).Got? {
        var st1 := TryAcquire(st, o, t).state;
        var rest := RemoveAt(th.waitList, i);
        hide TryAcquire, RemoveAt;
        if all {
          ScanFault(SetThread(st1, t, st1.threads[t].(wakeIndex := i, woken := Some(o), waitList := rest)), t, i, all);
        } else {
          DropFault(st1, rest, t);
        }
      }
    }
  }

  lemma {:induction false} DropFault(st: State, os: seq<Oid>, t: Tid)
    ensures UnregisterAll(st, os, t) != Failed(HandleNotFound)
    decreases |os|
  {
    if os != [] && os[0] in st.subjects && t in st.subjects[os[0]].observers {
      DropFault(Unregister(st, os[0], t), os[1..], t);
    }
  }

  lemma OneOutcome(st: State, r: Result, t: Tid, o: Oid, k: nat)
    requires t in st.threads && o in st.subjects && FirstFrom(st, t, [o], 0, k) && AnyOutcome(st, r, t, [o], k)
    ensures Obtainable(st, o, t) ==>
              r.Ok? && o in r.state.subjects && Takes(st.subjects[o].resource, r.state.subjects[o].resource, t, st.now)
              && Completed(st, r, t, o, r.state.subjects[o].resource)
    ensures !Obtainable(st, o, t) && !Orphaned(st, o) ==> FellAsleepOn(st, r, t, o)
  {
    hide Obtainable, Orphaned, Takes;
    assert [o][0] == o;
    assert k == 0 <==> Obtainable(st, o, t);
    assert OrphanBefore(st, [o], 0, k) <==> k == 1 && Orphaned(st, o) by {
      if k == 1 && Orphaned(st, o) {
        assert Orphaned(st, [o][0]);
      }
    }
    assert Repeated(t, Count([o], o)) == [t];
  }

  /** The wait was over at once, and left the object like that. */
  ghost predicate Completed(st: State, r: Result, t: Tid, o: Oid, left: Resource)
    requires o in st.subjects
  {
    && r.Ok? && o in r.state.subjects && t in r.state.threads
    && r.state.subjects[o].resource == left && r.state.subjects[o].observers == st.subjects[o].observers
    && r.state.threads[t].status == Ready && r.state.threads[t].result == RESULT_OK && r.state.threads[t].acquired == [o]
  }

  /** The thread sleeps as the last observer of the object. */
  ghost predicate FellAsleepOn(st: State, r: Result, t: Tid, o: Oid)
    requires o in st.subjects
  {
    && r.Ok? && o in r.state.subjects && t in r.state.threads
    && r.state.subjects[o].resource == st.subjects[o].resource
    && r.state.subjects[o].observers == st.subjects[o].observers + [t]
    && r.state.threads[t].status == Sleeping && t !in r.state.ready
  }

  // ---------------------------------------------------------------------------
  // Who is left alone when time passes
  // ---------------------------------------------------------------------------

  /** Announcing an object leaves everybody else alone. */
  lemma {:induction false} ReadySpares(st: State, o: Oid, t: Tid)
    requires Core(st) && o in st.subjects && t in st.threads && t !in st.subjects[o].observers
    ensures var r := OnResourceReady(st, o);
            r.Ok? ==> t in r.state.threads && r.state.threads[t] == st.threads[t]
    decreases |st.subjects[o].observers|
  {
    hide Core, TryAcquire, OnResourceAcquired, Granted, ThreadOk, TryAcquireImpl;
    if st.subjects[o].observers != [] {
      FrontSleeps(st, o);
      var u := st.subjects[o].observers[0];
      if TryAcquire(st, o, u).Got? {
        Round(st, o);
        hide OnResourceReady;
        ReadySpares(OnResourceAcquired(TryAcquire(st, o, u).state, u, o).state, o, t);
      }
    }
  }

  /** None of the objects that t waits for is an expired timer. */
  ghost predicate NoneExpired(st: State, t: Tid)
    requires t in st.threads
  {
    forall o | o in st.threads[t].waitList :: o in st.subjects && !Expired(st, o)
  }

  lemma NotAmong(st: State, t: Tid, o: Oid)
    requires Core(st) && t in st.threads && o in st.subjects && o !in st.threads[t].waitList
    ensures t !in st.subjects[o].observers
  {
    assert Observes(st, t, o) == Awaits(st, t, o);
  }

  lemma {:induction false} TimersSpare(st: State, timers: seq<Oid>, t: Tid)
    requires Core(st) && t in st.threads && NoneExpired(st, t)
    ensures var r := RunTimers(st, timers);
            r.Ok? ==> t in r.state.threads && r.state.threads[t] == st.threads[t]
    decreases |timers|
  {
    if timers != [] {
      var o := timers[0];
      hide Core, OnResourceReady, NoneExpired;
      if o in st.subjects && Expired(st, o) {
        OneTimerSpares(st, o, t);
        if OnResourceReady(st, o).Ok? {
          TimersSpare(OnResourceReady(st, o).state, timers[1..], t);
        }
      } else {
        TimersSpare(st, timers[1..], t);
      }
    }
  }

  lemma OneTimerSpares(st: State, o: Oid, t: Tid)
    requires Core(st) && t in st.threads && NoneExpired(st, t) && o in st.subjects && Expired(st, o)
    ensures var r := OnResourceReady(st, o);
            r.Ok? ==> Core(r.state) && t in r.state.threads && r.state.threads[t] == st.threads[t] && NoneExpired(r.state, t)
  {
    NotAmong(st, t, o);
    hide Core, OnResourceReady, Calmer, SameNames, KeepsReady;
    ReadySpares(st, o, t);
    ReadyKeeps(st, o);
    ReadyOnlyWakes(st, o);
  }

  lemma {:induction false} InterruptsSpare(st: State, events: seq<Oid>, t: Tid)
    requires Core(st) && t in st.threads && forall o | o in st.threads[t].waitList :: o !in events
    ensures var r := FireInterrupts(st, events);
            r.Ok? ==> t in r.state.threads && r.state.threads[t] == st.threads[t]
    decreases |events|
  {
    if events != [] && events[0] in st.subjects && st.subjects[events[0]].resource.Event? {
      var e := events[0];
      var s := st.subjects[e].(resource := st.subjects[e].resource.(signalled := true));
      var st1 := Restocked(st, e, s);
      SubjectInOrder(st, e);
      NotAmong(st, t, e);
      assert SetResource(st, e, s.resource) == st1;
      hide Core, OnResourceReady, Calmer, SameNames, KeepsReady;
      RestockKeeps(st, e, s);
      ReadySpares(st1, e, t);
      ReadyKeeps(st1, e);
      if OnResourceReady(st1, e).Ok? {
        InterruptsSpare(OnResourceReady(st1, e).state, events[1..], t);
      }
    }
  }

  // ---------------------------------------------------------------------------
  // Timeouts
  // ---------------------------------------------------------------------------

  lemma TimedOutTwice(th: Thread)
    ensures TimedOutThread(TimedOutThread(th)) == TimedOutThread(th)
    ensures TimedOutThread(th).timeoutAt == th.timeoutAt
  {
  }

  /** The pass over the waiting queue changes exactly the threads that are due. */
  lemma {:induction false} TimeoutsRecord(st: State, i: nat, t: Tid)
    requires Core(st) && i <= |st.waiting| && t in st.threads
    ensures RunTimeouts(st, i).Ok? && t in RunTimeouts(st, i).state.threads
    ensures RunTimeouts(st, i).state.threads[t] == if Due(st, i, t) then TimedOutThread(st.threads[t]) else st.threads[t]
    decreases |st.waiting| - i
  {
    hide Core, Expire, RemoveAt, TimedOutThread, Calmer, SameNames, KeepsReady;
    if i == |st.waiting| {
      assert st.waiting[i..] == [];
    } else {
      var u := st.waiting[i];
      TimedOutTwice(st.threads[t]);
      if u !in st.threads {
        var st1 := st.(waiting := RemoveAt(st.waiting, i));
        CoreIgnores(st, st1);
        TimeoutsRecord(st1, i, t);
        DueAfter(st, st1, i, t);
      } else if st.threads[u].timeoutAt <= st.now {
        ExpireEffect(st, u);
        ExpireKeeps(st, u);
        var st0 := Expire(st, u).state;
        var st1 := st0.(waiting := RemoveAt(st.waiting, i));
        CoreIgnores(st0, st1);
        TimedOutTwice(st.threads[u]);
        TimeoutsRecord(st1, i, t);
        DueAfter(st, st1, i, t);
      } else {
        TimeoutsRecord(st, i + 1, t);
        DueNext(st, i, t);
      }
    }
  }

  /** The timeout of t has passed when the clock has moved. */
  predicate Passed(st: State, t: Tid, tick: Tick)
    requires t in st.threads
  {
    t in st.waiting && st.threads[t].timeoutAt <= st.now + tick.elapsed
  }

  /** What the passing of time does to one thread: if it is awake it stays as it is or is woken by its timeout.
      If it sleeps it may be served first, by a timer or an interrupt; otherwise it times out exactly
      if its timeout has passed. It is not served if none of its objects is signalled or expires. */
  lemma ElapseRecord(st: State, tick: Tick, t: Tid)
    requires Core(st) && t in st.threads && ElapseTime(st, tick).Ok?
    ensures t in ElapseTime(st, tick).state.threads
    ensures var th, th' := st.threads[t], ElapseTime(st, tick).state.threads[t];
            && (th.status != Sleeping ==> th' == if Passed(st, t, tick) then th.(status := Ready) else th)
            && (th.status == Sleeping ==>
                  || (th'.status == Ready && th'.result == RESULT_OK)
                  || (Passed(st, t, tick) && th'.status == Ready && th'.result == RESULT_TIMEOUT && th'.waitList == [])
                  || (!Passed(st, t, tick) && th'.status == Sleeping))
            && (th.status == Sleeping && (forall o | o in th.waitList :: o !in tick.fired) && NoneExpired(st.(now := st.now + tick.elapsed), t)
                ==> th' == if Passed(st, t, tick) then TimedOutThread(th) else th)
  {
    AsleepWithoutResult(st, t);
    hide Core, ElapseTime, RunTimeouts, Wakes, NoneExpired, TimedOutThread;
    var st2 := BeforeTimeouts(st, tick, t);
    WokenRecord(st.(now := st.now + tick.elapsed), st2, t);
    TimeoutsRecord(st2, 0, t);
    assert st2.waiting[0..] == st.waiting;
    TimedOutIs(st2.threads[t]);
  }

  /** Timers and interrupts come before timeouts: a thread that waits for any of some objects, of which one is a
      sticky event whose interrupt fires, is served and does not time out, even if its time has come. */
  lemma ServedBeforeTimeout(st: State, tick: Tick, t: Tid, e: Oid)
    requires Core(st) && t in st.threads && st.threads[t].status == Sleeping && !st.threads[t].waitForAll
    requires e in st.threads[t].waitList && e in tick.fired && ElapseTime(st, tick).Ok?
    requires e in st.subjects && st.subjects[e].resource.Event? && st.subjects[e].resource.reset == Sticky
    ensures t in ElapseTime(st, tick).state.threads
    ensures var th' := ElapseTime(st, tick).state.threads[t]; th'.status == Ready && th'.result == RESULT_OK
  {
    AsleepWithoutResult(st, t);
    var st0 := st.(now := st.now + tick.elapsed);
    assert Core(st0) by { CoreIgnores(st, st0); }
    ElapseParts(st, tick);
    hide ElapseTime, RunTimers, FireInterrupts, RunTimeouts, TimedOutThread;
    var st2 := Announced(st0, tick.fired, t) by { hide Core; }
    assert st.threads[t].request == st.threads[t].waitList by { RecordOk(st, t); }
    FiredServes(st0, tick.fired, e);
    NotAsleepOn(st0, st2, t, e);
    hide Core, Wakes;
    WokenRecord(st0, st2, t) by { assert Wakes(st0, st2); }
    TimeoutsRecord(st2, 0, t);
    TimedOutIs(st2.threads[t]);
  }

  lemma FiredServes(st: State, fired: seq<Oid>, e: Oid)
    requires Core(st) && RunTimers(st, st.timers).Ok? && FireInterrupts(RunTimers(st, st.timers).state, fired).Ok?
    requires e in fired && e in st.subjects && st.subjects[e].resource.Event? && st.subjects[e].resource.reset == Sticky
    ensures var st2 := FireInterrupts(RunTimers(st, st.timers).state, fired).state;
            e in st2.subjects && st2.subjects[e].observers == []
  {
    hide Core, RunTimers, FireInterrupts, SameNames, KeepsReady, Quiet;
    TimersKeep(st, st.timers);
    var st1 := RunTimers(st, st.timers).state;
    TimersLeaveEvents(st, st.timers, e);
    InterruptsSignal(st1, fired);
  }

  lemma {:induction false} TimersLeaveEvents(st: State, timers: seq<Oid>, e: Oid)
    requires Core(st) && e in st.subjects && !st.subjects[e].resource.Timer?
    ensures var r := RunTimers(st, timers);
            r.Ok? ==> e in r.state.subjects && r.state.subjects[e].resource == st.subjects[e].resource
    decreases |timers|
  {
    hide Core, OnResourceReady, Calmer, SameNames, KeepsReady;
    if timers != [] {
      if timers[0] in st.subjects && Expired(st, timers[0]) {
        ReadyKeeps(st, timers[0]);
        ReadyOnlyWakes(st, timers[0]);
        var r := OnResourceReady(st, timers[0]);
        if r.Ok? {
          TimersLeaveEvents(r.state, timers[1..], e);
        }
      } else {
        TimersLeaveEvents(st, timers[1..], e);
      }
    }
  }

  /** A thread that would still sleep would still be registered with everything it waits for. */
  lemma NotAsleepOn(st: State, st2: State, t: Tid, e: Oid)
    requires Core(st2) && Wakes(st, st2) && t in st.threads && t in st2.threads && !st.threads[t].waitForAll
    requires e in st.threads[t].request && e in st2.subjects && st2.subjects[e].observers == []
    ensures st2.threads[t].status != Sleeping
  {
    RecordOk(st2, t);
    assert Observes(st2, t, e) == Awaits(st2, t, e);
  }

  lemma TimedOutIs(th: Thread)
    ensures TimedOutThread(th).status == Ready
    ensures th.status == Sleeping ==> TimedOutThread(th).result == RESULT_TIMEOUT && TimedOutThread(th).waitList == []
    ensures th.status != Sleeping ==> TimedOutThread(th) == th.(status := Ready)
  {
  }

  /** Timers and interrupts come first; what they leave alone is as it was. */
  lemma BeforeTimeouts(st: State, tick: Tick, t: Tid) returns (st2: State)
    requires Core(st) && t in st.threads && ElapseTime(st, tick).Ok?
    ensures var st0 := st.(now := st.now + tick.elapsed);
            && Core(st2) && Wakes(st0, st2) && ElapseTime(st, tick) == RunTimeouts(st2, 0) && t in st2.threads
            && ((forall o | o in st.threads[t].waitList :: o !in tick.fired) && NoneExpired(st0, t) ==> st2.threads[t] == st.threads[t])
  {
    var st0 := st.(now := st.now + tick.elapsed);
    assert Core(st0) by { CoreIgnores(st, st0); }
    ElapseParts(st, tick);
    hide Core, RunTimers, FireInterrupts, RunTimeouts, Wakes, NoneExpired, ElapseTime;
    st2 := Announced(st0, tick.fired, t);
  }

  lemma ElapseParts(st: State, tick: Tick)
    requires ElapseTime(st, tick).Ok?
    ensures var st0 := st.(now := st.now + tick.elapsed);
            && RunTimers(st0, st.timers).Ok? && FireInterrupts(RunTimers(st0, st.timers).state, tick.fired).Ok?
            && ElapseTime(st, tick) == RunTimeouts(FireInterrupts(RunTimers(st0, st.timers).state, tick.fired).state, 0)
  {
    hide RunTimers, FireInterrupts, RunTimeouts;
  }

  lemma Announced(st: State, fired: seq<Oid>, t: Tid) returns (st2: State)
    requires Core(st) && t in st.threads && RunTimers(st, st.timers).Ok? && FireInterrupts(RunTimers(st, st.timers).state, fired).Ok?
    ensures st2 == FireInterrupts(RunTimers(st, st.timers).state, fired).state && Core(st2) && Wakes(st, st2) && t in st2.threads
    ensures (forall o | o in st.threads[t].waitList :: o !in fired) && NoneExpired(st, t) ==> st2.threads[t] == st.threads[t]
  {
    hide Core, RunTimers, FireInterrupts, Wakes, NoneExpired, Calmer, SameNames, KeepsReady;
    TimersKeep(st, st.timers);
    TimersWoke(st, st.timers);
    var st1 := RunTimers(st, st.timers).state;
    InterruptsSettle(st1, fired);
    InterruptsWoke(st1, fired);
    st2 := FireInterrupts(st1, fired).state;
    WokeTrans(st, st1, FireInterrupts(st1, fired));
    WokenRecord(st, st2, t);
    if (forall o | o in st.threads[t].waitList :: o !in fired) && NoneExpired(st, t) {
      TimersSpare(st, st.timers, t);
      InterruptsSpare(st1, fired, t);
    }
  }

  lemma AsleepWithoutResult(st: State, t: Tid)
    requires Core(st) && t in st.threads
    ensures st.threads[t].status == Sleeping ==> st.threads[t].result == RESULT_OK
  {
    RecordOk(st, t);
  }

  lemma WokenRecord(st: State, st': State, t: Tid)
    requires Wakes(st, st') && t in st.threads
    ensures st'.waiting == st.waiting && st'.now == st.now && t in st'.threads
    ensures st.threads[t].status != Sleeping ==> st'.threads[t] == st.threads[t]
    ensures st'.threads[t].result == st.threads[t].result && st'.threads[t].timeoutAt == st.threads[t].timeoutAt
    ensures st'.threads[t].status == Ready || st'.threads[t].status == st.threads[t].status
  {
  }

  /** A thread that a wait left asleep: when the wait began, and until when it lasts. */
  lemma AsleepUntil(st: State, t: Tid, handles: seq<Handle>, all: bool, timeout: int)
    requires Inv(st) && t in st.threads && st.threads[t].status == Ready && st.threads[t].life == Alive
    requires Wait(st, t, handles, all, timeout).Ok?
    ensures var st1 := Wait(st, t, handles, all, timeout).state;
            && Inv(st1) && t in st1.threads && st1.now == st.now
            && (st1.threads[t].status == Sleeping ==>
                  && (timeout == -1 ==> st1.threads[t].timeoutAt == NO_TIMEOUT)
                  && (timeout != -1 && 0 <= st.now + timeout < NO_TIMEOUT ==>
                        st1.threads[t].timeoutAt == st.now + timeout && t in st1.waiting))
  {
    WaitKeeps(st, t, handles, all, timeout);
    hide Inv, WaitFor, Wait, BeginWait, WaitHandlesOf;
    var os := Ids(WaitHandlesOf(st, t, handles, all, timeout));
    BeginsUntil(st, st.threads[t], os, all, timeout);
    WaitForUntil(st, t, BeginWait(st, st.threads[t], os, all, timeout), os, all);
  }

  lemma BeginsUntil(st: State, th: Thread, os: seq<Oid>, all: bool, timeout: int)
    ensures var th' := BeginWait(st, th, os, all, timeout);
            && th'.waitList == th.waitList && th'.status == th.status
            && (timeout == -1 ==> th'.timeoutAt == NO_TIMEOUT)
            && (timeout != -1 && 0 <= st.now + timeout < NO_TIMEOUT ==> th'.timeoutAt == st.now + timeout)
  {
    if 0 <= st.now + timeout < NO_TIMEOUT {
      InRange(st.now + timeout);
    }
  }

  lemma InRange(a: int)
    requires 0 <= a < U64
    ensures a % U64 == a
  {
  }

  /** The handles of a wait that did not fault all name objects, and the thread waited for nothing before. */
  ghost function WaitHandlesOf(st: State, t: Tid, handles: seq<Handle>, all: bool, timeout: int): (hs: seq<Handle>)
    requires t in st.threads && Wait(st, t, handles, all, timeout).Ok?
    ensures st.threads[t].waitList == [] && (forall h | h in hs :: h.Object? && h.id in st.subjects)
    ensures Wait(st, t, handles, all, timeout) == WaitFor(st, t, BeginWait(st, st.threads[t], Ids(hs), all, timeout), Ids(hs), all)
  {
    WaitHandles(handles)
  }

  lemma WaitForUntil(st: State, t: Tid, th: Thread, os: seq<Oid>, all: bool)
    requires t in st.threads && th.waitList == [] && (forall o | o in os :: o in st.subjects) && WaitFor(st, t, th, os, all).Ok?
    requires th.status == Ready
    ensures var st1 := WaitFor(st, t, th, os, all).state;
            && t in st1.threads && st1.now == st.now && st1.threads[t].timeoutAt == th.timeoutAt
            && (st1.threads[t].status == Sleeping && th.timeoutAt != NO_TIMEOUT ==> t in st1.waiting)
  {
    hide Scan, Register, WaitFor;
    WaitForIs(st, t, th, os, all);
    RegisterClosed(SetThread(st, t, th), os, t);
    ScanOnly(Register(SetThread(st, t, th), os, t), t, 0, all);
  }

  /** The thread's wait is over because of its timeout. */
  predicate TimedOutNow(th: Thread) {
    th.status == Ready && th.result == RESULT_TIMEOUT
  }

  /** A thread that began to wait with timeout n, and that no timer or interrupt serves when the clock moves
      next, times out exactly if the clock moved by n or more; in particular it cannot time out
      earlier, nor sleep longer. This holds for every timeout but -1 whose end can be represented;
      with -1 there is no timeout. Timers and interrupts serve nobody whose objects they leave alone. */
  lemma WaitTimesOut(st: State, t: Tid, handles: seq<Handle>, all: bool, n: int, tick: Tick)
    requires Inv(st) && t in st.threads && st.threads[t].status == Ready && st.threads[t].life == Alive
    requires Wait(st, t, handles, all, n).Ok? && t in Wait(st, t, handles, all, n).state.threads
    requires Wait(st, t, handles, all, n).state.threads[t].status == Sleeping
    requires ElapseTime(Wait(st, t, handles, all, n).state, tick).Ok?
    ensures var st1 := Wait(st, t, handles, all, n).state;
            var st2 := ElapseTime(st1, tick).state;
            && t in st2.threads
            && var th, th' := st1.threads[t], st2.threads[t];
            var served := th'.status == Ready && th'.result == RESULT_OK;
            && (n != -1 && 0 <= st.now + n < NO_TIMEOUT && !served ==> (TimedOutNow(th') <==> n <= tick.elapsed))
            && (n != -1 && 0 <= st.now + n < NO_TIMEOUT && !served && n > tick.elapsed ==> th'.status == Sleeping)
            && (n == -1 && st.now + tick.elapsed < NO_TIMEOUT ==> !TimedOutNow(th'))
            && ((forall o | o in th.waitList :: o in st1.subjects && o !in tick.fired
                                                && !(st1.subjects[o].resource.Timer? && st1.subjects[o].resource.active
                                                     && st1.subjects[o].resource.deadline <= st.now + tick.elapsed))
                ==> !served)
  {
    AsleepUntil(st, t, handles, all, n);
    hide Inv, Wait, ElapseTime;
    var st1 := Wait(st, t, handles, all, n).state;
    InvParts(st1);
    AsleepWithoutResult(st1, t);
    hide Core;
    ElapseRecord(st1, tick, t);
  }

  lemma InvParts(st: State)
    requires Inv(st)
    ensures Core(st)
  {
  }

  /** A thread that pauses for n is ready again exactly if the clock moved by n or more. */
  lemma SleepWakes(st: State, t: Tid, n: int, tick: Tick)
    requires Inv(st) && t in st.threads && st.threads[t].status == Ready && st.threads[t].life == Alive
    requires 0 <= st.now + n < U64
    ensures var r := Perform(st, t, SleepThread(n));
            && r.Ok? && t in r.state.threads && r.state.threads[t].status == WaitingForTimeout && t !in r.state.ready
            && (ElapseTime(r.state, tick).Ok? ==>
                  var st2 := ElapseTime(r.state, tick).state;
                  t in st2.threads && st2.threads[t].status == if n <= tick.elapsed then Ready else WaitingForTimeout)
  {
    hide Inv, ElapseTime, Perform, Core;
    PerformSound(st, t, SleepThread(n));
    SleepIs(st, t, n);
    InRange(st.now + n);
    var st1 := Perform(st, t, SleepThread(n)).state;
    InvParts(st1);
    if ElapseTime(st1, tick).Ok? {
      ElapseRecord(st1, tick, t);
    }
  }

  lemma SleepIs(st: State, t: Tid, n: int)
    requires t in st.threads
    ensures var th := st.threads[t].(timeoutAt := (st.now + n) % U64, status := WaitingForTimeout);
            Perform(st, t, SleepThread(n)) == Ok(SetThread(st, t, th).(ready := RemoveAll(st.ready, t), waiting := st.waiting + [t]))
  {
    hide OnResourceReady, Wait, ExitThreads, SpawnThread, Reschedule, AddSubject, ReleaseSemaphoreOn;
  }
}
