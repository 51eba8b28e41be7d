/** SVCWaitSynchronizationN keeps the kernel's invariants and makes the right acquisitions. */
module KernelWaiting {
  import opened Options
  import opened Lists
  import opened Kernel
  import opened KernelInvariants

  /** Everything but the waiting thread itself is in order. */
  ghost predicate CoreBut(st: State, t: Tid) {
    && Linked(st) && ThreadsOkBut(st, t) && QueueOk(st) && SubjectsOk(st) && NamesOk(st)
    && t in st.threads && st.threads[t].status == Ready && st.threads[t].life == Alive
  }

  /** Only t, which is still looking, may be registered with an available object. */
  ghost predicate QuietBut(st: State, t: Tid) {
    forall o, u | o in st.subjects && !st.subjects[o].resource.Timer? && u in st.subjects[o].observers ::
      Available(st, o) ==> u == t
  }

  /** The objects before position i were tried and are not available. */
  ghost predicate Tried(st: State, t: Tid, i: nat)
    requires t in st.threads && i <= |st.threads[t].waitList|
  {
    forall j | 0 <= j < i ::
      && st.threads[t].waitList[j] in st.subjects
      && (Available(st, st.threads[t].waitList[j]) ==> st.subjects[st.threads[t].waitList[j]].resource.Timer?)
  }

  /** The books of a wait under way: what was acquired and what is left make up the request. */
  ghost predicate UnderWay(th: Thread, all: bool) {
    && th.requestAll == all && th.result == RESULT_OK
    && (all ==> forall o: Oid :: Count(th.acquired, o) + Count(th.waitList, o) == Count(th.request, o))
    && (!all ==> th.acquired == [] && th.waitList == th.request)
  }

  ghost predicate Scanning(st: State, t: Tid, i: nat, all: bool) {
    && CoreBut(st, t) && QuietBut(st, t)
    && i <= |st.threads[t].waitList| && Tried(st, t, i)
    && UnderWay(st.threads[t], all)
  }

  /** The scan is over: nobody sleeps on an available object, and the wait is complete or under way. */
  ghost predicate Scanned(st: State, t: Tid, all: bool) {
    && CoreBut(st, t) && NoLostWakeup(st)
    && var th := st.threads[t];
       if th.waitList == [] then th.result == RESULT_OK && WaitHonoured(th) else UnderWay(th, all)
  }

  // ---------------------------------------------------------------------------
  // Registering
  // ---------------------------------------------------------------------------

  lemma RegisterOneLinks(st: State, o: Oid, t: Tid)
    requires Linked(st) && t in st.threads && o in st.subjects
    ensures Linked(RegisterOne(st, o, t))
  {
    var st' := RegisterOne(st, o, t);
    forall u, p | u in st'.threads && p in st'.subjects
      ensures Observes(st', u, p) == Awaits(st', u, p)
    {
      CountConcat(st.subjects[o].observers, [t], u);
      CountConcat(st.threads[t].waitList, [o], p);
      assert Observes(st, u, p) == Awaits(st, u, p);
    }
  }

  /** Registering t with objects changes nobody else's registrations. */
  lemma {:induction false} RegisterLinks(st: State, os: seq<Oid>, t: Tid)
    requires Linked(st) && t in st.threads
    requires forall o | o in os :: o in st.subjects
    ensures Linked(Register(st, os, t))
    ensures forall o, u | o in st.subjects && o in Register(st, os, t).subjects
                          && u in Register(st, os, t).subjects[o].observers ::
              u == t || u in st.subjects[o].observers
    decreases |os|
  {
    if os != [] {
      RegisterOneLinks(st, os[0], t);
      hide Linked;
      RegisterLinks(RegisterOne(st, os[0], t), os[1..], t);
    }
  }

  /** A ready thread that waits on nothing starts scanning in good order. */
  lemma StartScan(st: State, t: Tid, th: Thread, os: seq<Oid>, all: bool)
    requires Inv(st) && t in st.threads
    requires th.waitList == st.threads[t].waitList == [] && th.status == st.threads[t].status == Ready
    requires th.life == st.threads[t].life == Alive
    requires th.subject == st.threads[t].subject
    requires th.requestAll == all && th.result == RESULT_OK && th.request == os && th.acquired == []
    requires forall o | o in os :: o in st.subjects
    ensures Scanning(Register(SetThread(st, t, th), os, t), t, 0, all)
  {
    hide ThreadsOk, QueueOk, SubjectsOk, NoLostWakeup, ThreadsOkBut, QuietBut, SameShape, Linked, NamesOk;
    var st0 := SetThread(st, t, th);
    BeginLinks(st, t, th);
    RegisterLinks(st0, os, t);
    RegisterClosed(st0, os, t);
    var st1 := Register(st0, os, t);
    assert [] + os == os;
    hide Register;
    assert st1.threads == st.threads[t := st1.threads[t]];
    SameNamesOk(st, st1);
    hide SameNames;
    StartQuiet(st, st1, t);
  }

  /** Only the thread itself and observer lists differ, and only t was added to those. */
  lemma StartQuiet(st: State, st1: State, t: Tid)
    requires ThreadsOk(st) && QueueOk(st) && SubjectsOk(st) && NoLostWakeup(st) && t in st.threads
    requires st.threads[t].status == Ready
    requires st1.subjects.Keys == st.subjects.Keys && st1.now == st.now && st1.ready == st.ready
    requires t in st1.threads && st1.threads == st.threads[t := st1.threads[t]] && st1.threads[t].status == Ready
    requires forall o | o in st.subjects ::
               st1.subjects[o] == st.subjects[o].(observers := st1.subjects[o].observers)
    requires forall o, u | o in st.subjects && u in st1.subjects[o].observers ::
               u == t || u in st.subjects[o].observers
    ensures ThreadsOkBut(st1, t) && QueueOk(st1) && SubjectsOk(st1) && QuietBut(st1, t)
  {
    forall o | o in st1.subjects
      ensures SubjectOk(st1.subjects[o])
    {
      assert SubjectOk(st.subjects[o]);
    }
    forall o, u | o in st1.subjects && !st1.subjects[o].resource.Timer? && u in st1.subjects[o].observers
      ensures Available(st1, o) ==> u == t
    {
      assert Quiet(st, o);
    }
  }

  lemma BeginLinks(st: State, t: Tid, th: Thread)
    requires Linked(st) && t in st.threads && th.waitList == st.threads[t].waitList
    ensures Linked(SetThread(st, t, th))
  {
    var st' := SetThread(st, t, th);
    forall u, o | u in st'.threads && o in st'.subjects
      ensures Observes(st', u, o) == Awaits(st', u, o)
    {
      assert Observes(st, u, o) == Awaits(st, u, o);
    }
  }

  // ---------------------------------------------------------------------------
  // Scanning
  // ---------------------------------------------------------------------------

  lemma ScanEnd(st: State, t: Tid, all: bool)
    requires t in st.threads && Scanning(st, t, |st.threads[t].waitList|, all)
    ensures Scanned(st, t, all)
  {
    AllTriedQuiet(st, t);
    hide CoreBut, QuietBut, Tried, NoLostWakeup;
  }

  lemma AllTriedQuiet(st: State, t: Tid)
    requires Linked(st) && QuietBut(st, t) && t in st.threads && Tried(st, t, |st.threads[t].waitList|)
    ensures NoLostWakeup(st)
  {
    forall o | o in st.subjects && !st.subjects[o].resource.Timer? && st.subjects[o].observers != []
      ensures !Available(st, o)
    {
      var u := st.subjects[o].observers[0];
      assert u in st.subjects[o].observers;
      ObserverWaits(st, o, u);
      hide Available, Linked;
    }
  }

  /** What a successful TryAcquire by t changes. */
  ghost predicate Took(st: State, st1: State, o: Oid, t: Tid)
    requires t in st.threads
  {
    && st1 == st.(subjects := st1.subjects, threads := st1.threads)
    && st1.threads == st.threads[t := st.threads[t].(acquired := st.threads[t].acquired + [o])]
    && st1.subjects.Keys == st.subjects.Keys
    && forall p, u | p in st.subjects && u in st1.subjects[p].observers :: u in st.subjects[p].observers
  }

  lemma TryAcquireTook(st: State, o: Oid, t: Tid)
    requires t in st.threads && o in st.subjects && TryAcquire(st, o, t).Got?
    ensures Took(st, TryAcquire(st, o, t).state, o, t)
  {
  }

  /** t took o and, with its remaining registrations, became th. */
  ghost predicate MovedOn(st: State, st2: State, o: Oid, t: Tid, th: Thread)
    requires t in st.threads
  {
    && SubjectsOk(st2) && Calmer(st, st2) && SameNames(st, st2)
    && st2 == st.(subjects := st2.subjects, threads := st.threads[t := th])
    && (forall p, u | p in st.subjects && u in st2.subjects[p].observers :: u in st.subjects[p].observers)
  }

  lemma MovedOnKeeps(st: State, st2: State, o: Oid, t: Tid, th: Thread)
    requires CoreBut(st, t) && QuietBut(st, t)
    requires MovedOn(st, st2, o, t, th) && th.status == Ready && th.life == Alive && Linked(st2)
    ensures CoreBut(st2, t) && QuietBut(st2, t)
  {
    hide Linked, SubjectOk, ThreadOk, Available;
    SameNamesOk(st, st2);
  }

  lemma MovedOnTried(st: State, st2: State, o: Oid, t: Tid, th: Thread, i: nat)
    requires t in st.threads && MovedOn(st, st2, o, t, th)
    requires i < |st.threads[t].waitList| && Tried(st, t, i)
    requires th.waitList == RemoveAt(st.threads[t].waitList, i)
    ensures Tried(st2, t, i)
  {
    hide SubjectsOk, SameNames, Available;
  }

  lemma NotStoppedCalmer(st: State, t: Tid, th: Thread)
    requires t in st.threads && SubjectsOk(st)
    requires th.subject == st.threads[t].subject && (th.status == Stopped ==> st.threads[t].status == Stopped)
    ensures SubjectsOk(SetThread(st, t, th))
    ensures Calmer(st, SetThread(st, t, th)) && SameNames(st, SetThread(st, t, th))
  {
  }

  lemma MovedOnAll(st: State, o: Oid, t: Tid, th: Thread)
    requires CoreBut(st, t) && o in st.subjects && TryAcquire(st, o, t).Got?
    requires th.subject == st.threads[t].subject && th.status == Ready
    ensures MovedOn(st, SetThread(TryAcquire(st, o, t).state, t, th), o, t, th)
  {
    hide Linked, ThreadsOkBut, QueueOk, NamesOk, SubjectsOk, Calmer, SameNames, Observes, Awaits, SameShape;
    TryAcquireTook(st, o, t);
    TryAcquireBooks(st, o, t);
    var st1 := TryAcquire(st, o, t).state;
    hide TryAcquire;
    NotStoppedCalmer(st1, t, th);
    CalmerTrans(st, st1, SetThread(st1, t, th));
  }

  lemma TakeAll(st: State, t: Tid, i: nat)
    requires Scanning(st, t, i, true) && i < |st.threads[t].waitList|
    requires st.threads[t].waitList[i] in st.subjects && TryAcquire(st, st.threads[t].waitList[i], t).Got?
    ensures var o := st.threads[t].waitList[i];
            var st1 := TryAcquire(st, o, t).state;
            var th := st1.threads[t].(wakeIndex := i, woken := Some(o), waitList := RemoveAt(st.threads[t].waitList, i));
            Scanning(SetThread(st1, t, th), t, i, true)
  {
    var o := st.threads[t].waitList[i];
    var rest := RemoveAt(st.threads[t].waitList, i);
    var st1 := TryAcquire(st, o, t).state;
    var th := st1.threads[t].(wakeIndex := i, woken := Some(o), waitList := rest);
    var st2 := SetThread(st1, t, th);
    TryAcquireTook(st, o, t);
    TryAcquireLinks(st, o, t);
    MovedOnAll(st, o, t, th);
    hide TryAcquire, Linked, LinkedBut, MovedOn, ThreadsOkBut, QueueOk, SubjectsOk, NamesOk, QuietBut, Tried;
    forall p: Oid
      ensures Count(rest, p) + (if p == o then 1 else 0) == Count(st.threads[t].waitList, p)
      ensures Count(th.acquired, p) == Count(st.threads[t].acquired, p) + (if p == o then 1 else 0)
    {
      RemoveAtCount(st.threads[t].waitList, i, p);
      CountConcat(st.threads[t].acquired, [o], p);
    }
    AllStillLinked(st1, t, o, rest, th);
    MovedOnKeeps(st, st2, o, t, th);
    MovedOnTried(st, st2, o, t, th, i);
  }

  lemma TakeAny(st: State, t: Tid, i: nat)
    requires Scanning(st, t, i, false) && i < |st.threads[t].waitList|
    requires st.threads[t].waitList[i] in st.subjects && TryAcquire(st, st.threads[t].waitList[i], t).Got?
    ensures var o := st.threads[t].waitList[i];
            var st1 := TryAcquire(st, o, t).state;
            var r := UnregisterAll(st1, RemoveAt(st.threads[t].waitList, i), t);
            && r.Ok?
            && Scanned(SetThread(r.state, t, st1.threads[t].(wakeIndex := i, woken := Some(o), waitList := [])), t, false)
  {
    hide UnregisterAll, LinkedBut, MovedOn, Scanned;
    var o := st.threads[t].waitList[i];
    var st1 := TryAcquire(st, o, t).state;
    var th := st1.threads[t].(wakeIndex := i, woken := Some(o), waitList := []);
    TryAcquireTook(st, o, t);
    TryAcquireLinks(st, o, t);
    MovedOnAll(st, o, t, th);
    hide TryAcquire, Linked, ThreadsOkBut, QueueOk, SubjectsOk, NamesOk, QuietBut, Tried;
    DropRest(st1, t, o, i, th);
    TookAny(st, st1, UnregisterAll(st1, RemoveAt(st.threads[t].waitList, i), t).state, o, t, th);
  }

  lemma TookAny(st: State, st1: State, st2: State, o: Oid, t: Tid, th: Thread)
    requires CoreBut(st, t) && QuietBut(st, t) && MovedOn(st, SetThread(st1, t, th), o, t, th)
    requires OnlyObservers(st1, st2) && SameShape(st1, st2) && Linked(SetThread(st2, t, th))
    requires forall p | p in st2.subjects :: t !in st2.subjects[p].observers
    requires th.status == Ready && th.life == Alive && th.waitList == [] && th.result == RESULT_OK && WaitHonoured(th)
    ensures Scanned(SetThread(st2, t, th), t, false)
  {
    hide Linked, ThreadsOkBut, QueueOk, SubjectsOk, NamesOk, QuietBut, WaitHonoured, MovedOn;
    MovedOnDropped(st, st1, st2, o, t, th);
    MovedOnKeeps(st, SetThread(st2, t, th), o, t, th);
    NobodyLeft(SetThread(st2, t, th), t);
  }

  lemma DropRest(st: State, t: Tid, o: Oid, i: nat, th: Thread)
    requires LinkedBut(st, t, o) && th.waitList == []
    requires t in st.threads && i < |st.threads[t].waitList| && st.threads[t].waitList[i] == o
    ensures var r := UnregisterAll(st, RemoveAt(st.threads[t].waitList, i), t);
            && r.Ok? && Linked(SetThread(r.state, t, th))
            && forall p | p in r.state.subjects :: t !in r.state.subjects[p].observers
  {
    hide Linked, UnregisterAll;
    var rest := RemoveAt(st.threads[t].waitList, i);
    forall p: Oid
      ensures Count(rest, p) + (if p == o then 1 else 0) == Count(st.threads[t].waitList, p)
    {
      RemoveAtCount(st.threads[t].waitList, i, p);
    }
    AnyStillLinked(st, t, o, rest, th);
  }

  lemma MovedOnDropped(st: State, st1: State, st2: State, o: Oid, t: Tid, th: Thread)
    requires t in st.threads && MovedOn(st, SetThread(st1, t, th), o, t, th)
    requires OnlyObservers(st1, st2) && SameShape(st1, st2)
    ensures MovedOn(st, SetThread(st2, t, th), o, t, th)
  {
  }

  lemma NobodyLeft(st: State, t: Tid)
    requires QuietBut(st, t)
    requires forall o | o in st.subjects :: t !in st.subjects[o].observers
    ensures NoLostWakeup(st)
  {
    forall o | o in st.subjects && !st.subjects[o].resource.Timer? && st.subjects[o].observers != []
      ensures !Available(st, o)
    {
      assert st.subjects[o].observers[0] in st.subjects[o].observers;
    }
  }

  lemma ScanMiss(st: State, t: Tid, i: nat, all: bool)
    requires Scanning(st, t, i, all) && i < |st.threads[t].waitList|
    requires st.threads[t].waitList[i] in st.subjects && !Available(st, st.threads[t].waitList[i])
    ensures Scanning(st, t, i + 1, all)
  {
    hide CoreBut, QuietBut, UnderWay, Available;
  }

  lemma OwnRegistration(st: State, t: Tid, i: nat, all: bool)
    requires Scanning(st, t, i, all)
    ensures SubjectsOk(st)
    ensures forall o | o in st.threads[t].waitList :: o in st.subjects && t in st.subjects[o].observers
  {
    forall o | o in st.threads[t].waitList
      ensures o in st.subjects && t in st.subjects[o].observers
    {
      assert o in st.subjects;
      assert Awaits(st, t, o) > 0;
      assert Observes(st, t, o) > 0;
    }
  }

  /** The initial scan never trips a check, and leaves a consistent wait behind. */
  lemma {:induction false} ScanKeeps(st: State, t: Tid, i: nat, all: bool)
    requires Scanning(st, t, i, all)
    ensures forall o | o in st.threads[t].waitList :: o in st.subjects
    ensures match Scan(st, t, i, all)
            case Ok(st') => Scanned(st', t, all)
            case Failed(f) => !Internal(f)
    decreases |st.threads[t].waitList| - i
  {
    hide Linked, ThreadsOkBut, QueueOk, SubjectsOk, NamesOk, QuietBut, Tried, Scanned, UnderWay, Available, Calmer, SameNames;
    OwnRegistration(st, t, i, all);
    if i == |st.threads[t].waitList| {
      ScanEnd(st, t, all);
    } else {
      var o := st.threads[t].waitList[i];
      TryAcquireBooks(st, o, t);
      if TryAcquire(st, o, t).Missed? {
        ScanMiss(st, t, i, all);
        ScanKeeps(st, t, i + 1, all);
      } else if TryAcquire(st, o, t).Got? {
        if all {
          TakeAll(st, t, i);
          var st1 := TryAcquire(st, o, t).state;
          var th := st1.threads[t].(wakeIndex := i, woken := Some(o), waitList := RemoveAt(st.threads[t].waitList, i));
          ScanKeeps(SetThread(st1, t, th), t, i, all);
        } else {
          TakeAny(st, t, i);
        }
      }
    }
  }

  // ---------------------------------------------------------------------------
  // The whole call
  // ---------------------------------------------------------------------------

  lemma FellAsleep(st: State, t: Tid, all: bool, ready: seq<Tid>, waiting: seq<Tid>)
    requires Scanned(st, t, all) && st.threads[t].waitList != []
    requires forall u | u in ready :: u in st.ready && u != t
    ensures var th := st.threads[t].(waitForAll := all, status := Sleeping, phase := Pending);
            Inv(SetThread(st, t, th).(ready := ready, waiting := waiting))
  {
    var th := st.threads[t].(waitForAll := all, status := Sleeping, phase := Pending);
    var st1 := SetThread(st, t, th);
    BeginLinks(st, t, th);
    NotStoppedCalmer(st, t, th);
    CalmerQuiet(st, st1);
    SameNamesOk(st, st1);
    assert ThreadOk(th);
    hide Linked, NamesOk, SubjectsOk, Quiet, ThreadOk, Calmer, SameNames;
    AsleepCore(st, st1, t, ready);
    CoreIgnores(st1.(ready := ready), st1.(ready := ready, waiting := waiting));
  }

  lemma AsleepCore(st: State, st1: State, t: Tid, ready: seq<Tid>)
    requires Linked(st1) && NamesOk(st1) && SubjectsOk(st1) && ThreadsOkBut(st, t) && QueueOk(st)
    requires t in st.threads && t in st1.threads && ThreadOk(st1.threads[t])
    requires st1.threads == st.threads[t := st1.threads[t]]
    requires forall u | u in ready :: u in st.ready && u != t
    requires forall o | o in st1.subjects && !st1.subjects[o].resource.Timer? :: Quiet(st1, o)
    ensures Inv(st1.(ready := ready))
  {
    LinkedIgnoresQueue(st1, st1.(ready := ready));
    hide Linked, SubjectOk, ThreadOk;
    SameNamesOk(st1, st1.(ready := ready));
  }

  lemma WaitOver(st: State, t: Tid, all: bool)
    requires Scanned(st, t, all) && st.threads[t].waitList == [] && st.threads[t].phase == Completed
    ensures Inv(st)
  {
    hide Linked, NamesOk, SubjectsOk, NoLostWakeup, QueueOk;
  }

  /** Scanning leaves the thread's phase alone. */
  lemma {:induction false} ScanPhase(st: State, t: Tid, i: nat, all: bool)
    requires t in st.threads && i <= |st.threads[t].waitList|
    requires forall o | o in st.threads[t].waitList :: o in st.subjects
    ensures Scan(st, t, i, all).Ok? ==>
              Scan(st, t, i, all).state.threads[t].phase == st.threads[t].phase
    decreases |st.threads[t].waitList| - i
  {
    if i < |st.threads[t].waitList| {
      var o := st.threads[t].waitList[i];
      if TryAcquire(st, o, t).Missed? {
        ScanPhase(st, t, i + 1, all);
      } else if TryAcquire(st, o, t).Got? && all {
        var st1 := TryAcquire(st, o, t).state;
        var th := st1.threads[t].(wakeIndex := i, woken := Some(o), waitList := RemoveAt(st.threads[t].waitList, i));
        ScanPhase(SetThread(st1, t, th), t, i, all);
      }
    }
  }

  lemma EndWaitKeeps(st: State, t: Tid, all: bool)
    requires Scanned(st, t, all) && st.threads[t].phase == Completed
    ensures Inv(EndWait(st, t, all))
  {
    hide Inv, Linked, ThreadsOkBut, QueueOk, SubjectsOk, NamesOk, NoLostWakeup, WaitHonoured, UnderWay;
    if st.threads[t].waitList == [] {
      WaitOver(st, t, all);
    } else {
      FellAsleep(st, t, all, RemoveAll(st.ready, t), EndWait(st, t, all).waiting);
    }
  }

  /** The part of the call after the handles were looked up. */
  lemma WaitForKeeps(st: State, t: Tid, th: Thread, os: seq<Oid>, all: bool)
    requires Inv(st) && t in st.threads
    requires th.waitList == st.threads[t].waitList == [] && th.status == st.threads[t].status == Ready
    requires th.life == st.threads[t].life == Alive
    requires th.subject == st.threads[t].subject && th.phase == Completed
    requires th.requestAll == all && th.result == RESULT_OK && th.request == os && th.acquired == []
    requires forall o | o in os :: o in st.subjects
    ensures match WaitFor(st, t, th, os, all)
            case Ok(st') => Inv(st')
            case Failed(f) => !Internal(f)
  {
    hide Core, NoLostWakeup, Scan, Register, Scanned, CoreBut, QuietBut, Tried, UnderWay, EndWait;
    StartScan(st, t, th, os, all);
    RegisterClosed(SetThread(st, t, th), os, t);
    var st1 := Register(SetThread(st, t, th), os, t);
    ScanKeeps(st1, t, 0, all);
    ScanPhase(st1, t, 0, all);
    if Scan(st1, t, 0, all).Ok? {
      hide Inv;
      EndWaitKeeps(Scan(st1, t, 0, all).state, t, all);
    }
  }

  /** Waiting keeps the invariants, and the only faults are those of the program. */
  lemma WaitKeeps(st: State, t: Tid, handles: seq<Handle>, all: bool, timeout: int)
    requires Inv(st) && t in st.threads && st.threads[t].status == Ready && st.threads[t].life == Alive
    ensures match Wait(st, t, handles, all, timeout)
            case Ok(st') => Inv(st')
            case Failed(f) => !Internal(f)
  {
    assert st.threads[t].waitList == [] by { assert ThreadOk(st.threads[t]); }
    hide Inv, WaitFor;
    var hs := WaitHandles(handles);
    if forall h | h in hs :: h.Object? && h.id in st.subjects {
      var os := Ids(hs);
      WaitForKeeps(st, t, BeginWait(st, st.threads[t], os, all, timeout), os, all);
    }
  }
}
