/**
  What every step of the kernel keeps. The two views of the wait relation agree
  in multiplicity, a thread sleeps exactly while it waits, resources add up, each
  wait has made exactly the acquisitions it should have, and nobody is left
  asleep on something that could be acquired.
 */
module KernelInvariants {
  import opened Options
  import opened Lists
  import opened Kernel

  /** How often t occurs among the observers of o. */
  ghost function Observes(st: State, t: Tid, o: Oid): nat
    requires o in st.subjects
  {
    Count(st.subjects[o].observers, t)
  }

  /** How often o occurs in the wait list of t. */
  ghost function Awaits(st: State, t: Tid, o: Oid): nat
    requires t in st.threads
  {
    Count(st.threads[t].waitList, o)
  }

  /** Only existing threads and objects occur in the lists. */
  ghost predicate Closed(st: State) {
    && (forall t | t in st.threads :: forall o | o in st.threads[t].waitList :: o in st.subjects)
    && (forall o | o in st.subjects :: forall t | t in st.subjects[o].observers :: t in st.threads)
  }

  /** Observer lists and wait lists are two views of one relation. */
  ghost predicate Linked(st: State) {
    && Closed(st)
    && forall t, o | t in st.threads && o in st.subjects :: Observes(st, t, o) == Awaits(st, t, o)
  }

  /** As Linked, except that one registration of t at o has already been taken out. */
  ghost predicate LinkedBut(st: State, t: Tid, o: Oid) {
    && Closed(st)
    && t in st.threads && o in st.subjects
    && forall u, p | u in st.threads && p in st.subjects ::
         Observes(st, u, p) + (if u == t && p == o then 1 else 0) == Awaits(st, u, p)
  }

  /** A wait that is over made the right acquisitions: a wait for any object exactly one, of the
      object at the reported index; a wait for all each object as often as it was listed. */
  ghost predicate WaitHonoured(th: Thread) {
    if th.requestAll then forall o: Oid :: Count(th.acquired, o) == Count(th.request, o)
    else if th.request == [] then th.acquired == []
    else
      && th.wakeIndex < |th.request|
      && th.acquired == [th.request[th.wakeIndex]]
      && th.woken == Some(th.request[th.wakeIndex])
  }

  ghost predicate ThreadOk(th: Thread) {
    && (th.status == Sleeping <==> th.waitList != [])
    && (th.status == Sleeping <==> th.phase == Pending)
    && (th.phase == Pending ==> th.waitForAll == th.requestAll)
    && (th.phase == Pending ==> th.result == RESULT_OK)
    && (th.phase == Pending && !th.waitForAll ==> th.acquired == [] && th.waitList == th.request)
    && (th.phase == Pending && th.waitForAll ==>
          forall o: Oid :: Count(th.acquired, o) + Count(th.waitList, o) == Count(th.request, o))
    && (th.phase == Completed ==> th.result == RESULT_OK && WaitHonoured(th))
    && (th.phase == TimedOut ==> th.result == RESULT_TIMEOUT)
    && (if th.life == Alive then th.status != Stopped else th.status == Stopped || th.status == Ready)
  }

  ghost predicate ThreadsOk(st: State) {
    forall t | t in st.threads :: ThreadOk(st.threads[t])
  }

  ghost predicate ThreadsOkBut(st: State, t: Tid) {
    forall u | u in st.threads && u != t :: ThreadOk(st.threads[u])
  }

  /** Queued threads can run; entries of threads that are gone may be left behind. */
  ghost predicate QueueOk(st: State) {
    forall t | t in st.ready && t in st.threads :: st.threads[t].status == Ready
  }

  /** Resources add up: what was given and not taken is what is available. */
  ghost predicate SubjectOk(s: Subject) {
    match s.resource
    case Event(_, reset) => reset != Pulse
    case Semaphore(available, max) => 0 <= available <= max && available == s.given - s.taken
    case Mutex(lockCount, owner) => lockCount == s.taken - s.given && (lockCount > 0 ==> owner.Some?)
    case _ => true
  }

  ghost predicate SubjectsOk(st: State) {
    forall o | o in st.subjects :: SubjectOk(st.subjects[o])
  }

  ghost predicate SubjectNamed(st: State, o: Oid)
    requires o in st.subjects
  {
    var r := st.subjects[o].resource;
    && (r.Timer? ==> o in st.timers)
    && (r.ThreadEnd? ==> r.thread < st.nextTid && (r.thread in st.threads ==> st.threads[r.thread].subject == o))
  }

  ghost predicate NamesOk(st: State) {
    && (forall t | t in st.threads ::
          && t < st.nextTid
          && st.threads[t].subject in st.subjects
          && st.subjects[st.threads[t].subject].resource == ThreadEnd(t))
    && (forall o | o in st.subjects :: o < st.nextOid && SubjectNamed(st, o))
  }

  ghost predicate Core(st: State) {
    Linked(st) && ThreadsOk(st) && QueueOk(st) && SubjectsOk(st) && NamesOk(st)
  }

  /** Whether some thread that does not hold o yet could acquire it. */
  ghost predicate Available(st: State, o: Oid)
    requires o in st.subjects
  {
    match st.subjects[o].resource
    case Event(signalled, _) => signalled
    case Semaphore(available, _) => available > 0
    case Mutex(lockCount, _) => lockCount == 0
    case Timer(active, _, deadline, _) => active && deadline <= st.now
    case ThreadEnd(u) => u !in st.threads || st.threads[u].status == Stopped
  }

  /** Nobody sleeps on o while it is available. */
  ghost predicate Quiet(st: State, o: Oid)
    requires o in st.subjects
  {
    Available(st, o) ==> st.subjects[o].observers == []
  }

  /** Timers are left to the next time the clock moves. */
  ghost predicate NoLostWakeup(st: State) {
    forall o | o in st.subjects && !st.subjects[o].resource.Timer? :: Quiet(st, o)
  }

  ghost predicate Inv(st: State) {
    Core(st) && NoLostWakeup(st)
  }

  // ---------------------------------------------------------------------------
  // Steps that only calm things down
  // ---------------------------------------------------------------------------

  /** The same object, perhaps acquired a few times and with fewer observers. */
  ghost predicate SameKind(r: Resource, r': Resource) {
    match r
    case Event(_, reset) => r'.Event? && r'.reset == reset
    case Semaphore(_, max) => r'.Semaphore? && r'.max == max
    case Mutex(_, _) => r'.Mutex?
    case Timer(_, reset, _, _) => r'.Timer? && r'.reset == reset
    case ThreadEnd(u) => r' == r
  }

  /** No object became available, and no object gained an observer. */
  ghost predicate Calmer(st: State, st': State) {
    && st'.subjects.Keys == st.subjects.Keys
    && (forall o | o in st.subjects ::
          && SameKind(st.subjects[o].resource, st'.subjects[o].resource)
          && (Available(st', o) ==> Available(st, o))
          && (st.subjects[o].observers == [] ==> st'.subjects[o].observers == []))
  }

  lemma CalmerQuiet(st: State, st': State)
    requires Calmer(st, st')
    ensures forall o | o in st.subjects && Quiet(st, o) :: Quiet(st', o)
  {
  }

  /** Identity of threads and objects, kept by everything that creates or destroys none. */
  ghost predicate SameNames(st: State, st': State) {
    && st'.threads.Keys == st.threads.Keys
    && st'.subjects.Keys == st.subjects.Keys
    && st'.timers == st.timers && st'.nextTid == st.nextTid && st'.nextOid == st.nextOid
    && (forall t | t in st.threads :: st'.threads[t].subject == st.threads[t].subject)
    && (forall o | o in st.subjects :: SameKind(st.subjects[o].resource, st'.subjects[o].resource))
  }

  /** Threads that can run still can. */
  ghost predicate KeepsReady(st: State, st': State) {
    forall t | t in st.threads && st.threads[t].status == Ready ::
      t in st'.threads && st'.threads[t].status == Ready && st'.threads[t].life == st.threads[t].life
  }

  lemma SameNamesOk(st: State, st': State)
    requires NamesOk(st) && SameNames(st, st')
    ensures NamesOk(st')
  {
    forall o | o in st'.subjects
      ensures o < st'.nextOid && SubjectNamed(st', o)
    {
      assert SubjectNamed(st, o);
      assert SameKind(st.subjects[o].resource, st'.subjects[o].resource);
    }
  }

  // ---------------------------------------------------------------------------
  // Unregistering
  // ---------------------------------------------------------------------------

  /** Of t's registrations, those listed in `gone` are no more; nobody else's changed. */
  ghost predicate Fewer(st: State, st': State, t: Tid, gone: seq<Oid>) {
    && OnlyObservers(st, st')
    && (forall o | o in st.subjects :: Observes(st', t, o) + Count(gone, o) == Observes(st, t, o))
    && (forall u, o | u != t && o in st.subjects :: Observes(st', u, o) == Observes(st, u, o))
  }

  lemma UnregisterExact(st: State, o: Oid, t: Tid)
    requires o in st.subjects && t in st.subjects[o].observers
    ensures Fewer(st, Unregister(st, o, t), t, [o])
  {
    var st' := Unregister(st, o, t);
    forall u
      ensures Observes(st', u, o) + (if u == t then 1 else 0) == Observes(st, u, o)
    {
      RemoveFirstCount(st.subjects[o].observers, t, u);
    }
    assert forall p :: Count([o], p) == if p == o then 1 else 0;
    assert forall p | p in st.subjects && p != o :: st'.subjects[p] == st.subjects[p];
  }

  lemma FewerTrans(a: State, b: State, c: State, t: Tid, o: Oid, os: seq<Oid>)
    requires Fewer(a, b, t, [o]) && Fewer(b, c, t, os)
    ensures Fewer(a, c, t, [o] + os)
  {
    forall p {
      CountConcat([o], os, p);
    }
  }

  /** Unregistering t from a list of objects removes exactly that many of its registrations. */
  lemma {:induction false} UnregisterAllExact(st: State, os: seq<Oid>, t: Tid)
    requires forall o | o in os :: o in st.subjects
    requires forall o | o in st.subjects :: Observes(st, t, o) >= Count(os, o)
    ensures UnregisterAll(st, os, t).Ok?
    ensures Fewer(st, UnregisterAll(st, os, t).state, t, os)
    decreases |os|
  {
    if os != [] {
      var o := os[0];
      assert os == [o] + os[1..];
      var st1 := Unregister(st, o, t);
      UnregisterExact(st, o, t);
      assert forall p | p in st.subjects :: Observes(st1, t, p) >= Count(os[1..], p);
      UnregisterAllExact(st1, os[1..], t);
      FewerTrans(st, st1, UnregisterAll(st1, os[1..], t).state, t, o, os[1..]);
    }
  }

  // ---------------------------------------------------------------------------
  // Granting an object to a sleeping thread
  // ---------------------------------------------------------------------------

  lemma TryAcquireLinks(st: State, o: Oid, t: Tid)
    requires Linked(st) && o in st.subjects && t in st.threads && TryAcquire(st, o, t).Got?
    ensures LinkedBut(TryAcquire(st, o, t).state, t, o)
  {
    var st' := TryAcquire(st, o, t).state;
    forall u
      ensures Observes(st', u, o) + (if u == t then 1 else 0) == Observes(st, u, o)
    {
      RemoveFirstCount(st.subjects[o].observers, t, u);
    }
    assert forall p | p in st.subjects && p != o :: st'.subjects[p] == st.subjects[p];
    forall u | u in st'.subjects[o].observers
      ensures u in st'.threads
    {
      assert Observes(st', u, o) > 0;
      assert u in st.subjects[o].observers;
    }
  }

  /** Acquiring keeps the books and makes nothing available. */
  lemma TryAcquireBooks(st: State, o: Oid, t: Tid)
    requires SubjectsOk(st) && o in st.subjects && t in st.threads
    ensures TryAcquire(st, o, t).Aborted? && t in st.subjects[o].observers ==>
              !Internal(TryAcquire(st, o, t).fault)
    ensures TryAcquire(st, o, t).Missed? ==> !Available(st, o)
    ensures TryAcquire(st, o, t).Got? ==>
              var st' := TryAcquire(st, o, t).state;
              && SubjectsOk(st') && Calmer(st, st') && SameNames(st, st')
  {
    assert SubjectOk(st.subjects[o]);
  }

  /** A thread granted one of the objects it sleeps on stays consistent. */
  lemma GrantedOk(th: Thread, o: Oid)
    requires ThreadOk(th) && o in th.waitList
    ensures ThreadOk(Granted(th.(acquired := th.acquired + [o]), o))
  {
    var i := IndexOf(th.waitList, o);
    forall p: Oid
      ensures Count(th.acquired + [o], p) == Count(th.acquired, p) + (if p == o then 1 else 0)
      ensures Count(RemoveAt(th.waitList, i), p) + (if p == o then 1 else 0) == Count(th.waitList, p)
    {
      CountConcat(th.acquired, [o], p);
      RemoveAtCount(th.waitList, i, p);
    }
  }

  /** Giving up all of t's remaining registrations empties its side of the relation. */
  lemma DropAllLinks(st: State, st': State, t: Tid, rest: seq<Oid>, th: Thread)
    requires Closed(st) && t in st.threads
    requires Fewer(st, st', t, rest)
    requires forall o | o in st.subjects :: Observes(st, t, o) == Count(rest, o)
    requires forall u, o | u in st.threads && u != t && o in st.subjects :: Observes(st, u, o) == Awaits(st, u, o)
    requires th.waitList == []
    ensures Linked(SetThread(st', t, th))
    ensures forall o | o in st.subjects :: t !in st'.subjects[o].observers
  {
    var st2 := SetThread(st', t, th);
    forall o, u | o in st2.subjects && u in st2.subjects[o].observers
      ensures u in st2.threads && u != t
    {
      assert Observes(st', u, o) > 0;
      assert u != t ==> Observes(st, u, o) > 0;
    }
    forall u, o | u in st2.threads && o in st2.subjects
      ensures Observes(st2, u, o) == Awaits(st2, u, o)
    {
      assert Observes(st2, u, o) == Observes(st', u, o);
    }
  }

  /** OnResourceAcquired never trips its checks and restores the agreement of both views. */
  lemma AcquiredLinks(st: State, t: Tid, o: Oid)
    requires LinkedBut(st, t, o) && st.threads[t].status == Sleeping
    ensures o in st.threads[t].waitList && OnResourceAcquired(st, t, o).Ok?
    ensures Linked(OnResourceAcquired(st, t, o).state)
  {
    var th := st.threads[t];
    assert Observes(st, t, o) + 1 == Awaits(st, t, o);
    var rest := RemoveAt(th.waitList, IndexOf(th.waitList, o));
    forall p
      ensures Count(rest, p) + (if p == o then 1 else 0) == Count(th.waitList, p)
    {
      RemoveAtCount(th.waitList, IndexOf(th.waitList, o), p);
    }
    if th.waitForAll {
      AllStillLinked(st, t, o, rest, Granted(th, o));
      LinkedIgnoresQueue(SetThread(st, t, Granted(th, o)), OnResourceAcquired(st, t, o).state);
    } else {
      AnyStillLinked(st, t, o, rest, Granted(th, o));
      var st1 := UnregisterAll(st, rest, t).state;
      LinkedIgnoresQueue(SetThread(st1, t, Granted(th, o)), OnResourceAcquired(st, t, o).state);
    }
  }

  lemma AnyStillLinked(st: State, t: Tid, o: Oid, rest: seq<Oid>, th: Thread)
    requires LinkedBut(st, t, o) && th.waitList == []
    requires forall p | p in rest :: p in st.threads[t].waitList
    requires forall p :: Count(rest, p) + (if p == o then 1 else 0) == Count(st.threads[t].waitList, p)
    ensures UnregisterAll(st, rest, t).Ok?
    ensures Linked(SetThread(UnregisterAll(st, rest, t).state, t, th))
    ensures forall p | p in st.subjects ::
              p in UnregisterAll(st, rest, t).state.subjects
              && t !in UnregisterAll(st, rest, t).state.subjects[p].observers
  {
    forall p | p in st.subjects
      ensures Observes(st, t, p) == Count(rest, p)
    {
      assert Observes(st, t, p) + (if p == o then 1 else 0) == Awaits(st, t, p);
    }
    UnregisterAllExact(st, rest, t);
    DropAllLinks(st, UnregisterAll(st, rest, t).state, t, rest, th);
  }

  lemma LinkedIgnoresQueue(st: State, st': State)
    requires Linked(st) && st'.threads == st.threads && st'.subjects == st.subjects
    ensures Linked(st')
  {
    forall t, o | t in st'.threads && o in st'.subjects
      ensures Observes(st', t, o) == Awaits(st', t, o)
    {
      assert Observes(st, t, o) == Awaits(st, t, o);
    }
  }

  /** What a successful OnResourceAcquired changes: the thread, observer lists, and the queue front. */
  ghost predicate GrantFrame(st: State, st': State, t: Tid, o: Oid)
    requires t in st.threads && o in st.threads[t].waitList
  {
    && OnlyObservers(st, st'.(threads := st.threads, ready := st.ready))
    && SameShape(st, st')
    && st'.threads == st.threads[t := Granted(st.threads[t], o)]
    && (if st'.threads[t].status == Ready then st'.ready == [t] + st.ready else st'.ready == st.ready)
  }

  lemma AcquiredFrame(st: State, t: Tid, o: Oid)
    requires t in st.threads && OnResourceAcquired(st, t, o).Ok?
    ensures o in st.threads[t].waitList && GrantFrame(st, OnResourceAcquired(st, t, o).state, t, o)
  {
  }

  lemma AllStillLinked(st: State, t: Tid, o: Oid, rest: seq<Oid>, th: Thread)
    requires LinkedBut(st, t, o) && th.waitList == rest
    requires forall p | p in rest :: p in st.threads[t].waitList
    requires forall p :: Count(rest, p) + (if p == o then 1 else 0) == Count(st.threads[t].waitList, p)
    ensures Linked(SetThread(st, t, th))
  {
    var st' := SetThread(st, t, th);
    forall u, p | u in st'.threads && p in st'.subjects
      ensures Observes(st', u, p) == Awaits(st', u, p)
    {
      assert Observes(st', u, p) == Observes(st, u, p);
      assert Observes(st, u, p) + (if u == t && p == o then 1 else 0) == Awaits(st, u, p);
    }
  }

  lemma ObserverSleeps(st: State, o: Oid, t: Tid)
    requires Linked(st) && ThreadsOk(st) && o in st.subjects && t in st.subjects[o].observers
    ensures t in st.threads && st.threads[t].status == Sleeping && o in st.threads[t].waitList
    ensures ThreadOk(st.threads[t])
  {
    ObserverWaits(st, o, t);
    assert ThreadOk(st.threads[t]);
  }

  lemma ObserverWaits(st: State, o: Oid, t: Tid)
    requires Linked(st) && o in st.subjects && t in st.subjects[o].observers
    ensures t in st.threads && o in st.threads[t].waitList
  {
    assert t in st.threads;
    assert Observes(st, t, o) > 0;
    assert Awaits(st, t, o) > 0;
  }

  /** Granting o to the observer t keeps everything and makes nothing available. */
  lemma GrantStep(st: State, o: Oid, t: Tid)
    requires Core(st) && o in st.subjects && t in st.subjects[o].observers
    requires TryAcquire(st, o, t).Got?
    ensures st.threads[t].status == Sleeping
    ensures var r := OnResourceAcquired(TryAcquire(st, o, t).state, t, o);
            r.Ok? && Core(r.state) && Calmer(st, r.state) && SameNames(st, r.state) && KeepsReady(st, r.state)
            && |r.state.subjects[o].observers| < |st.subjects[o].observers|
  {
    hide Linked, LinkedBut, ThreadsOk, QueueOk, SubjectsOk, NamesOk, Calmer, SameNames, ThreadOk, Granted, OnResourceAcquired;
    ObserverSleeps(st, o, t);
    var st1 := TryAcquire(st, o, t).state;
    TryAcquireLinks(st, o, t);
    TryAcquireBooks(st, o, t);
    AcquiredLinks(st1, t, o);
    AcquiredFrame(st1, t, o);
    var st2 := OnResourceAcquired(st1, t, o).state;
    GrantedOk(st.threads[t], o);
    GrantThreads(st, st1, st2, o, t);
    GrantSubjects(st1, st2, o, t);
    CalmerTrans(st, st1, st2);
    SameNamesOk(st, st2);
  }

  lemma GrantThreads(st: State, st1: State, st2: State, o: Oid, t: Tid)
    requires ThreadsOk(st) && QueueOk(st) && t in st.threads && st.threads[t].status == Sleeping
    requires o in st.threads[t].waitList
    requires ThreadOk(Granted(st.threads[t].(acquired := st.threads[t].acquired + [o]), o))
    requires st1.threads == st.threads[t := st.threads[t].(acquired := st.threads[t].acquired + [o])]
    requires st1.ready == st.ready
    requires GrantFrame(st1, st2, t, o)
    ensures ThreadsOk(st2) && QueueOk(st2)
  {
  }

  lemma GrantSubjects(st1: State, st2: State, o: Oid, t: Tid)
    requires SubjectsOk(st1) && t in st1.threads && o in st1.threads[t].waitList
    requires st1.threads[t].status == Sleeping
    requires GrantFrame(st1, st2, t, o)
    ensures SubjectsOk(st2) && Calmer(st1, st2) && SameNames(st1, st2)
  {
    forall p | p in st1.subjects
      ensures SubjectOk(st2.subjects[p]) && SameKind(st1.subjects[p].resource, st2.subjects[p].resource)
      ensures Available(st2, p) ==> Available(st1, p)
    {
      assert SubjectOk(st1.subjects[p]);
      assert st2.subjects[p].resource == st1.subjects[p].resource;
    }
  }

  lemma CalmerTrans(a: State, b: State, c: State)
    requires Calmer(a, b) && Calmer(b, c) && SameNames(a, b) && SameNames(b, c)
    ensures Calmer(a, c) && SameNames(a, c)
  {
  }

  // ---------------------------------------------------------------------------
  // Announcing that an object is ready
  // ---------------------------------------------------------------------------

  /** The outcome keeps the invariants and calms things down, or is a fault the program caused. */
  ghost predicate Kept(st: State, r: Result) {
    match r
    case Ok(st') => Core(st') && Calmer(st, st') && SameNames(st, st') && KeepsReady(st, st')
    case Failed(f) => !Internal(f)
  }

  lemma KeptTrans(a: State, b: State, r: Result)
    requires Kept(a, Ok(b)) && Kept(b, r)
    ensures Kept(a, r)
  {
    if r.Ok? {
      CalmerTrans(a, b, r.state);
    }
  }

  lemma KeptSelf(st: State)
    requires Core(st)
    ensures Kept(st, Ok(st))
  {
  }

  /** Waking observers until an acquisition fails ends with nobody asleep on an available object. */
  lemma {:induction false} ReadyKeeps(st: State, o: Oid)
    requires Core(st) && o in st.subjects
    ensures Kept(st, OnResourceReady(st, o))
    ensures OnResourceReady(st, o).Ok? ==> Quiet(OnResourceReady(st, o).state, o)
    decreases |st.subjects[o].observers|
  {
    hide Linked, ThreadsOk, QueueOk, SubjectsOk, NamesOk, Calmer, SameNames, KeepsReady, Available;
    hide TryAcquire, OnResourceAcquired;
    KeptSelf(st);
    var s := st.subjects[o];
    if s.observers != [] {
      var t := s.observers[0];
      ObserverSleeps(st, o, t);
      TryAcquireBooks(st, o, t);
      if TryAcquire(st, o, t).Got? {
        GrantStep(st, o, t);
        var st2 := OnResourceAcquired(TryAcquire(st, o, t).state, t, o).state;
        ReadyKeeps(st2, o);
        KeptTrans(st, st2, OnResourceReady(st2, o));
      }
    }
  }

  // ---------------------------------------------------------------------------
  // The passing of time
  // ---------------------------------------------------------------------------

  lemma {:induction false} TimersKeep(st: State, timers: seq<Oid>)
    requires Core(st)
    ensures Kept(st, RunTimers(st, timers))
    ensures RunTimers(st, timers).Ok? ==>
              forall o | o in timers && o in st.subjects && st.subjects[o].resource.Timer? ::
                o in RunTimers(st, timers).state.subjects && Quiet(RunTimers(st, timers).state, o)
    decreases |timers|
  {
    hide Core, Calmer, SameNames, KeepsReady, Available, OnResourceReady;
    KeptSelf(st);
    if timers != [] {
      var o := timers[0];
      var r := if o in st.subjects && Expired(st, o) then OnResourceReady(st, o) else Ok(st);
      if o in st.subjects {
        ReadyKeeps(st, o);
        if st.subjects[o].resource.Timer? {
          UnexpiredQuiet(st, o);
        }
      }
      if r.Ok? {
        TimersKeep(r.state, timers[1..]);
        KeptTrans(st, r.state, RunTimers(r.state, timers[1..]));
        KeptQuiet(r.state, RunTimers(r.state, timers[1..]));
        KeptTimers(st, r.state);
      }
    }
  }

  lemma UnexpiredQuiet(st: State, o: Oid)
    requires o in st.subjects && st.subjects[o].resource.Timer?
    ensures !Expired(st, o) ==> Quiet(st, o)
  {
  }

  lemma KeptQuiet(st: State, r: Result)
    requires Kept(st, r)
    ensures r.Ok? ==> forall o | o in st.subjects && Quiet(st, o) :: o in r.state.subjects && Quiet(r.state, o)
  {
    if r.Ok? {
      CalmerQuiet(st, r.state);
    }
  }

  lemma KeptTimers(st: State, st': State)
    requires Kept(st, Ok(st'))
    ensures forall o | o in st.subjects && st.subjects[o].resource.Timer? ::
              o in st'.subjects && st'.subjects[o].resource.Timer?
  {
  }

  /** As Kept, but objects may become available as long as nobody is left asleep on them. */
  ghost predicate Settles(st: State, r: Result) {
    match r
    case Ok(st') =>
      && Core(st') && SameNames(st, st') && KeepsReady(st, st')
      && forall o | o in st.subjects && Quiet(st, o) :: Quiet(st', o)
    case Failed(f) => !Internal(f)
  }

  lemma KeptSettles(st: State, r: Result)
    requires Kept(st, r)
    ensures Settles(st, r)
  {
    KeptQuiet(st, r);
  }

  lemma SettlesTrans(a: State, b: State, r: Result)
    requires Settles(a, Ok(b)) && Settles(b, r)
    ensures Settles(a, r)
  {
    hide Core, Quiet, SameNames;
    if r.Ok? {
      SameNamesTrans(a, b, r.state);
      assert b.subjects.Keys == a.subjects.Keys by { SameNamesKeys(a, b); }
      assert r.state.subjects.Keys == b.subjects.Keys by { SameNamesKeys(b, r.state); }
    }
  }

  lemma SameNamesKeys(a: State, b: State)
    requires SameNames(a, b)
    ensures b.subjects.Keys == a.subjects.Keys
  {
  }

  /** The state in which only the books of o changed. */
  ghost function Restocked(st: State, o: Oid, s: Subject): State {
    st.(subjects := st.subjects[o := s])
  }

  lemma RestockKeeps(st: State, o: Oid, s: Subject)
    requires Core(st) && o in st.subjects && s.observers == st.subjects[o].observers
    requires SameKind(st.subjects[o].resource, s.resource) && SubjectOk(s)
    ensures var st' := Restocked(st, o, s);
            && Core(st') && SameNames(st, st') && KeepsReady(st, st')
            && forall p | p in st.subjects && p != o && Quiet(st, p) :: Quiet(st', p)
  {
    var st' := Restocked(st, o, s);
    SameNamesOk(st, st');
    RestockLinks(st, o, s);
  }

  lemma RestockLinks(st: State, o: Oid, s: Subject)
    requires Linked(st) && o in st.subjects && s.observers == st.subjects[o].observers
    ensures Linked(Restocked(st, o, s))
  {
    var st' := Restocked(st, o, s);
    forall t, p | t in st'.threads && p in st'.subjects
      ensures Observes(st', t, p) == Awaits(st', t, p)
    {
      assert Observes(st', t, p) == Observes(st, t, p);
    }
  }

  /** Changing the books of o and then announcing it leaves nobody asleep on it. */
  lemma RestockAndAnnounce(st: State, o: Oid, s: Subject)
    requires Core(st) && o in st.subjects && s.observers == st.subjects[o].observers
    requires SameKind(st.subjects[o].resource, s.resource) && SubjectOk(s)
    ensures Settles(st, OnResourceReady(Restocked(st, o, s), o))
    ensures OnResourceReady(Restocked(st, o, s), o).Ok? ==>
              o in OnResourceReady(Restocked(st, o, s), o).state.subjects
              && Quiet(OnResourceReady(Restocked(st, o, s), o).state, o)
  {
    hide Core, SameNames, KeepsReady, Quiet, OnResourceReady;
    var st' := Restocked(st, o, s);
    RestockKeeps(st, o, s);
    ReadyKeeps(st', o);
    KeptSettles(st', OnResourceReady(st', o));
    if OnResourceReady(st', o).Ok? {
      SameNamesTrans(st, st', OnResourceReady(st', o).state);
    }
  }

  lemma SameNamesTrans(a: State, b: State, c: State)
    requires SameNames(a, b) && SameNames(b, c) && KeepsReady(a, b) && KeepsReady(b, c)
    ensures SameNames(a, c) && KeepsReady(a, c)
  {
  }

  lemma {:induction false} InterruptsSettle(st: State, events: seq<Oid>)
    requires Core(st)
    ensures Settles(st, FireInterrupts(st, events))
    decreases |events|
  {
    hide Linked, ThreadsOk, QueueOk, NamesOk, Calmer, SameNames, KeepsReady, Available, OnResourceReady;
    KeptSelf(st);
    KeptSettles(st, Ok(st));
    if events != [] && events[0] in st.subjects && st.subjects[events[0]].resource.Event? {
      var e := events[0];
      var s := st.subjects[e].(resource := st.subjects[e].resource.(signalled := true));
      assert SubjectOk(st.subjects[e]);
      RestockAndAnnounce(st, e, s);
      var r := OnResourceReady(Restocked(st, e, s), e);
      if r.Ok? {
        InterruptsSettle(r.state, events[1..]);
        SettlesTrans(st, r.state, FireInterrupts(r.state, events[1..]));
      }
    }
  }

  /** t gave up its registrations and became th; the queue now is `ready`. */
  ghost predicate GaveUp(st: State, st': State, t: Tid, th: Thread, ready: seq<Tid>) {
    && SameShape(st, st')
    && OnlyObservers(st, st'.(threads := st.threads, ready := st.ready))
    && st'.threads == st.threads[t := th]
    && st'.ready == ready
  }

  /** A thread that gives up all its registrations keeps everything else in order. */
  lemma GiveUpKeeps(st: State, t: Tid, th: Thread, ready: seq<Tid>)
    requires Core(st) && t in st.threads
    requires th.waitList == [] && ThreadOk(th) && th.subject == st.threads[t].subject
    requires forall u | u in ready :: (u in st.ready && u != t) || (u == t && th.status == Ready)
    ensures UnregisterAll(st, st.threads[t].waitList, t).Ok?
    ensures var st1 := UnregisterAll(st, st.threads[t].waitList, t).state;
            var st2 := SetThread(st1, t, th).(ready := ready);
            && Core(st2) && SameNames(st, st2) && GaveUp(st, st2, t, th, ready)
            && ((th.status == Stopped ==> st.threads[t].status == Stopped) ==> Calmer(st, st2))
  {
    GiveUpLinks(st, t, th);
    var st1 := UnregisterAll(st, st.threads[t].waitList, t).state;
    var st2 := SetThread(st1, t, th).(ready := ready);
    LinkedIgnoresQueue(SetThread(st1, t, th), st2);
    assert GaveUp(st, st2, t, th, ready);
    hide Linked, SetThread, UnregisterAll, ThreadOk;
    GiveUpThreads(st, st2, t, th, ready);
    hide QueueOk, ThreadsOk;
    GiveUpSubjects(st, st2, t, th, ready);
    SameNamesOk(st, st2);
  }

  lemma GiveUpThreads(st: State, st2: State, t: Tid, th: Thread, ready: seq<Tid>)
    requires ThreadsOk(st) && QueueOk(st) && t in st.threads && ThreadOk(th)
    requires GaveUp(st, st2, t, th, ready)
    requires forall u | u in ready :: (u in st.ready && u != t) || (u == t && th.status == Ready)
    ensures ThreadsOk(st2) && QueueOk(st2)
  {
  }

  lemma GiveUpLinks(st: State, t: Tid, th: Thread)
    requires Linked(st) && t in st.threads && th.waitList == []
    ensures UnregisterAll(st, st.threads[t].waitList, t).Ok?
    ensures Linked(SetThread(UnregisterAll(st, st.threads[t].waitList, t).state, t, th))
  {
    var os := st.threads[t].waitList;
    forall o | o in st.subjects
      ensures Observes(st, t, o) == Count(os, o)
    {
      assert Observes(st, t, o) == Awaits(st, t, o);
    }
    UnregisterAllExact(st, os, t);
    DropAllLinks(st, UnregisterAll(st, os, t).state, t, os, th);
  }

  lemma GiveUpSubjects(st: State, st2: State, t: Tid, th: Thread, ready: seq<Tid>)
    requires SubjectsOk(st) && t in st.threads && th.subject == st.threads[t].subject
    requires GaveUp(st, st2, t, th, ready)
    ensures SubjectsOk(st2) && SameNames(st, st2)
    ensures (th.status == Stopped ==> st.threads[t].status == Stopped) ==> Calmer(st, st2)
  {
    forall p | p in st.subjects
      ensures SubjectOk(st2.subjects[p]) && SameKind(st.subjects[p].resource, st2.subjects[p].resource)
    {
      assert SubjectOk(st.subjects[p]);
      assert st2.subjects[p].resource == st.subjects[p].resource;
    }
  }

  /** A thread after its timeout. */
  function TimedOutThread(th: Thread): Thread {
    if th.status == Sleeping then th.(result := RESULT_TIMEOUT, waitList := [], status := Ready, phase := TimedOut)
    else th.(status := Ready)
  }

  /** Expiring is giving up all registrations. */
  lemma ExpireIs(st: State, t: Tid)
    requires t in st.threads && (st.threads[t].status != Sleeping ==> st.threads[t].waitList == [])
    ensures var r := UnregisterAll(st, st.threads[t].waitList, t);
            Expire(st, t) == if r.Failed? then r
                             else Ok(SetThread(r.state, t, TimedOutThread(st.threads[t])).(ready := st.ready + [t]))
  {
  }

  lemma TimedOutOk(th: Thread)
    requires ThreadOk(th)
    ensures ThreadOk(TimedOutThread(th)) && TimedOutThread(th).waitList == [] && TimedOutThread(th).subject == th.subject
  {
  }

  /** A timeout wakes the thread and gives up its wait. */
  lemma ExpireKeeps(st: State, t: Tid)
    requires Core(st) && t in st.threads
    ensures Kept(st, Expire(st, t)) && Expire(st, t).Ok?
    ensures var st' := Expire(st, t).state;
            && t in st'.threads && st'.threads[t].status == Ready
            && (st.threads[t].status == Sleeping ==>
                  st'.threads[t].waitList == [] && st'.threads[t].result == RESULT_TIMEOUT)
  {
    hide Core, Calmer, SameNames, KeepsReady, ThreadOk, Expire, UnregisterAll, GaveUp;
    var th := TimedOutThread(st.threads[t]);
    assert ThreadOk(st.threads[t]) by { RecordOk(st, t); }
    TimedOutOk(st.threads[t]);
    ThreadShape(st.threads[t]);
    ExpireIs(st, t);
    GiveUpKeeps(st, t, th, st.ready + [t]);
    WokeUp(st, Expire(st, t).state, t, th, st.ready + [t]);
  }

  lemma RecordOk(st: State, t: Tid)
    requires Core(st) && t in st.threads
    ensures ThreadOk(st.threads[t])
  {
  }

  lemma WokeUp(st: State, st': State, t: Tid, th: Thread, ready: seq<Tid>)
    requires t in st.threads && GaveUp(st, st', t, th, ready) && th.status == Ready && th.life == st.threads[t].life
    ensures KeepsReady(st, st') && t in st'.threads && st'.threads[t] == th
  {
  }

  lemma ThreadShape(th: Thread)
    requires ThreadOk(th)
    ensures th.status == Sleeping <==> th.waitList != []
  {
  }

  /** Core does not depend on the timeout queue, on the clock, or on the order of the ready queue. */
  lemma CoreIgnores(st: State, st': State)
    requires Core(st)
    requires st' == st.(waiting := st'.waiting, now := st'.now, ready := st'.ready)
    requires forall t | t in st'.ready :: t in st.ready
    ensures Core(st') && SameNames(st, st') && KeepsReady(st, st')
    ensures st'.now == st.now ==> Kept(st, Ok(st'))
    ensures forall o | o in st.subjects && !st.subjects[o].resource.Timer? && Quiet(st, o) :: Quiet(st', o)
  {
    LinkedIgnoresQueue(st, st');
    hide Linked;
    SameNamesOk(st, st');
  }

  lemma {:induction false} TimeoutsKeep(st: State, i: nat)
    requires Core(st) && i <= |st.waiting|
    ensures Kept(st, RunTimeouts(st, i))
    decreases |st.waiting| - i
  {
    hide Core, Calmer, SameNames, KeepsReady, Expire;
    KeptSelf(st);
    if i < |st.waiting| {
      var t := st.waiting[i];
      if t !in st.threads {
        var st1 := st.(waiting := RemoveAt(st.waiting, i));
        CoreIgnores(st, st1);
        TimeoutsKeep(st1, i);
        KeptTrans(st, st1, RunTimeouts(st1, i));
      } else if st.threads[t].timeoutAt <= st.now {
        ExpireKeeps(st, t);
        if Expire(st, t).Ok? {
          var st1 := Expire(st, t).state;
          var st2 := st1.(waiting := RemoveAt(st.waiting, i));
          CoreIgnores(st1, st2);
          KeptTrans(st, st1, Ok(st2));
          TimeoutsKeep(st2, i);
          KeptTrans(st, st2, RunTimeouts(st2, i));
        }
      } else {
        TimeoutsKeep(st, i + 1);
      }
    }
  }

  /** After the clock moved nobody is asleep on anything available, expired timers included. */
  lemma ElapseSettles(st: State, tick: Tick)
    requires Core(st)
    ensures ElapseTime(st, tick).Failed? ==> !Internal(ElapseTime(st, tick).fault)
    ensures ElapseTime(st, tick).Ok? ==>
              var st' := ElapseTime(st, tick).state;
              && Core(st') && SameNames(st, st') && KeepsReady(st, st')
              && (forall o | o in st.subjects && !st.subjects[o].resource.Timer? && Quiet(st, o) :: Quiet(st', o))
              && (forall o | o in st.subjects && st.subjects[o].resource.Timer? :: Quiet(st', o))
  {
    var st0 := st.(now := st.now + tick.elapsed);
    CoreIgnores(st, st0);
    TimersListed(st0);
    hide Core, Calmer, SameNames, KeepsReady, Quiet, RunTimers, FireInterrupts, RunTimeouts;
    TimersKeep(st0, st0.timers);
    var r1 := RunTimers(st0, st0.timers);
    if r1.Ok? {
      KeptSettles(st0, r1);
      InterruptsSettle(r1.state, tick.fired);
      SettlesTrans(st0, r1.state, FireInterrupts(r1.state, tick.fired));
      var r2 := FireInterrupts(r1.state, tick.fired);
      if r2.Ok? {
        TimeoutsKeep(r2.state, 0);
        KeptSettles(r2.state, RunTimeouts(r2.state, 0));
        SettlesTrans(r1.state, r2.state, RunTimeouts(r2.state, 0));
        SettlesTrans(st0, r2.state, RunTimeouts(r2.state, 0));
        if RunTimeouts(r2.state, 0).Ok? {
          SameNamesTrans(st, st0, RunTimeouts(r2.state, 0).state);
        }
      }
    }
  }

  lemma TimersListed(st: State)
    requires Core(st)
    ensures forall o | o in st.subjects && st.subjects[o].resource.Timer? :: o in st.timers
  {
    forall o | o in st.subjects && st.subjects[o].resource.Timer?
      ensures o in st.timers
    {
      assert SubjectNamed(st, o);
    }
  }
}
