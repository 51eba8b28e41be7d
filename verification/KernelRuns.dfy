/** Every run of the kernel, from boot on, keeps the invariants and trips none of its own checks. */
module KernelRuns {
  import opened Options
  import opened Lists
  import opened Kernel
  import opened KernelInvariants
  import opened KernelWaiting

  /** Every non-faulting outcome satisfies the invariants, and every fault is the program's. */
  ghost predicate Sound(r: Result) {
    match r
    case Ok(st) => Inv(st)
    case Failed(f) => !Internal(f)
  }

  /** As Sound, but for what a leftover timeout can do to the dispatcher. */
  ghost predicate Endures(r: Result) {
    match r
    case Ok(st) => Inv(st)
    case Failed(f) => !Internal(f) || Leftover(f)
  }

  lemma SettlesSound(st: State, r: Result)
    requires NoLostWakeup(st) && Settles(st, r)
    ensures Sound(r)
  {
    hide Core, Quiet;
    if r.Ok? {
      forall o | o in r.state.subjects && !r.state.subjects[o].resource.Timer?
        ensures Quiet(r.state, o)
      {
        assert o in st.subjects && !st.subjects[o].resource.Timer?;
      }
    }
  }

  /** Everything but o is quiet, and announcing o makes it quiet too. */
  lemma AnnounceSound(st: State, st1: State, o: Oid, s: Subject)
    requires Inv(st) && o in st.subjects && s.observers == st.subjects[o].observers
    requires SameKind(st.subjects[o].resource, s.resource) && SubjectOk(s)
    requires st1 == Restocked(st, o, s)
    ensures Sound(OnResourceReady(st1, o))
  {
    hide Core, OnResourceReady, SameKind, SubjectOk;
    RestockAndAnnounce(st, o, s);
    SettlesSound(st, OnResourceReady(st1, o));
  }

  /** Changing the books of o without making it available, or of a timer, needs no announcement. */
  lemma RestockSound(st: State, o: Oid, s: Subject)
    requires Inv(st) && o in st.subjects && s.observers == st.subjects[o].observers
    requires SameKind(st.subjects[o].resource, s.resource) && SubjectOk(s)
    requires s.resource.Timer? || !Available(Restocked(st, o, s), o)
    ensures Inv(Restocked(st, o, s))
  {
    hide Core, SubjectOk;
    RestockKeeps(st, o, s);
  }

  // ---------------------------------------------------------------------------
  // Creating threads and objects
  // ---------------------------------------------------------------------------

  lemma AddSubjectSound(st: State, r: Resource, given: int, taken: int)
    requires Inv(st) && SubjectOk(Subject([], r, taken, given)) && !r.Timer? && !r.ThreadEnd?
    ensures Inv(AddSubject(st, r, given, taken))
  {
    var st' := AddSubject(st, r, given, taken);
    assert forall o | o in st.subjects :: o < st.nextOid;
    AddLinks(st, st', st.nextOid);
    hide Linked;
    AddNames(st, st', st.nextOid);
  }

  lemma AddLinks(st: State, st': State, o: Oid)
    requires Linked(st) && o !in st.subjects && st'.threads == st.threads
    requires o in st'.subjects && st'.subjects == st.subjects[o := st'.subjects[o]] && st'.subjects[o].observers == []
    ensures Linked(st')
  {
    forall t, p | t in st'.threads && p in st'.subjects
      ensures Observes(st', t, p) == Awaits(st', t, p)
    {
      if p == o {
        assert p !in st.threads[t].waitList;
      } else {
        assert Observes(st, t, p) == Awaits(st, t, p);
      }
    }
  }

  lemma AddNames(st: State, st': State, o: Oid)
    requires NamesOk(st) && o == st.nextOid && st'.threads == st.threads && st'.nextTid == st.nextTid
    requires o in st'.subjects && st'.subjects == st.subjects[o := st'.subjects[o]]
    requires st'.nextOid == o + 1
    requires forall p | p in st.timers :: p in st'.timers
    requires st'.subjects[o].resource.Timer? ==> o in st'.timers
    requires st'.subjects[o].resource.ThreadEnd? ==>
               st'.subjects[o].resource.thread < st.nextTid && st'.subjects[o].resource.thread !in st.threads
    ensures NamesOk(st')
  {
    forall p | p in st'.subjects
      ensures p < st'.nextOid && SubjectNamed(st', p)
    {
      if p != o {
        assert SubjectNamed(st, p);
      }
    }
  }

  lemma AddTimerSound(st: State, reset: ResetType)
    requires Inv(st)
    ensures Inv(AddSubject(st, Timer(false, reset, 0, 0), 0, 0).(timers := st.timers + [st.nextOid]))
  {
    var st' := AddSubject(st, Timer(false, reset, 0, 0), 0, 0).(timers := st.timers + [st.nextOid]);
    assert forall o | o in st.subjects :: o < st.nextOid;
    AddLinks(st, st', st.nextOid);
    hide Linked;
    AddNames(st, st', st.nextOid);
  }

  lemma SpawnSound(st: State)
    requires Inv(st)
    ensures Inv(SpawnThread(st))
  {
    var st' := SpawnThread(st);
    SpawnLinks(st);
    hide Linked;
    SpawnNames(st);
    hide NamesOk;
    forall o | o in st'.subjects && !st'.subjects[o].resource.Timer?
      ensures Quiet(st', o)
    {
      if o in st.subjects && o != st.nextOid {
        assert Quiet(st, o);
      }
    }
  }

  lemma SpawnLinks(st: State)
    requires Linked(st) && NamesOk(st)
    ensures Linked(SpawnThread(st))
  {
    var st' := SpawnThread(st);
    assert st.nextTid !in st.threads && st.nextOid !in st.subjects;
    forall t, p | t in st'.threads && p in st'.subjects
      ensures Observes(st', t, p) == Awaits(st', t, p)
    {
      if t != st.nextTid && p != st.nextOid {
        assert Observes(st, t, p) == Awaits(st, t, p);
      }
    }
  }

  lemma SpawnNames(st: State)
    requires NamesOk(st)
    ensures NamesOk(SpawnThread(st))
  {
    var st' := SpawnThread(st);
    forall p | p in st'.subjects
      ensures p < st'.nextOid && SubjectNamed(st', p)
    {
      if p != st.nextOid {
        assert SubjectNamed(st, p);
      }
    }
  }

  // ---------------------------------------------------------------------------
  // Ending threads
  // ---------------------------------------------------------------------------

  ghost function Unlocked(s: Subject): Subject
    requires s.resource.Mutex? && s.resource.lockCount > 0
  {
    var n := s.resource.lockCount - 1;
    s.(resource := Mutex(n, if n == 0 then None else s.resource.owner), given := s.given + 1)
  }

  lemma {:induction false} ReleaseOwnedSettles(st: State, held: seq<Oid>, t: Tid)
    requires Core(st)
    ensures Settles(st, ReleaseOwned(st, held, t))
    decreases |held|
  {
    hide Linked, ThreadsOk, QueueOk, NamesOk, SameNames, KeepsReady, Quiet, OnResourceReady;
    KeptSelf(st);
    KeptSettles(st, Ok(st));
    if held != [] {
      var o := held[0];
      if o in st.subjects && IsOwner(st.subjects[o].resource, t) {
        var s := st.subjects[o];
        assert SubjectOk(s);
        RestockAndAnnounce(st, o, Unlocked(s));
        var r := OnResourceReady(ReleaseMutex(st, o), o);
        assert ReleaseMutex(st, o) == Restocked(st, o, Unlocked(s));
        if r.Ok? {
          ReleaseOwnedSettles(r.state, held[1..], t);
          SettlesTrans(st, r.state, ReleaseOwned(r.state, held[1..], t));
        }
      } else {
        ReleaseOwnedSettles(st, held[1..], t);
      }
    }
  }

  /** A thread that stopped changes the availability of its own object only. */
  lemma StoppedQuiet(st: State, st': State, t: Tid, th: Thread, ready: seq<Tid>)
    requires NamesOk(st) && t in st.threads && th.subject == st.threads[t].subject
    requires GaveUp(st, st', t, th, ready)
    ensures forall o | o in st.subjects && o != th.subject && Quiet(st, o) :: Quiet(st', o)
  {
    forall o | o in st.subjects && o != th.subject && Quiet(st, o)
      ensures Quiet(st', o)
    {
      assert SubjectNamed(st, o);
      assert |st'.subjects[o].observers| <= |st.subjects[o].observers|;
    }
  }

  /** Ending a thread gives back its mutexes and registrations and wakes those waiting for its end. */
  lemma ExitSound(st: State, t: Tid, held: seq<Oid>)
    requires Inv(st) && t in st.threads
    ensures Sound(ExitThread(st, t, held))
  {
    hide Core, Quiet, SameNames, KeepsReady, ReleaseOwned, OnResourceReady, UnregisterAll;
    ReleaseOwnedSettles(st, held, t);
    SettlesSound(st, ReleaseOwned(st, held, t));
    if st.threads[t].status != Stopped && ReleaseOwned(st, held, t).Ok? {
      var st1 := ReleaseOwned(st, held, t).state;
      SubjectExists(st1, t);
      var th := Ended(st1.threads[t]);
      var ready := RemoveAll(st1.ready, t);
      GiveUpKeeps(st1, t, th, ready);
      var st3 := SetThread(UnregisterAll(st1, st1.threads[t].waitList, t).state, t, th).(ready := ready);
      assert st3.ready == RemoveAll(UnregisterAll(st1, st1.threads[t].waitList, t).state.ready, t);
      StoppedThread(st1, st3, t, th, ready);
    }
  }

  lemma SubjectExists(st: State, t: Tid)
    requires Core(st) && t in st.threads
    ensures st.threads[t].subject in st.subjects && st.subjects[st.threads[t].subject].resource == ThreadEnd(t)
  {
  }

  lemma StoppedThread(st: State, st3: State, t: Tid, th: Thread, ready: seq<Tid>)
    requires Inv(st) && t in st.threads && th.subject == st.threads[t].subject
    requires th.subject in st.subjects && !st.subjects[th.subject].resource.Timer?
    requires GaveUp(st, st3, t, th, ready) && Core(st3) && SameNames(st, st3)
    ensures th.subject in st3.subjects && Sound(OnResourceReady(st3, th.subject))
  {
    StoppedQuiet(st, st3, t, th, ready);
    hide Linked, ThreadsOk, QueueOk, SubjectsOk, NamesOk, Quiet, KeepsReady, OnResourceReady;
    var r := OnResourceReady(st3, th.subject);
    ReadyKeeps(st3, th.subject);
    if r.Ok? {
      KeptQuiet(st3, r);
      forall o | o in r.state.subjects && !r.state.subjects[o].resource.Timer?
        ensures Quiet(r.state, o)
      {
        assert o in st.subjects && !st.subjects[o].resource.Timer?;
      }
    }
  }

  /** A thread that exited is registered nowhere, so it can go once nobody waits for its end; a stopped
      one can go at any time. */
  lemma DestroySound(st: State, t: Tid)
    requires Inv(st) && t in st.threads && st.threads[t].life != Alive
    requires st.threads[t].status == Stopped || Abandoned(st, t)
    ensures Inv(Destroy(st, t))
  {
    var st' := Destroy(st, t);
    assert ThreadOk(st.threads[t]);
    DestroyLinks(st, t);
    hide Linked;
    forall o | o in st'.subjects
      ensures SubjectNamed(st', o) && (!st'.subjects[o].resource.Timer? ==> Quiet(st', o))
    {
      assert SubjectNamed(st, o);
      assert !st.subjects[o].resource.Timer? ==> Quiet(st, o);
    }
  }

  lemma DestroyLinks(st: State, t: Tid)
    requires Linked(st) && t in st.threads && st.threads[t].waitList == []
    ensures Linked(Destroy(st, t))
  {
    var st' := Destroy(st, t);
    forall o, u | o in st'.subjects && u in st'.subjects[o].observers
      ensures u in st'.threads
    {
      assert u in st.threads;
      assert Observes(st, u, o) > 0 && Observes(st, u, o) == Awaits(st, u, o);
    }
    forall u, o | u in st'.threads && o in st'.subjects
      ensures Observes(st', u, o) == Awaits(st', u, o)
    {
      assert Observes(st, u, o) == Awaits(st, u, o);
    }
  }

  lemma {:induction false} ExitThreadsSound(st: State, victims: seq<Victim>, me: Tid)
    requires Inv(st)
    ensures Sound(ExitThreads(st, victims, me))
    decreases |victims|
  {
    hide Inv, ExitThread, Discharge;
    if victims != [] {
      var v := victims[0];
      if v.tid !in st.threads || st.threads[v.tid].life == Released {
        ExitThreadsSound(st, victims[1..], me);
      } else {
        ExitSound(st, v.tid, v.held);
        if ExitThread(st, v.tid, v.held).Ok? {
          var st1 := ExitThread(st, v.tid, v.held).state;
          DischargeSound(st1, v);
          ExitThreadsSound(if v.tid == me then st1 else Discharge(st1, v), victims[1..], me);
        }
      }
    }
  }

  lemma DropSound(st: State, u: Tid)
    requires Inv(st)
    ensures Inv(Drop(st, u))
  {
    hide Inv, Destroy;
    if Abandoned(st, u) {
      DestroySound(st, u);
    }
  }

  lemma {:induction false} DropAllSound(st: State, us: seq<Tid>)
    requires Inv(st)
    ensures Inv(DropAll(st, us))
    decreases |us|
  {
    hide Inv, Drop;
    if us != [] {
      DropSound(st, us[0]);
      DropAllSound(Drop(st, us[0]), us[1..]);
    }
  }

  lemma DischargeSound(st: State, v: Victim)
    requires Inv(st)
    ensures Inv(Discharge(st, v))
  {
    hide Inv, Release, DropAll;
    ReleaseSound(st, v.tid, v.last);
    DropAllSound(Release(st, v.tid, v.last), v.closed);
  }

  lemma ReleaseSound(st: State, t: Tid, last: bool)
    requires Inv(st)
    ensures Inv(Release(st, t, last))
  {
    if t in st.threads && st.threads[t].status == Stopped {
      assert ThreadOk(st.threads[t]);
      if last {
        hide Inv, Destroy;
        DestroySound(st, t);
      } else {
        RelabelSound(st, t);
      }
    }
  }

  /** Taking a stopped thread off its process's list changes nothing else. */
  lemma RelabelSound(st: State, t: Tid)
    requires Inv(st) && t in st.threads && st.threads[t].status == Stopped
    ensures Inv(SetThread(st, t, st.threads[t].(life := Released)))
  {
    var th := st.threads[t].(life := Released);
    assert ThreadOk(st.threads[t]);
    assert t !in st.ready && ThreadOk(th);
    hide Core, NoLostWakeup, Calmer, SameNames, ThreadOk;
    GiveUpKeeps(st, t, th, st.ready);
    assert UnregisterAll(st, st.threads[t].waitList, t).state == st;
    assert SetThread(st, t, th).(ready := st.ready) == SetThread(st, t, th);
    KeptQuietOnly(st, SetThread(st, t, th));
  }

  // ---------------------------------------------------------------------------
  // System calls
  // ---------------------------------------------------------------------------

  lemma ElapseSound(st: State, tick: Tick)
    requires Inv(st)
    ensures Sound(ElapseTime(st, tick))
  {
    hide Core, Quiet, KeepsReady, ElapseTime;
    ElapseSettles(st, tick);
    if ElapseTime(st, tick).Ok? {
      var st' := ElapseTime(st, tick).state;
      forall o | o in st'.subjects && !st'.subjects[o].resource.Timer?
        ensures Quiet(st', o)
      {
        assert o in st.subjects && !st.subjects[o].resource.Timer?;
      }
    }
  }

  lemma RescheduleSound(st: State, tick: Tick)
    requires Inv(st)
    ensures Sound(Reschedule(st, tick))
  {
    hide Core, Quiet, ElapseTime;
    ElapseSound(st, tick);
    if ElapseTime(st, tick).Ok? {
      var st1 := ElapseTime(st, tick).state;
      CoreIgnores(st1, st1.(ready := Rotate(st1.ready)));
    }
  }

  lemma BooksOf(st: State, o: Oid)
    requires Inv(st) && o in st.subjects
    ensures SubjectOk(st.subjects[o])
  {
  }

  lemma RecordOf(st: State, t: Tid)
    requires Inv(st) && t in st.threads
    ensures ThreadOk(st.threads[t])
  {
  }

  lemma SignalSound(st: State, e: Oid, signalled: bool)
    requires Inv(st) && e in st.subjects && st.subjects[e].resource.Event?
    ensures signalled ==> Sound(OnResourceReady(SetResource(st, e, st.subjects[e].resource.(signalled := true)), e))
    ensures !signalled ==> Inv(SetResource(st, e, st.subjects[e].resource.(signalled := false)))
  {
    hide Inv, OnResourceReady;
    var s := st.subjects[e].(resource := st.subjects[e].resource.(signalled := signalled));
    BooksOf(st, e);
    if signalled {
      AnnounceSound(st, Restocked(st, e, s), e, s);
    } else {
      RestockSound(st, e, s);
    }
  }

  lemma ReleaseSemaphoreSound(st: State, o: Oid, times: int)
    requires Inv(st) && o in st.subjects && st.subjects[o].resource.Semaphore?
    ensures Sound(ReleaseSemaphoreOn(st, o, times))
  {
    hide Inv, OnResourceReady;
    var s := st.subjects[o];
    BooksOf(st, o);
    if times < 0 || s.resource.available > s.resource.max - times {
      assert Restocked(st, o, s) == st;
      AnnounceSound(st, st, o, s);
    } else {
      var r := s.resource.(available := s.resource.available + times);
      var s' := s.(resource := r, given := s.given + times);
      AnnounceSound(st, Restocked(st, o, s'), o, s');
    }
  }

  lemma UnlockSound(st: State, o: Oid)
    requires Inv(st) && o in st.subjects && st.subjects[o].resource.Mutex? && st.subjects[o].resource.lockCount > 0
    ensures Sound(OnResourceReady(ReleaseMutex(st, o), o))
    ensures ReleaseMutex(st, o).subjects[o].resource.lockCount > 0 ==> Inv(ReleaseMutex(st, o))
  {
    hide Inv, OnResourceReady;
    var s := Unlocked(st.subjects[o]);
    BooksOf(st, o);
    assert ReleaseMutex(st, o) == Restocked(st, o, s);
    AnnounceSound(st, ReleaseMutex(st, o), o, s);
    if ReleaseMutex(st, o).subjects[o].resource.lockCount > 0 {
      RestockSound(st, o, s);
    }
  }

  lemma SetTimerSound(st: State, o: Oid, r: Resource)
    requires Inv(st) && o in st.subjects && st.subjects[o].resource.Timer? && r.Timer?
    requires r.reset == st.subjects[o].resource.reset
    ensures Inv(SetResource(st, o, r)) && Sound(OnResourceReady(SetResource(st, o, r), o))
  {
    var s := st.subjects[o].(resource := r);
    hide Inv, OnResourceReady;
    RestockSound(st, o, s);
    AnnounceSound(st, Restocked(st, o, s), o, s);
  }

  /** A running thread that leaves the ready queue for something other than a wait. */
  lemma PauseSound(st: State, t: Tid, th: Thread, waiting: seq<Tid>)
    requires Inv(st) && t in st.threads && st.threads[t].status == Ready
    requires th.status == WaitingForTimeout || th.status == WaitingForArbitration
    requires th.subject == st.threads[t].subject && th.waitList == st.threads[t].waitList && ThreadOk(th)
    ensures Inv(SetThread(st, t, th).(ready := RemoveAll(st.ready, t), waiting := waiting))
  {
    assert ThreadOk(st.threads[t]);
    hide Core, Quiet, SameNames, Calmer, ThreadOk;
    var ready := RemoveAll(st.ready, t);
    GiveUpKeeps(st, t, th, ready);
    var st2 := SetThread(st, t, th).(ready := ready);
    assert UnregisterAll(st, st.threads[t].waitList, t).state == st;
    KeptQuietOnly(st, st2);
    CoreIgnores(st2, st2.(waiting := waiting));
  }

  lemma KeptQuietOnly(st: State, st': State)
    requires NoLostWakeup(st) && Calmer(st, st')
    ensures NoLostWakeup(st')
  {
    CalmerQuiet(st, st');
    hide Quiet;
  }

  lemma ClockSound(st: State, now: nat)
    requires Inv(st)
    ensures Inv(st.(now := now))
  {
    hide Core, Quiet;
    CoreIgnores(st, st.(now := now));
  }

  /** The calls that announce or retire an object. */
  lemma ObjectCallSound(st: State, t: Tid, call: Call)
    requires Inv(st) && t in st.threads && st.threads[t].status == Ready
    requires call.SignalEvent? || call.ClearEvent? || call.ReleaseSemaphore? || call.UnlockMutex?
             || call.CloseMutex? || call.SetTimer?
    ensures Sound(Perform(st, t, call))
  {
    hide Inv, OnResourceReady, ReleaseSemaphoreOn;
    var h := call.target;
    if Names(st, h) {
      var r := st.subjects[h.id].resource;
      if r.Event? {
        SignalSound(st, h.id, call.SignalEvent?);
      } else if r.Semaphore? && call.ReleaseSemaphore? {
        ReleaseSemaphoreSound(st, h.id, call.times);
      } else if IsOwner(r, t) {
        UnlockSound(st, h.id);
      } else if r.Timer? && call.SetTimer? && call.initial >= 0 && call.interval >= 0 {
        SetTimerSound(st, h.id, Timer(true, r.reset, st.now + call.initial, call.interval));
      }
    }
  }

  lemma ThreadCallSound(st: State, t: Tid, call: Call)
    requires Inv(st) && t in st.threads && st.threads[t].status == Ready && st.threads[t].life == Alive
    requires call.WaitSynchronization? || call.SleepThread? || call.AwaitArbitration? || call.Exit?
             || call.GetSystemTick? || call.Preempted? || call.CloseThread?
    ensures Sound(Perform(st, t, call))
  {
    hide Inv, Wait, ExitThreads, Reschedule, Drop;
    RecordOf(st, t);
    match call
    case WaitSynchronization(handles, all, timeout) => WaitKeeps(st, t, handles, all, timeout);
    case SleepThread(duration) =>
      var th := st.threads[t].(timeoutAt := (st.now + duration) % U64, status := WaitingForTimeout);
      PauseSound(st, t, th, st.waiting + [t]);
    case AwaitArbitration(first) =>
      var th := st.threads[t].(timeoutAt := NO_TIMEOUT, result := RESULT_OK, phase := Idle,
                               status := WaitingForArbitration);
      PauseSound(st, t, th, st.waiting);
      RescheduleSound(SetThread(st, t, th).(ready := RemoveAll(st.ready, t)), first);
    case Exit(victims, _) => ExitThreadsSound(st, victims, t);
    case CloseThread(u) => DropSound(st, u);
    case GetSystemTick(ticks) => ClockSound(st, st.now + ticks);
    case Preempted =>
  }

  lemma CreateCallSound(st: State, t: Tid, call: Call)
    requires Inv(st) && t in st.threads && st.threads[t].status == Ready
    requires call.CreateEvent? || call.CreateSemaphore? || call.CreateMutex? || call.CreateTimer? || call.CreateThread?
    ensures Sound(Perform(st, t, call))
  {
    hide Inv, SpawnThread;
    match call
    case CreateEvent(reset) =>
      if reset != Pulse {
        AddSubjectSound(st, Event(false, reset), 0, 0);
      }
    case CreateSemaphore(initial, max) =>
      if 0 <= initial <= max {
        AddSubjectSound(st, Semaphore(initial, max), initial, 0);
      }
    case CreateMutex(locked) =>
      AddSubjectSound(st, Mutex(if locked then 1 else 0, Some(t)), 0, if locked then 1 else 0);
    case CreateTimer(reset) => AddTimerSound(st, reset);
    case CreateThread => SpawnSound(st);
  }

  /** No call of a running thread trips a check of the kernel or breaks an invariant. */
  lemma PerformSound(st: State, t: Tid, call: Call)
    requires Inv(st) && t in st.threads && st.threads[t].status == Ready && st.threads[t].life == Alive
    ensures Sound(Perform(st, t, call))
  {
    hide Inv, Perform;
    if call.CreateEvent? || call.CreateSemaphore? || call.CreateMutex? || call.CreateTimer? || call.CreateThread? {
      CreateCallSound(st, t, call);
    } else if call.WaitSynchronization? || call.SleepThread? || call.AwaitArbitration? || call.Exit?
              || call.GetSystemTick? || call.Preempted? || call.CloseThread? {
      ThreadCallSound(st, t, call);
    } else {
      ObjectCallSound(st, t, call);
    }
  }

  lemma SystemCallSound(st: State, t: Tid, call: Call, tick: Tick)
    requires Inv(st) && t in st.threads && st.threads[t].status == Ready && st.threads[t].life == Alive
    ensures Sound(SystemCall(st, t, call, tick))
  {
    hide Inv, Perform, Reschedule;
    PerformSound(st, t, call);
    if Perform(st, t, call).Ok? {
      RescheduleSound(Perform(st, t, call).state, tick);
    }
  }

  // ---------------------------------------------------------------------------
  // Runs
  // ---------------------------------------------------------------------------

  /** One turn of the dispatcher. Its own check that queued threads wait for nothing cannot fire either;
      it fails in a leftover way exactly if the front entry is of a thread that is gone or that exited
      without unwinding. */
  lemma DispatchSound(st: State, turn: Turn)
    requires Inv(st)
    ensures Endures(Dispatch(st, turn))
    ensures Dispatch(st, turn) == Failed(ReadyThreadGone) <==> st.ready != [] && st.ready[0] !in st.threads
    ensures Dispatch(st, turn) == Failed(ResumedAfterExit)
            <==> st.ready != [] && st.ready[0] in st.threads && st.threads[st.ready[0]].life != Alive && !turn.unwound
  {
    hide Inv, Serve, DropAll;
    ServeSound(st, turn);
    if Serve(st, turn).Ok? {
      DropAllSound(Serve(st, turn).state, turn.dropped);
    }
  }

  lemma ServeSound(st: State, turn: Turn)
    requires Inv(st)
    ensures Endures(Serve(st, turn))
    ensures Serve(st, turn) == Failed(ReadyThreadGone) <==> st.ready != [] && st.ready[0] !in st.threads
    ensures Serve(st, turn) == Failed(ResumedAfterExit)
            <==> st.ready != [] && st.ready[0] in st.threads && st.threads[st.ready[0]].life != Alive && !turn.unwound
  {
    ElapseSound(st, turn.ran);
    if st.ready != [] && st.ready[0] in st.threads {
      var t := st.ready[0];
      assert t in st.ready && st.threads[t].status == Ready;
      assert ThreadOk(st.threads[t]);
      if st.threads[t].life == Alive && ElapseTime(st, turn.ran).Ok? {
        ElapseSettles(st, turn.ran);
        var st1 := ElapseTime(st, turn.ran).state;
        assert t in st1.threads && st1.threads[t].status == Ready && st1.threads[t].life == Alive;
        hide Inv, ElapseTime, SystemCall, Release;
        SystemCallSound(st1, t, turn.call, turn.tick);
        if SystemCall(st1, t, turn.call, turn.tick).Ok? {
          ReleaseSound(SystemCall(st1, t, turn.call, turn.tick).state, t, turn.last);
        }
      }
    }
  }

  lemma BootSound()
    ensures Inv(Boot())
  {
    SpawnSound(State(map[], map[], [], [], [], 0, 0, 0));
  }

  lemma {:induction false} RunSoundFrom(st: State, turns: seq<Turn>)
    requires Inv(st)
    ensures Endures(Run(st, turns))
    decreases |turns|
  {
    hide Inv, Dispatch;
    if turns != [] {
      DispatchSound(st, turns[0]);
      if Dispatch(st, turns[0]).Ok? {
        RunSoundFrom(Dispatch(st, turns[0]).state, turns[1..]);
      }
    }
  }

  /** Safety over all runs: whatever threads ask for and however the clock moves, a run from boot
      satisfies the invariants at its end, or stopped at a fault that a program caused or that a
      leftover timeout of an exited thread led to. */
  lemma RunsAreSound(turns: seq<Turn>)
    ensures Endures(Run(Boot(), turns))
  {
    BootSound();
    RunSoundFrom(Boot(), turns);
  }
}
