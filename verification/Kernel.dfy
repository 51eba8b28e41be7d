/**
  Thread synchronisation of the high-level kernel: threads, the objects they
  wait on, the scheduler queues, and the system calls that change them.

  Pointers become identifiers, and a weak pointer that fails to lock is an
  identifier that is no longer in `threads`. Every check the kernel makes
  (assert, throw) is a `Fault` outcome, so that its absence can be stated.
 */
module Kernel {
  import opened Options
  import opened Lists

  type Tid = nat
  type Oid = nat

  datatype ResetType = OneShot | Sticky | Pulse

  datatype Status = Ready | Sleeping | WaitingForTimeout | WaitingForArbitration | Stopped

  /** The part of a synchronisation object that decides whether it can be acquired. */
  datatype Resource =
    | Event(signalled: bool, reset: ResetType)
    | Semaphore(available: int, max: int)
    | Mutex(lockCount: nat, owner: Option<Tid>)
    | Timer(active: bool, reset: ResetType, deadline: nat, period: nat)
    | ThreadEnd(thread: Tid)

  /** `taken` and `given` are history: successful acquisitions, and units released
      (a semaphore's initial count and a mutex created locked are counted from the start). */
  datatype Subject = Subject(observers: seq<Tid>, resource: Resource, taken: int, given: int)

  /** How the thread's last wait stands. History, like `request`, `requestAll` and `acquired` below. */
  datatype Phase = Idle | Pending | Completed | TimedOut

  /** A thread that exited does not run any more; once it is off its process's list, only handles to it
      and threads waiting for its end keep it. */
  datatype Life = Alive | Exited | Released

  datatype Thread = Thread(
    status: Status,
    waitList: seq<Oid>,
    waitForAll: bool,
    wakeIndex: nat,
    woken: Option<Oid>,
    timeoutAt: nat,
    result: nat,
    subject: Oid,
    request: seq<Oid>,
    requestAll: bool,
    acquired: seq<Oid>,
    phase: Phase,
    life: Life)

  datatype State = State(
    threads: map<Tid, Thread>,
    subjects: map<Oid, Subject>,
    ready: seq<Tid>,
    waiting: seq<Tid>,
    timers: seq<Oid>,
    now: nat,
    nextTid: Tid,
    nextOid: Oid)

  datatype Fault =
    // Internal consistency checks of the kernel
    | NotRegistered          // assert in ObserverSubject::Unregister
    | NotSleeping            // assert in OnResourceReady and OnResourceAcquired
    | NotWaitedFor           // throw in Thread::OnResourceAcquired
    | WaitListNotEmpty       // throw in SVCWaitSynchronizationN
    | ReadyThreadWaiting     // throw in the dispatcher
    | BadEventType           // throw in Event::TryAcquireImpl
    // What a leftover timeout of a thread that exited can lead to
    | ReadyThreadGone        // null dereference in the dispatcher
    | ResumedAfterExit       // throw in HandlerSWI
    // Reactions to what a program asked for
    | HandleNotFound
    | WrongObject
    | MutexNotOwned
    | MutexOwnerDestroyed
    | RecursiveMutexOnExit
    | BadArgument            // documented precondition of the Semaphore constructor
    | Panic

  predicate Internal(f: Fault) {
    f in {NotRegistered, NotSleeping, NotWaitedFor, WaitListNotEmpty, ReadyThreadWaiting, BadEventType} || Leftover(f)
  }

  predicate Leftover(f: Fault) {
    f in {ReadyThreadGone, ResumedAfterExit}
  }

  datatype Result = Ok(state: State) | Failed(fault: Fault) {
    predicate IsFailure() { Failed? }
    function PropagateFailure(): Result
      requires Failed?
    {
      this
    }
    function Extract(): State
      requires Ok?
    {
      state
    }
  }

  const RESULT_OK: nat := 0
  const RESULT_TIMEOUT: nat := 0x09401BFE
  const U64: nat := 0x1_0000_0000_0000_0000
  /** The signed -1 that means "no timeout", as the unsigned comparison in ElapseTime sees it. */
  const NO_TIMEOUT: nat := U64 - 1

  // ---------------------------------------------------------------------------
  // Acquisition
  // ---------------------------------------------------------------------------

  datatype Attempt = Acquired(resource: Resource) | Unavailable | Broken(fault: Fault)

  /** The TryAcquireImpl overrides of the object classes. */
  function TryAcquireImpl(st: State, r: Resource, t: Tid): Attempt {
    match r
    case Event(signalled, reset) =>
      if !signalled then Unavailable
      else if reset == OneShot then Acquired(r.(signalled := false))
      else if reset == Sticky then Acquired(r)
      else Broken(BadEventType)
    case Semaphore(available, _) =>
      if available == 0 then Unavailable else Acquired(r.(available := available - 1))
    case Mutex(lockCount, owner) =>
      if lockCount > 0 && (owner.None? || owner.value !in st.threads) then Broken(MutexOwnerDestroyed)
      else if lockCount > 0 && owner.value != t then Unavailable
      else Acquired(Mutex(lockCount + 1, Some(t)))
    case Timer(active, reset, deadline, period) =>
      if !active || st.now < deadline then Unavailable
      else if reset == OneShot then Acquired(r.(active := false))
      else if reset == Sticky then Acquired(r)
      else Acquired(Timer(true, reset, st.now + period, period))
    case ThreadEnd(u) =>
      if u !in st.threads || st.threads[u].status == Stopped then Acquired(r) else Unavailable
  }

  datatype Try = Got(state: State) | Missed | Aborted(fault: Fault)

  /** ObserverSubject::TryAcquire: acquire, and on success unregister the thread once. */
  function TryAcquire(st: State, o: Oid, t: Tid): Try
    requires o in st.subjects && t in st.threads
  {
    var s := st.subjects[o];
    match TryAcquireImpl(st, s.resource, t)
    case Unavailable => Missed
    case Broken(f) => Aborted(f)
    case Acquired(r) =>
      if t !in s.observers then Aborted(NotRegistered)
      else
        var s' := Subject(RemoveFirst(s.observers, t), r, s.taken + 1, s.given);
        var th := st.threads[t];
        Got(st.(subjects := st.subjects[o := s'],
                threads := st.threads[t := th.(acquired := th.acquired + [o])]))
  }

  /** ObserverSubject::Unregister. */
  function Unregister(st: State, o: Oid, t: Tid): (st': State)
    requires o in st.subjects && t in st.subjects[o].observers
    ensures SameShape(st, st') && OnlyObservers(st, st')
  {
    var s := st.subjects[o];
    st.(subjects := st.subjects[o := s.(observers := RemoveFirst(s.observers, t))])
  }

  /** Unregisters t once from every listed object, in order. */
  function UnregisterAll(st: State, os: seq<Oid>, t: Tid): (r: Result)
    ensures r.Ok? ==> SameShape(st, r.state) && OnlyObservers(st, r.state)
    decreases |os|
  {
    if os == [] then Ok(st)
    else if os[0] !in st.subjects || t !in st.subjects[os[0]].observers then Failed(NotRegistered)
    else UnregisterAll(Unregister(st, os[0], t), os[1..], t)
  }

  /** The same threads and objects exist, and no observer list grew. */
  predicate SameShape(st: State, st': State) {
    && st'.threads.Keys == st.threads.Keys
    && st'.subjects.Keys == st.subjects.Keys
    && st'.now == st.now
    && forall o | o in st.subjects :: |st'.subjects[o].observers| <= |st.subjects[o].observers|
  }

  /** Only observer lists may differ, and they gained nobody. */
  predicate OnlyObservers(st: State, st': State) {
    && st'.subjects.Keys == st.subjects.Keys
    && st' == st.(subjects := st'.subjects)
    && (forall o | o in st.subjects ::
          st'.subjects[o] == st.subjects[o].(observers := st'.subjects[o].observers))
    && (forall o | o in st.subjects :: forall t | t in st'.subjects[o].observers :: t in st.subjects[o].observers)
  }

  function SetThread(st: State, t: Tid, th: Thread): (st': State)
    ensures t in st.threads ==> SameShape(st, st')
  {
    st.(threads := st.threads[t := th])
  }

  /** The waiting thread once o was acquired for it: a wait for any object is over, a wait for
      all is over when nothing is left to acquire. */
  function Granted(th: Thread, o: Oid): Thread
    requires o in th.waitList
  {
    var i := IndexOf(th.waitList, o);
    var rest := RemoveAt(th.waitList, i);
    var th1 := th.(wakeIndex := i, woken := Some(o), waitList := rest);
    if !th.waitForAll || rest == [] then th1.(waitList := [], status := Ready, phase := Completed) else th1
  }

  /** Thread::OnResourceAcquired. */
  function OnResourceAcquired(st: State, t: Tid, o: Oid): (r: Result)
    requires t in st.threads
    ensures r.Ok? ==> SameShape(st, r.state)
  {
    var th := st.threads[t];
    if th.status != Sleeping then Failed(NotSleeping)
    else if o !in th.waitList then Failed(NotWaitedFor)
    else
      var rest := RemoveAt(th.waitList, IndexOf(th.waitList, o));
      var st1 :- if th.waitForAll then Ok(st) else UnregisterAll(st, rest, t);
      var th' := Granted(th, o);
      Ok(SetThread(st1, t, th').(ready := if th'.status == Ready then [t] + st1.ready else st1.ready))
  }

  /** OS::OnResourceReady: wake observers in order until an acquisition fails. */
  function OnResourceReady(st: State, o: Oid): (r: Result)
    requires o in st.subjects
    ensures r.Ok? ==> SameShape(st, r.state)
    decreases |st.subjects[o].observers|
  {
    var s := st.subjects[o];
    if s.observers == [] then Ok(st)
    else
      var t := s.observers[0];
      if t !in st.threads then
        OnResourceReady(st.(subjects := st.subjects[o := s.(observers := s.observers[1..])]), o)
      else if st.threads[t].status != Sleeping then Failed(NotSleeping)
      else
        match TryAcquire(st, o, t)
        case Missed => Ok(st)
        case Aborted(f) => Failed(f)
        case Got(st1) =>
          var st2 :- OnResourceAcquired(st1, t, o);
          OnResourceReady(st2, o)
  }

  // ---------------------------------------------------------------------------
  // Time
  // ---------------------------------------------------------------------------

  /** How far the clock moved, and which events are bound to the interrupts that fired. */
  datatype Tick = Tick(elapsed: nat, fired: seq<Oid>)

  predicate Expired(st: State, o: Oid)
    requires o in st.subjects
  {
    var r := st.subjects[o].resource;
    r.Timer? && r.active && r.deadline <= st.now
  }

  function SetResource(st: State, o: Oid, r: Resource): State
    requires o in st.subjects
  {
    st.(subjects := st.subjects[o := st.subjects[o].(resource := r)])
  }

  function RunTimers(st: State, timers: seq<Oid>): (r: Result)
    ensures r.Ok? ==> SameShape(st, r.state)
    decreases |timers|
  {
    if timers == [] then Ok(st)
    else if timers[0] in st.subjects && Expired(st, timers[0]) then
      var st1 :- OnResourceReady(st, timers[0]);
      RunTimers(st1, timers[1..])
    else RunTimers(st, timers[1..])
  }

  /** OS::NotifyInterrupt for every event bound to a fired interrupt. */
  function FireInterrupts(st: State, events: seq<Oid>): (r: Result)
    ensures r.Ok? ==> SameShape(st, r.state)
    decreases |events|
  {
    if events == [] then Ok(st)
    else if events[0] !in st.subjects || !st.subjects[events[0]].resource.Event? then Failed(WrongObject)
    else
      var e := events[0];
      var st1 :- OnResourceReady(SetResource(st, e, st.subjects[e].resource.(signalled := true)), e);
      FireInterrupts(st1, events[1..])
  }

  /** Wakes one thread whose timeout passed; a synchronisation wait is given up. */
  function Expire(st: State, t: Tid): (r: Result)
    requires t in st.threads
    ensures r.Ok? ==> SameShape(st, r.state)
  {
    var th := st.threads[t];
    if th.status == Sleeping then
      var st1 :- UnregisterAll(st, th.waitList, t);
      Ok(SetThread(st1, t, th.(result := RESULT_TIMEOUT, waitList := [], status := Ready, phase := TimedOut))
         .(ready := st1.ready + [t]))
    else
      Ok(SetThread(st, t, th.(status := Ready)).(ready := st.ready + [t]))
  }

  /** The loop over waiting_queue from position i on. */
  function RunTimeouts(st: State, i: nat): (r: Result)
    requires i <= |st.waiting|
    ensures r.Ok? ==> SameShape(st, r.state)
    decreases |st.waiting| - i
  {
    if i == |st.waiting| then Ok(st)
    else
      var t := st.waiting[i];
      if t !in st.threads then RunTimeouts(st.(waiting := RemoveAt(st.waiting, i)), i)
      else if st.threads[t].timeoutAt <= st.now then
        var st1 :- Expire(st, t);
        RunTimeouts(st1.(waiting := RemoveAt(st.waiting, i)), i)
      else RunTimeouts(st, i + 1)
  }

  function ElapseTime(st: State, tick: Tick): (r: Result)
    ensures r.Ok? ==> SameShape(st.(now := st.now + tick.elapsed), r.state)
  {
    var st0 := st.(now := st.now + tick.elapsed);
    var st1 :- RunTimers(st0, st0.timers);
    var st2 :- FireInterrupts(st1, tick.fired);
    RunTimeouts(st2, 0)
  }

  function Reschedule(st: State, tick: Tick): (r: Result) {
    var st1 :- ElapseTime(st, tick);
    Ok(st1.(ready := Rotate(st1.ready)))
  }

  // ---------------------------------------------------------------------------
  // Waiting
  // ---------------------------------------------------------------------------

  /** What a handle given by a program turns out to be. */
  datatype Handle = Object(id: Oid) | Unknown | Invalid

  /** Registers t with o and lists o in its wait list. */
  function RegisterOne(st: State, o: Oid, t: Tid): State
    requires t in st.threads && o in st.subjects
  {
    var s := st.subjects[o];
    var th := st.threads[t];
    st.(subjects := st.subjects[o := s.(observers := s.observers + [t])],
        threads := st.threads[t := th.(waitList := th.waitList + [o])])
  }

  function Register(st: State, os: seq<Oid>, t: Tid): State
    requires t in st.threads
    requires forall o | o in os :: o in st.subjects
    decreases |os|
  {
    if os == [] then st else Register(RegisterOne(st, os[0], t), os[1..], t)
  }

  /** The initial scan of the wait list, from position i on. */
  function Scan(st: State, t: Tid, i: nat, all: bool): (r: Result)
    requires t in st.threads && i <= |st.threads[t].waitList|
    requires forall o | o in st.threads[t].waitList :: o in st.subjects
    ensures r.Ok? ==> SameShape(st, r.state)
    decreases |st.threads[t].waitList| - i
  {
    var th := st.threads[t];
    if i == |th.waitList| then Ok(st)
    else
      match TryAcquire(st, th.waitList[i], t)
      case Missed => Scan(st, t, i + 1, all)
      case Aborted(f) => Failed(f)
      case Got(st1) =>
        var rest := RemoveAt(th.waitList, i);
        var th1 := st1.threads[t].(wakeIndex := i, woken := Some(th.waitList[i]), waitList := rest);
        if !all then
          var st2 :- UnregisterAll(st1, rest, t);
          Ok(SetThread(st2, t, th1.(waitList := [])))
        else Scan(SetThread(st1, t, th1), t, i, all)
  }

  /** The handles that are looked at: a third invalid handle is dropped. */
  function WaitHandles(handles: seq<Handle>): seq<Handle> {
    if |handles| == 3 && handles[2] == Invalid then handles[..2] else handles
  }

  function Ids(handles: seq<Handle>): (os: seq<Oid>)
    requires forall h | h in handles :: h.Object?
    ensures |os| == |handles|
    ensures forall i | 0 <= i < |os| :: os[i] == handles[i].id
  {
    if handles == [] then [] else [handles[0].id] + Ids(handles[1..])
  }

  /** The thread as SVCWaitSynchronizationN starts on it. */
  function BeginWait(st: State, th: Thread, os: seq<Oid>, all: bool, timeout: int): Thread {
    th.(timeoutAt := if timeout != -1 then (st.now + timeout) % U64 else NO_TIMEOUT,
        result := RESULT_OK, request := os, requestAll := all, acquired := [], phase := Completed)
  }

  /** Puts t to sleep if the scan left something to wait for. */
  function EndWait(st: State, t: Tid, all: bool): State
    requires t in st.threads
  {
    var th := st.threads[t];
    if th.waitList == [] then st
    else
      SetThread(st, t, th.(waitForAll := all, status := Sleeping, phase := Pending))
      .(ready := RemoveAll(st.ready, t),
        waiting := if th.timeoutAt != NO_TIMEOUT then st.waiting + [t] else st.waiting)
  }

  function WaitFor(st: State, t: Tid, th: Thread, os: seq<Oid>, all: bool): Result
    requires t in st.threads && th.waitList == []
    requires forall o | o in os :: o in st.subjects
  {
    RegisterClosed(SetThread(st, t, th), os, t);
    var st1 :- Scan(Register(SetThread(st, t, th), os, t), t, 0, all);
    Ok(EndWait(st1, t, all))
  }

  /** SVCWaitSynchronizationN up to its final reschedule. */
  function Wait(st: State, t: Tid, handles: seq<Handle>, all: bool, timeout: int): Result
    requires t in st.threads
  {
    var hs := WaitHandles(handles);
    if st.threads[t].waitList != [] then Failed(WaitListNotEmpty)
    else if exists h | h in hs :: !h.Object? || h.id !in st.subjects then Failed(HandleNotFound)
    else WaitFor(st, t, BeginWait(st, st.threads[t], Ids(hs), all, timeout), Ids(hs), all)
  }

  /** Registering appends the objects to the wait list and touches nothing else of the thread. */
  lemma {:induction false} RegisterClosed(st: State, os: seq<Oid>, t: Tid)
    requires t in st.threads
    requires forall o | o in os :: o in st.subjects
    ensures var st' := Register(st, os, t);
            && st'.subjects.Keys == st.subjects.Keys
            && st'.threads == st.threads[t := st.threads[t].(waitList := st.threads[t].waitList + os)]
            && st' == st.(subjects := st'.subjects, threads := st'.threads)
            && forall o | o in st.subjects ::
                 st'.subjects[o] == st.subjects[o].(observers := st'.subjects[o].observers)
    decreases |os|
  {
    if os == [] {
      assert st.threads[t].waitList + os == st.threads[t].waitList;
    } else {
      RegisterClosed(RegisterOne(st, os[0], t), os[1..], t);
      assert st.threads[t].waitList + [os[0]] + os[1..] == st.threads[t].waitList + os;
    }
  }

  // ---------------------------------------------------------------------------
  // Ending threads
  // ---------------------------------------------------------------------------

  /** Releases the mutexes among the listed objects that t owns. */
  function ReleaseOwned(st: State, held: seq<Oid>, t: Tid): (r: Result)
    ensures r.Ok? ==> SameShape(st, r.state)
    decreases |held|
  {
    if held == [] then Ok(st)
    else if held[0] in st.subjects && IsOwner(st.subjects[held[0]].resource, t) then
      var st1 := ReleaseMutex(st, held[0]);
      if st1.subjects[held[0]].resource.lockCount != 0 then Failed(RecursiveMutexOnExit)
      else
        var st2 :- OnResourceReady(st1, held[0]);
        ReleaseOwned(st2, held[1..], t)
    else ReleaseOwned(st, held[1..], t)
  }

  predicate IsOwner(r: Resource, t: Tid) {
    r.Mutex? && r.lockCount > 0 && r.owner == Some(t)
  }

  /** Mutex::Release. */
  function ReleaseMutex(st: State, o: Oid): (st': State)
    requires o in st.subjects && st.subjects[o].resource.Mutex? && st.subjects[o].resource.lockCount > 0
    ensures SameShape(st, st') && st'.threads == st.threads
    ensures st'.subjects[o].resource.Mutex?
  {
    var s := st.subjects[o];
    var n := s.resource.lockCount - 1;
    st.(subjects := st.subjects[o := s.(resource := Mutex(n, if n == 0 then None else s.resource.owner),
                                        given := s.given + 1)])
  }

  function Ended(th: Thread): Thread {
    th.(waitList := [], status := Stopped, phase := Idle, life := if th.life == Alive then Exited else th.life)
  }

  /** OS::ExitThread; `held` lists the objects of the process's handle table in iteration order. */
  function ExitThread(st: State, t: Tid, held: seq<Oid>): (r: Result)
    requires t in st.threads
  {
    if st.threads[t].status == Stopped then Ok(st)
    else
      var st1 :- ReleaseOwned(st, held, t);
      var st2 :- UnregisterAll(st1, st1.threads[t].waitList, t);
      var th := Ended(st2.threads[t]);
      var st3 := SetThread(st2, t, th).(ready := RemoveAll(st2.ready, t));
      if th.subject !in st3.subjects then Failed(WrongObject)
      else OnResourceReady(st3, th.subject)
  }

  /** A thread to end, with its handle table, whether its process's list has the last reference, and the
      threads whose last handle is in that table should the process end with it. */
  datatype Victim = Victim(tid: Tid, held: seq<Oid>, last: bool, closed: seq<Tid>)

  function Destroy(st: State, t: Tid): State {
    st.(threads := map u | u in st.threads && u != t :: st.threads[u])
  }

  /** Ends threads for thread `me`, which is itself released by the dispatcher only. */
  function ExitThreads(st: State, victims: seq<Victim>, me: Tid): Result
    decreases |victims|
  {
    if victims == [] then Ok(st)
    else
      var v := victims[0];
      if v.tid !in st.threads || st.threads[v.tid].life == Released then ExitThreads(st, victims[1..], me)
      else
        var st1 :- ExitThread(st, v.tid, v.held);
        ExitThreads(if v.tid == me then st1 else Discharge(st1, v), victims[1..], me)
  }

  /** TriggerThreadDestruction, with the end of the process if that comes with it. */
  function Discharge(st: State, v: Victim): State {
    DropAll(Release(st, v.tid, v.last), v.closed)
  }

  /** TriggerThreadDestruction of a stopped thread: it leaves its process's list, and goes if that was the
      last reference to it. */
  function Release(st: State, t: Tid, last: bool): State {
    if t !in st.threads || st.threads[t].status != Stopped then st
    else if last then Destroy(st, t)
    else SetThread(st, t, st.threads[t].(life := Released))
  }

  /** Threads whose last handle is closed, or whose last waiter gave up, go if nothing else keeps them. */
  function Drop(st: State, u: Tid): State {
    if Abandoned(st, u) then Destroy(st, u) else st
  }

  function DropAll(st: State, us: seq<Tid>): State
    decreases |us|
  {
    if us == [] then st else DropAll(Drop(st, us[0]), us[1..])
  }

  /** Whether nothing but a handle can keep the thread: it left its process's list, and nobody waits for
      its end. */
  predicate Abandoned(st: State, t: Tid) {
    && t in st.threads && st.threads[t].life == Released
    && st.threads[t].subject in st.subjects && st.subjects[st.threads[t].subject].observers == []
  }

  // ---------------------------------------------------------------------------
  // System calls and the dispatcher
  // ---------------------------------------------------------------------------

  datatype Call =
    | CreateEvent(reset: ResetType)
    | CreateSemaphore(initial: int, max: int)
    | CreateMutex(locked: bool)
    | CreateTimer(reset: ResetType)
    | CreateThread
    | SignalEvent(target: Handle)
    | ClearEvent(target: Handle)
    | ReleaseSemaphore(target: Handle, times: int)
    | UnlockMutex(target: Handle)
    | CloseMutex(target: Handle)
    | CloseThread(tid: Tid)         // the last handle to a thread
    | SetTimer(target: Handle, initial: int, interval: int)
    | WaitSynchronization(handles: seq<Handle>, all: bool, timeout: int)
    | SleepThread(duration: int)
    | AwaitArbitration(first: Tick)
    | Exit(victims: seq<Victim>, switches: bool)
    | GetSystemTick(ticks: nat)
    | Preempted

  function AddSubject(st: State, r: Resource, given: int, taken: int): State {
    st.(subjects := st.subjects[st.nextOid := Subject([], r, taken, given)], nextOid := st.nextOid + 1)
  }

  function SpawnThread(st: State): State {
    var st1 := AddSubject(st, ThreadEnd(st.nextTid), 0, 0);
    var th := Thread(Ready, [], false, 0, None, NO_TIMEOUT, RESULT_OK, st.nextOid, [], false, [], Idle, Alive);
    SetThread(st1, st.nextTid, th).(ready := st1.ready + [st.nextTid], nextTid := st.nextTid + 1)
  }

  predicate Names(st: State, h: Handle) {
    h.Object? && h.id in st.subjects
  }

  /** Semaphore::Release followed by OnResourceReady; a rejected release changes no count. */
  function ReleaseSemaphoreOn(st: State, o: Oid, times: int): Result
    requires o in st.subjects && st.subjects[o].resource.Semaphore?
  {
    var s := st.subjects[o];
    if times < 0 || s.resource.available > s.resource.max - times then OnResourceReady(st, o)
    else
      var r := s.resource.(available := s.resource.available + times);
      OnResourceReady(st.(subjects := st.subjects[o := s.(resource := r, given := s.given + times)]), o)
  }

  /** The effect of a call by thread t before the kernel reschedules. */
  function Perform(st: State, t: Tid, call: Call): Result
    requires t in st.threads
  {
    match call
    case CreateEvent(reset) =>
      if reset == Pulse then Failed(Panic) else Ok(AddSubject(st, Event(false, reset), 0, 0))
    case CreateSemaphore(initial, max) =>
      if 0 <= initial <= max then Ok(AddSubject(st, Semaphore(initial, max), initial, 0)) else Failed(BadArgument)
    case CreateMutex(locked) =>
      Ok(AddSubject(st, Mutex(if locked then 1 else 0, Some(t)), 0, if locked then 1 else 0))
    case CreateTimer(reset) =>
      var st1 := AddSubject(st, Timer(false, reset, 0, 0), 0, 0);
      Ok(st1.(timers := st1.timers + [st.nextOid]))
    case CreateThread => Ok(SpawnThread(st))
    case SignalEvent(h) =>
      if !Names(st, h) || !st.subjects[h.id].resource.Event? then Failed(WrongObject)
      else OnResourceReady(SetResource(st, h.id, st.subjects[h.id].resource.(signalled := true)), h.id)
    case ClearEvent(h) =>
      if !Names(st, h) || !st.subjects[h.id].resource.Event? then Failed(WrongObject)
      else Ok(SetResource(st, h.id, st.subjects[h.id].resource.(signalled := false)))
    case ReleaseSemaphore(h, times) =>
      if !Names(st, h) || !st.subjects[h.id].resource.Semaphore? then Failed(WrongObject)
      else ReleaseSemaphoreOn(st, h.id, times)
    case UnlockMutex(h) =>
      if !Names(st, h) || !IsOwner(st.subjects[h.id].resource, t) then Failed(MutexNotOwned)
      else
        var st1 := ReleaseMutex(st, h.id);
        if st1.subjects[h.id].resource.lockCount == 0 then OnResourceReady(st1, h.id) else Ok(st1)
    case CloseMutex(h) =>
      if !Names(st, h) || !IsOwner(st.subjects[h.id].resource, t) then Ok(st)
      else OnResourceReady(ReleaseMutex(st, h.id), h.id)
    case CloseThread(u) => Ok(Drop(st, u))
    case SetTimer(h, initial, interval) =>
      if initial < 0 || interval < 0 then Failed(Panic)
      else if !Names(st, h) || !st.subjects[h.id].resource.Timer? then Failed(WrongObject)
      else
        var st1 := SetResource(st, h.id, Timer(true, st.subjects[h.id].resource.reset, st.now + initial, interval));
        if Expired(st1, h.id) then OnResourceReady(st1, h.id) else Ok(st1)
    case WaitSynchronization(handles, all, timeout) => Wait(st, t, handles, all, timeout)
    case SleepThread(duration) =>
      var th := st.threads[t].(timeoutAt := (st.now + duration) % U64, status := WaitingForTimeout);
      Ok(SetThread(st, t, th).(ready := RemoveAll(st.ready, t), waiting := st.waiting + [t]))
    case AwaitArbitration(first) =>
      var th := st.threads[t].(timeoutAt := NO_TIMEOUT, result := RESULT_OK, phase := Idle,
                               status := WaitingForArbitration);
      Reschedule(SetThread(st, t, th).(ready := RemoveAll(st.ready, t)), first)
    case Exit(victims, _) => ExitThreads(st, victims, t)
    case GetSystemTick(ticks) => Ok(st.(now := st.now + ticks))
    case Preempted => Ok(st)
  }

  /** Sleeping for a while, reading the clock, a wait that is over at once and terminating another process
      do not reschedule. */
  predicate Reschedules(st: State, t: Tid, call: Call) {
    match call
    case SleepThread(_) => false
    case GetSystemTick(_) => false
    case Exit(_, switches) => switches
    case WaitSynchronization(_, _, _) => t in st.threads && st.threads[t].status == Sleeping
    case _ => true
  }

  function SystemCall(st: State, t: Tid, call: Call, tick: Tick): Result
    requires t in st.threads
  {
    var st1 :- Perform(st, t, call);
    if Reschedules(st1, t, call) then Reschedule(st1, tick) else Ok(st1)
  }

  /** One turn of the dispatcher loop: what the clock did while the front thread ran, what the
      thread then asked for, and whether its process's list has the last reference should it have
      stopped. A thread that exited asks for nothing: it has `unwound`, or resuming it throws. At the
      end of the turn the `dropped` threads have lost their last handle, because the process that
      had it ended, or their last waiter. */
  datatype Turn = Turn(ran: Tick, call: Call, tick: Tick, last: bool, unwound: bool, dropped: seq<Tid>)

  function Dispatch(st: State, turn: Turn): Result {
    var st1 :- Serve(st, turn);
    Ok(DropAll(st1, turn.dropped))
  }

  function Serve(st: State, turn: Turn): Result {
    if st.ready == [] then ElapseTime(st, turn.ran)
    else
      var t := st.ready[0];
      if t !in st.threads then Failed(ReadyThreadGone)
      else if st.threads[t].waitList != [] then Failed(ReadyThreadWaiting)
      else if st.threads[t].status != Ready then Ok(st.(ready := st.ready[1..]))
      else if st.threads[t].life != Alive then
        if turn.unwound then ElapseTime(st, turn.ran) else Failed(ResumedAfterExit)
      else
        var st1 :- ElapseTime(st, turn.ran);
        var st2 :- SystemCall(st1, t, turn.call, turn.tick);
        Ok(Release(st2, t, turn.last))
  }

  /** The kernel with its boot thread. */
  function Boot(): State {
    SpawnThread(State(map[], map[], [], [], [], 0, 0, 0))
  }

  function Run(st: State, turns: seq<Turn>): Result
    decreases |turns|
  {
    if turns == [] then Ok(st)
    else
      var st1 :- Dispatch(st, turns[0]);
      Run(st1, turns[1..])
  }
}
