/**
  The kernel as the object it is: queues and lists changed in place by loops.
  Every method is proved to leave behind the state that the corresponding
  function of module Kernel describes, or to report the same fault.
 */
module KernelMachine {
  import opened Options
  import opened Lists
  import opened Kernel

  /** Reported faults, if any. */
  type Report = Option<Fault>

  /** The outcome of a method agrees with the function that specifies it. */
  ghost predicate Agrees(st: State, report: Report, spec: Result) {
    match spec
    case Ok(st') => report == None && st == st'
    case Failed(f) => report == Some(f)
  }

  datatype Verdict = Taken | Denied | Faulted(fault: Fault)

  ghost predicate Decides(before: State, after: State, v: Verdict, spec: Try) {
    match spec
    case Got(st) => v == Taken && after == st
    case Missed => v == Denied && after == before
    case Aborted(f) => v == Faulted(f)
  }

  class Os {
    var threads: map<Tid, Thread>
    var subjects: map<Oid, Subject>
    var ready: seq<Tid>
    var waiting: seq<Tid>
    var timers: seq<Oid>
    var now: nat
    var nextTid: Tid
    var nextOid: Oid

    ghost function Snapshot(): State
      reads this
    {
      State(threads, subjects, ready, waiting, timers, now, nextTid, nextOid)
    }

    constructor ()
      ensures Snapshot() == Boot()
    {
      threads := map[0 := Thread(Ready, [], false, 0, None, NO_TIMEOUT, RESULT_OK, 0, [], false, [], Idle, Alive)];
      subjects := map[0 := Subject([], ThreadEnd(0), 0, 0)];
      ready, waiting, timers := [0], [], [];
      now, nextTid, nextOid := 0, 1, 1;
    }

    method Unregister(o: Oid, t: Tid)
      requires o in subjects && t in subjects[o].observers
      modifies this
      ensures Snapshot() == Kernel.Unregister(old(Snapshot()), o, t)
    {
      var s := subjects[o];
      subjects := subjects[o := s.(observers := RemoveFirst(s.observers, t))];
    }

    /** The loop that unregisters a thread from everything it was waiting on. */
    method UnregisterAll(os: seq<Oid>, t: Tid) returns (report: Report)
      modifies this
      ensures Agrees(Snapshot(), report, Kernel.UnregisterAll(old(Snapshot()), os, t))
    {
      report := None;
      var i := 0;
      while i < |os|
        invariant i <= |os| && report == None
        invariant Kernel.UnregisterAll(Snapshot(), os[i..], t) == Kernel.UnregisterAll(old(Snapshot()), os, t)
      {
        if os[i] !in subjects || t !in subjects[os[i]].observers {
          return Some(NotRegistered);
        }
        Unregister(os[i], t);
        assert os[i..][1..] == os[i + 1..];
        i := i + 1;
      }
    }

    method TryAcquire(o: Oid, t: Tid) returns (v: Verdict)
      requires o in subjects && t in threads
      modifies this
      ensures Decides(old(Snapshot()), Snapshot(), v, Kernel.TryAcquire(old(Snapshot()), o, t))
    {
      var s := subjects[o];
      var attempt := TryAcquireImpl(State(threads, subjects, ready, waiting, timers, now, nextTid, nextOid),
                                    s.resource, t);
      match attempt
      case Unavailable => v := Denied;
      case Broken(f) => v := Faulted(f);
      case Acquired(r) =>
        if t !in s.observers {
          v := Faulted(NotRegistered);
        } else {
          subjects := subjects[o := Subject(RemoveFirst(s.observers, t), r, s.taken + 1, s.given)];
          threads := threads[t := threads[t].(acquired := threads[t].acquired + [o])];
          v := Taken;
        }
    }

    method OnResourceAcquired(t: Tid, o: Oid) returns (report: Report)
      requires t in threads
      modifies this
      ensures Agrees(Snapshot(), report, Kernel.OnResourceAcquired(old(Snapshot()), t, o))
    {
      var th := threads[t];
      if th.status != Sleeping {
        return Some(NotSleeping);
      }
      if o !in th.waitList {
        return Some(NotWaitedFor);
      }
      var i := IndexOf(th.waitList, o);
      var rest := RemoveAt(th.waitList, i);
      th := th.(wakeIndex := i, woken := Some(o), waitList := rest);
      report := None;
      if !th.waitForAll {
        report := UnregisterAll(rest, t);
        if report.Some? {
          return;
        }
        threads := threads[t := th.(waitList := [], status := Ready, phase := Completed)];
        ready := [t] + ready;
      } else if rest == [] {
        threads := threads[t := th.(waitList := [], status := Ready, phase := Completed)];
        ready := [t] + ready;
      } else {
        threads := threads[t := th];
      }
    }

    /** Wakes observers until an acquisition fails; the observer list shrinks on every round. */
    method OnResourceReady(o: Oid) returns (report: Report)
      requires o in subjects
      modifies this
      ensures Agrees(Snapshot(), report, Kernel.OnResourceReady(old(Snapshot()), o))
    {
      report := None;
      while subjects[o].observers != []
        invariant o in subjects && report == None
        invariant Kernel.OnResourceReady(Snapshot(), o) == Kernel.OnResourceReady(old(Snapshot()), o)
        decreases |subjects[o].observers|
      {
        ghost var before := Snapshot();
        var s := subjects[o];
        var t := s.observers[0];
        if t !in threads {
          subjects := subjects[o := s.(observers := s.observers[1..])];
          continue;
        }
        if threads[t].status != Sleeping {
          return Some(NotSleeping);
        }
        var v := TryAcquire(o, t);
        if v.Denied? {
          return;
        }
        if v.Faulted? {
          return Some(v.fault);
        }
        ghost var mid := Snapshot();
        hide Kernel.TryAcquire, Kernel.OnResourceAcquired;
        AfterGrant(before, mid, o, t);
        report := OnResourceAcquired(t, o);
        if report.Some? {
          return;
        }
      }
    }

    method RunTimers() returns (report: Report)
      modifies this
      ensures Agrees(Snapshot(), report, Kernel.RunTimers(old(Snapshot()), old(timers)))
    {
      report := None;
      var list := timers;
      var i := 0;
      while i < |list|
        invariant i <= |list| && report == None
        invariant Kernel.RunTimers(Snapshot(), list[i..]) == Kernel.RunTimers(old(Snapshot()), list)
      {
        assert list[i..][1..] == list[i + 1..];
        if list[i] in subjects && Expired(State(threads, subjects, ready, waiting, timers, now, nextTid, nextOid), list[i]) {
          report := OnResourceReady(list[i]);
          if report.Some? {
            return;
          }
        }
        i := i + 1;
      }
    }

    method FireInterrupts(events: seq<Oid>) returns (report: Report)
      modifies this
      ensures Agrees(Snapshot(), report, Kernel.FireInterrupts(old(Snapshot()), events))
    {
      report := None;
      var i := 0;
      while i < |events|
        invariant i <= |events| && report == None
        invariant Kernel.FireInterrupts(Snapshot(), events[i..]) == Kernel.FireInterrupts(old(Snapshot()), events)
      {
        assert events[i..][1..] == events[i + 1..];
        var e := events[i];
        if e !in subjects || !subjects[e].resource.Event? {
          return Some(WrongObject);
        }
        subjects := subjects[e := subjects[e].(resource := subjects[e].resource.(signalled := true))];
        report := OnResourceReady(e);
        if report.Some? {
          return;
        }
        i := i + 1;
      }
    }

    /** The loop over the timeout queue, which erases entries as it goes. */
    method RunTimeouts() returns (report: Report)
      modifies this
      ensures Agrees(Snapshot(), report, Kernel.RunTimeouts(old(Snapshot()), 0))
    {
      report := None;
      var i := 0;
      while i < |waiting|
        invariant i <= |waiting| && report == None
        invariant Kernel.RunTimeouts(Snapshot(), i) == Kernel.RunTimeouts(old(Snapshot()), 0)
        decreases |waiting| - i
      {
        var t := waiting[i];
        if t !in threads {
          waiting := RemoveAt(waiting, i);
        } else if threads[t].timeoutAt <= now {
          var queue := waiting;
          report := Expire(t);
          if report.Some? {
            return;
          }
          waiting := RemoveAt(queue, i);
        } else {
          i := i + 1;
        }
      }
    }

    method Expire(t: Tid) returns (report: Report)
      requires t in threads
      modifies this
      ensures Agrees(Snapshot(), report, Kernel.Expire(old(Snapshot()), t))
    {
      report := None;
      var th := threads[t];
      if th.status == Sleeping {
        report := UnregisterAll(th.waitList, t);
        if report.Some? {
          return;
        }
        th := th.(result := RESULT_TIMEOUT, waitList := [], phase := TimedOut);
      }
      threads := threads[t := th.(status := Ready)];
      ready := ready + [t];
    }

    method ElapseTime(tick: Tick) returns (report: Report)
      modifies this
      ensures Agrees(Snapshot(), report, Kernel.ElapseTime(old(Snapshot()), tick))
    {
      now := now + tick.elapsed;
      report := RunTimers();
      if report.None? {
        report := FireInterrupts(tick.fired);
        if report.None? {
          report := RunTimeouts();
        }
      }
    }

    method Reschedule(tick: Tick) returns (report: Report)
      modifies this
      ensures Agrees(Snapshot(), report, Kernel.Reschedule(old(Snapshot()), tick))
    {
      report := ElapseTime(tick);
      if report.None? {
        ready := Rotate(ready);
      }
    }

    method Register(os: seq<Oid>, t: Tid)
      requires t in threads
      requires forall o | o in os :: o in subjects
      modifies this
      ensures Snapshot() == Kernel.Register(old(Snapshot()), os, t)
    {
      var i := 0;
      while i < |os|
        invariant i <= |os| && t in threads
        invariant forall o | o in os :: o in subjects
        invariant Kernel.Register(Snapshot(), os[i..], t) == Kernel.Register(old(Snapshot()), os, t)
      {
        assert os[i..][1..] == os[i + 1..];
        subjects := subjects[os[i] := subjects[os[i]].(observers := subjects[os[i]].observers + [t])];
        threads := threads[t := threads[t].(waitList := threads[t].waitList + [os[i]])];
        i := i + 1;
      }
    }

    /** Tries every listed object once; stops at the first success when waiting for any. */
    method Scan(t: Tid, all: bool) returns (report: Report)
      requires t in threads
      requires forall o | o in threads[t].waitList :: o in subjects
      modifies this
      ensures Agrees(Snapshot(), report, Kernel.Scan(old(Snapshot()), t, 0, all))
    {
      report := None;
      var i := 0;
      while i < |threads[t].waitList|
        invariant t in threads && i <= |threads[t].waitList| && report == None
        invariant forall o | o in threads[t].waitList :: o in subjects
        invariant Kernel.Scan(Snapshot(), t, i, all) == Kernel.Scan(old(Snapshot()), t, 0, all)
        decreases |threads[t].waitList| - i
      {
        var waitList := threads[t].waitList;
        var v := TryAcquire(waitList[i], t);
        if v.Faulted? {
          return Some(v.fault);
        } else if v.Denied? {
          i := i + 1;
        } else {
          var rest := RemoveAt(waitList, i);
          var th := threads[t].(wakeIndex := i, woken := Some(waitList[i]), waitList := rest);
          if !all {
            report := UnregisterAll(rest, t);
            if report.None? {
              threads := threads[t := th.(waitList := [])];
            }
            return;
          }
          threads := threads[t := th];
        }
      }
    }

    /** SVCWaitSynchronizationN without its final reschedule. */
    method Wait(t: Tid, handles: seq<Handle>, all: bool, timeout: int) returns (report: Report)
      requires t in threads
      modifies this
      ensures Agrees(Snapshot(), report, Kernel.Wait(old(Snapshot()), t, handles, all, timeout))
    {
      var hs := WaitHandles(handles);
      if threads[t].waitList != [] {
        return Some(WaitListNotEmpty);
      }
      if exists h | h in hs :: !h.Object? || h.id !in subjects {
        return Some(HandleNotFound);
      }
      var os := Ids(hs);
      var th := BeginWait(State(threads, subjects, ready, waiting, timers, now, nextTid, nextOid),
                          threads[t], os, all, timeout);
      hide Kernel.WaitFor;
      report := WaitFor(t, th, os, all);
    }

    method WaitFor(t: Tid, th: Thread, os: seq<Oid>, all: bool) returns (report: Report)
      requires t in threads && th.waitList == []
      requires forall o | o in os :: o in subjects
      modifies this
      ensures Agrees(Snapshot(), report, Kernel.WaitFor(old(Snapshot()), t, th, os, all))
    {
      hide Kernel.Scan, Kernel.Register;
      threads := threads[t := th];
      RegisterClosed(Snapshot(), os, t);
      Register(os, t);
      report := Scan(t, all);
      if report.None? && threads[t].waitList != [] {
        threads := threads[t := threads[t].(waitForAll := all, status := Sleeping, phase := Pending)];
        ready := RemoveAll(ready, t);
        if threads[t].timeoutAt != NO_TIMEOUT {
          waiting := waiting + [t];
        }
      }
    }

    method ReleaseMutex(o: Oid)
      requires o in subjects && subjects[o].resource.Mutex? && subjects[o].resource.lockCount > 0
      modifies this
      ensures Snapshot() == Kernel.ReleaseMutex(old(Snapshot()), o)
    {
      var s := subjects[o];
      var n := s.resource.lockCount - 1;
      subjects := subjects[o := s.(resource := Mutex(n, if n == 0 then None else s.resource.owner),
                                   given := s.given + 1)];
    }

    /** Releases the mutexes that t owns among the objects of its process. */
    method ReleaseOwned(held: seq<Oid>, t: Tid) returns (report: Report)
      modifies this
      ensures Agrees(Snapshot(), report, Kernel.ReleaseOwned(old(Snapshot()), held, t))
    {
      report := None;
      var i := 0;
      while i < |held|
        invariant i <= |held| && report == None
        invariant Kernel.ReleaseOwned(Snapshot(), held[i..], t) == Kernel.ReleaseOwned(old(Snapshot()), held, t)
      {
        assert held[i..][1..] == held[i + 1..];
        var o := held[i];
        if o in subjects && IsOwner(subjects[o].resource, t) {
          ReleaseMutex(o);
          if subjects[o].resource.lockCount != 0 {
            return Some(RecursiveMutexOnExit);
          }
          report := OnResourceReady(o);
          if report.Some? {
            return;
          }
        }
        i := i + 1;
      }
    }

    method ExitThread(t: Tid, held: seq<Oid>) returns (report: Report)
      requires t in threads
      modifies this
      ensures Agrees(Snapshot(), report, Kernel.ExitThread(old(Snapshot()), t, held))
    {
      if threads[t].status == Stopped {
        return None;
      }
      report := ReleaseOwned(held, t);
      if report.Some? {
        return;
      }
      report := UnregisterAll(threads[t].waitList, t);
      if report.Some? {
        return;
      }
      var th := Ended(threads[t]);
      threads := threads[t := th];
      ready := RemoveAll(ready, t);
      if th.subject !in subjects {
        return Some(WrongObject);
      }
      report := OnResourceReady(th.subject);
    }
  }

  /** One granted acquisition leaves the rest of the loop to do, on a shorter list. */
  lemma AfterGrant(before: State, mid: State, o: Oid, t: Tid)
    requires o in before.subjects && before.subjects[o].observers != [] && t == before.subjects[o].observers[0]
    requires t in before.threads && before.threads[t].status == Sleeping
    requires TryAcquire(before, o, t) == Got(mid)
    ensures t in mid.threads
    ensures var r := OnResourceAcquired(mid, t, o);
            if r.Ok? then
              && o in r.state.subjects && |r.state.subjects[o].observers| < |before.subjects[o].observers|
              && OnResourceReady(before, o) == OnResourceReady(r.state, o)
            else OnResourceReady(before, o) == r
  {
  }
}
