/** The invariants of the kernel read out, for the end of any run that has not faulted. */
module KernelFacts {
  import opened Options
  import opened Lists
  import opened Kernel
  import opened KernelInvariants
  import opened KernelRuns

  /** The state after the given turns. */
  ghost predicate Reached(st: State, turns: seq<Turn>) {
    Run(Boot(), turns) == Ok(st)
  }

  lemma ReachedInv(st: State, turns: seq<Turn>)
    requires Reached(st, turns)
    ensures Inv(st)
  {
    hide Run, Boot, Inv;
    RunsAreSound(turns);
  }

  /** A thread is among the observers of an object exactly as often as the object is on the thread's
      wait list; it sleeps exactly while it has a wait list; queued threads that exist can run. */
  lemma WaitRelation(st: State, turns: seq<Turn>)
    requires Reached(st, turns)
    ensures forall t, o | t in st.threads && o in st.subjects ::
              Count(st.subjects[o].observers, t) == Count(st.threads[t].waitList, o)
    ensures forall t | t in st.threads :: st.threads[t].status == Sleeping <==> st.threads[t].waitList != []
    ensures forall t | t in st.ready && t in st.threads :: st.threads[t].status == Ready && st.threads[t].waitList == []
  {
    ReachedInv(st, turns);
    hide Reached;
    forall t, o | t in st.threads && o in st.subjects
      ensures Count(st.subjects[o].observers, t) == Count(st.threads[t].waitList, o)
    {
      assert Observes(st, t, o) == Awaits(st, t, o);
    }
    forall t | t in st.threads
      ensures st.threads[t].status == Sleeping <==> st.threads[t].waitList != []
    {
      assert ThreadOk(st.threads[t]);
    }
  }

  /** Whatever a thread sleeps on could not be acquired. */
  lemma SleepersAreBlocked(st: State, turns: seq<Turn>, o: Oid)
    requires Reached(st, turns) && o in st.subjects && st.subjects[o].observers != []
    ensures var r := st.subjects[o].resource;
            && (r.Event? ==> !r.signalled)
            && (r.Semaphore? ==> r.available == 0)
            && (r.Mutex? ==> r.lockCount > 0 && r.owner.Some?)
            && (r.ThreadEnd? ==> r.thread in st.threads && st.threads[r.thread].status != Stopped)
  {
    ReachedInv(st, turns);
    hide Reached;
    assert !st.subjects[o].resource.Timer? ==> Quiet(st, o);
    assert SubjectOk(st.subjects[o]);
  }

  /** Counts stay in bounds, and a mutex is locked as often as it was acquired and not released. */
  lemma ResourcesAddUp(st: State, turns: seq<Turn>, o: Oid)
    requires Reached(st, turns) && o in st.subjects
    ensures var s := st.subjects[o];
            && (s.resource.Semaphore? ==> 0 <= s.resource.available <= s.resource.max
                                          && s.resource.available == s.given - s.taken)
            && (s.resource.Mutex? ==> s.resource.lockCount == s.taken - s.given
                                      && (s.resource.lockCount > 0 ==> s.resource.owner.Some?))
  {
    ReachedInv(st, turns);
    hide Reached;
    assert SubjectOk(st.subjects[o]);
  }

  /** A wait that ended without timeout: a wait for any object acquired exactly one object, that at the
      reported index; a wait for all acquired each object as often as it was listed; either way the
      thread is registered nowhere. */
  lemma FinishedWait(st: State, turns: seq<Turn>, t: Tid)
    requires Reached(st, turns) && t in st.threads && st.threads[t].phase == Completed
    ensures var th := st.threads[t];
            && th.result == RESULT_OK
            && (!th.requestAll && th.request != [] ==>
                  th.wakeIndex < |th.request| && th.acquired == [th.request[th.wakeIndex]])
            && (th.requestAll ==> forall o: Oid :: Count(th.acquired, o) == Count(th.request, o))
    ensures forall o | o in st.subjects :: t !in st.subjects[o].observers
  {
    ReachedInv(st, turns);
    hide Reached;
    assert ThreadOk(st.threads[t]);
    forall o | o in st.subjects
      ensures t !in st.subjects[o].observers
    {
      assert Observes(st, t, o) == Awaits(st, t, o);
    }
  }
}
