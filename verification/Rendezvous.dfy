/**
  The IPC rendezvous of SVCSendSyncRequest and SVCReplyAndReceive on one session
  with any number of client threads and one server thread. The server replies
  once to each request it received; the client end stays open. A step is what
  runs between two thread switches.
 */
module Rendezvous {

  datatype Phase =
    | Idle        // not in a request
    | Spinning    // queued, but the server has not accepted the session yet
    | Waiting     // asleep on the client session
    | Woken       // the wait is over, the system call is about to return

  /** Counters say how often the thread sent a request, had one translated to the server, and had
      a reply translated back. */
  datatype Client = Client(phase: Phase, sent: nat, delivered: nat, replied: nat)

  datatype Server =
    | Free        // running, with no request in service
    | Asleep      // asleep on the server session
    | Called      // acquired the server session, has not looked at the request yet
    | Serving     // running, with the request of the first queued thread

  datatype State = State(
    accepted: bool,              // the server end of the session exists
    threads: seq<nat>,           // ClientSession::threads
    observers: seq<nat>,         // observers of the client session
    pending: nat,                // ServerSession::ipc_commands_pending
    server: Server,
    clients: map<nat, Client>)

  datatype Fault = NoQueuedThread | NotQueued | NotSleeping

  datatype Result<T> = Ok(value: T) | Failed(fault: Fault)

  datatype Event =
    | Accept          // the server accepts the session
    | Send(t: nat)    // SVCSendSyncRequest up to the first switch
    | Retry(t: nat)   // its continuation is scheduled again
    | Resume(t: nat)  // the system call returns
    | Receive         // SVCReplyAndReceive without a reply: wait
    | Reply           // SVCReplyAndReceive with a reply, up to the wait
    | Look            // its continuation after waking up

  // ---------------------------------------------------------------------------
  // Steps
  // ---------------------------------------------------------------------------

  function Set(s: State, t: nat, c: Client): State {
    s.(clients := s.clients[t := c])
  }

  /** OnResourceReady on the client session. */
  function WakeClients(s: State): Result<State>
    decreases |s.observers|
  {
    if s.observers == [] then Ok(s)
    else
      var t := s.observers[0];
      if t !in s.clients || s.clients[t].phase != Waiting then Failed(NotSleeping)
      else if t in s.threads then Ok(s)
      else WakeClients(Set(s, t, s.clients[t].(phase := Woken)).(observers := s.observers[1..]))
  }

  /** CommandReady and OnResourceReady on the server session. */
  function Announce(s: State): State {
    if s.server == Asleep then s.(server := Called) else s.(pending := s.pending + 1)
  }

  /** SVCWaitSynchronization on the client session. */
  function AwaitReply(s: State, t: nat): State
    requires t in s.clients
  {
    if t in s.threads
    then Set(s, t, s.clients[t].(phase := Waiting)).(observers := s.observers + [t])
    else Set(s, t, s.clients[t].(phase := Woken))
  }

  /** The continuation of SVCSendSyncRequest. */
  function Continue(s: State, t: nat): State
    requires t in s.clients
  {
    if !s.accepted then Set(s, t, s.clients[t].(phase := Spinning)) else AwaitReply(Announce(s), t)
  }

  function Find(q: seq<nat>, t: nat): (i: nat)
    ensures i <= |q| && (i < |q| ==> q[i] == t) && (i == |q| <==> t !in q)
  {
    if q == [] || q[0] == t then 0 else 1 + Find(q[1..], t)
  }

  /** ClientSession::SetReady. */
  function SetReady(s: State, t: nat): Result<State> {
    var i := Find(s.threads, t);
    if i == |s.threads| then Failed(NotQueued) else Ok(s.(threads := s.threads[..i] + s.threads[i + 1..]))
  }

  /** The reply goes to the thread at the front of the queue. */
  function SendReply(s: State): Result<State> {
    if s.threads == [] || s.threads[0] !in s.clients then Failed(NoQueuedThread)
    else
      var t := s.threads[0];
      var r := SetReady(Set(s, t, s.clients[t].(replied := s.clients[t].replied + 1)), t);
      if r.Failed? then r else WakeClients(r.value.(server := Free))
  }

  /** SVCWaitSynchronizationN on the server session. */
  function AwaitRequest(s: State): State {
    if s.pending > 0 then s.(pending := s.pending - 1, server := Called) else s.(server := Asleep)
  }

  /** The request of the thread at the front of the queue is translated to the server. */
  function TakeRequest(s: State): Result<State> {
    if s.threads == [] || s.threads[0] !in s.clients then Failed(NoQueuedThread)
    else
      var t := s.threads[0];
      Ok(Set(s, t, s.clients[t].(delivered := s.clients[t].delivered + 1)).(server := Serving))
  }

  /** Which steps the threads' own positions allow. */
  predicate Enabled(s: State, e: Event) {
    match e
    case Accept => !s.accepted
    case Send(t) => t in s.clients && s.clients[t].phase == Idle
    case Retry(t) => t in s.clients && s.clients[t].phase == Spinning
    case Resume(t) => t in s.clients && s.clients[t].phase == Woken
    case Receive => s.accepted && s.server == Free
    case Reply => s.accepted && s.server == Serving
    case Look => s.server == Called
  }

  function Step(s: State, e: Event): Result<State>
    requires Enabled(s, e)
  {
    match e
    case Accept => Ok(s.(accepted := true))
    case Send(t) =>
      Ok(Continue(Set(s, t, s.clients[t].(sent := s.clients[t].sent + 1)).(threads := s.threads + [t]), t))
    case Retry(t) => Ok(Continue(s, t))
    case Resume(t) => Ok(Set(s, t, s.clients[t].(phase := Idle)))
    case Receive => Ok(AwaitRequest(s))
    case Reply => SendReply(s)
    case Look => TakeRequest(s)
  }

  /** A run: steps that are not possible at their point are left out. */
  function Run(s: State, es: seq<Event>): Result<State>
    decreases |es|
  {
    if es == [] then Ok(s)
    else if !Enabled(s, es[0]) then Run(s, es[1..])
    else
      var r := Step(s, es[0]);
      if r.Failed? then r else Run(r.value, es[1..])
  }

  function Start(ts: set<nat>): State {
    State(false, [], [], 0, Free, map t | t in ts :: Client(Idle, 0, 0, 0))
  }

  // ---------------------------------------------------------------------------
  // The invariant
  // ---------------------------------------------------------------------------

  ghost predicate Distinct(q: seq<nat>) {
    forall i, j | 0 <= i < j < |q| :: q[i] != q[j]
  }

  function Spinners(s: State): set<nat> {
    set t | t in s.clients && s.clients[t].phase == Spinning
  }

  function InService(s: State): nat {
    if s.server == Called || s.server == Serving then 1 else 0
  }

  /** Where one client stands. */
  ghost predicate ClientOk(s: State, t: nat)
    requires t in s.clients
  {
    var c := s.clients[t];
    && (t in s.threads ==> (c.phase == Spinning || c.phase == Waiting) && c.sent == c.replied + 1
                           && (c.delivered == c.sent <==> s.server == Serving && t == s.threads[0])
                           && (c.delivered != c.sent ==> c.delivered == c.replied))
    && (t !in s.threads ==> c.sent == c.delivered == c.replied)
    && (t in s.observers <==> c.phase == Waiting)
  }

  /** No client sleeps behind observers that could all be woken. */
  ghost predicate Prompt(s: State) {
    s.observers != [] ==> s.observers[0] in s.threads
  }

  ghost predicate Books(s: State) {
    && Distinct(s.threads) && Distinct(s.observers)
    && (forall t | t in s.threads || t in s.observers :: t in s.clients)
    && (forall t | t in s.clients :: ClientOk(s, t))
    && |s.threads| == |Spinners(s)| + s.pending + InService(s)
    && (s.server == Asleep ==> s.pending == 0)
    && (!s.accepted ==> s.pending == 0 && s.server == Free)
  }

  ghost predicate Inv(s: State) {
    Books(s) && Prompt(s)
  }

  lemma StartInv(ts: set<nat>)
    ensures Inv(Start(ts))
  {
    assert Spinners(Start(ts)) == {};
  }

  lemma AppendDistinct(q: seq<nat>, t: nat)
    requires Distinct(q) && t !in q
    ensures Distinct(q + [t])
  {
  }

  lemma FrontGone(q: seq<nat>)
    requires Distinct(q) && q != []
    ensures Find(q, q[0]) == 0 && q[0] !in q[1..] && Distinct(q[1..])
  {
  }

  // ---------------------------------------------------------------------------
  // Every step keeps it
  // ---------------------------------------------------------------------------

  /** A client to which nothing happened. */
  lemma Untouched(s: State, s': State, u: nat)
    requires u in s.clients && u in s'.clients && s'.clients[u] == s.clients[u] && ClientOk(s, u)
    requires u in s'.threads <==> u in s.threads
    requires u in s'.observers <==> u in s.observers
    requires u in s.threads ==> (s'.server == Serving && u == s'.threads[0] <==> s.server == Serving && u == s.threads[0])
    ensures ClientOk(s', u)
  {
  }

  /** Thread t is in the middle of sending: as if it was spinning. */
  ghost predicate Sending(s: State, t: nat) {
    && t in s.clients && (s.clients[t].phase == Idle || s.clients[t].phase == Spinning) && t !in s.observers
    && Inv(Set(s, t, s.clients[t].(phase := Spinning)))
  }

  lemma SpinnersAfter(s: State, t: nat, c: Client)
    requires t in s.clients
    ensures Spinners(Set(s, t, c)) == if c.phase == Spinning then Spinners(s) + {t} else Spinners(s) - {t}
  {
  }

  lemma SpinnerIs(s: State, t: nat)
    requires t in s.clients
    ensures t in Spinners(s) <==> s.clients[t].phase == Spinning
  {
  }

  lemma SpinnersSame(s: State, s': State)
    requires s'.clients == s.clients
    ensures Spinners(s') == Spinners(s)
  {
  }

  lemma ContinueKeeps(s: State, t: nat)
    requires Sending(s, t)
    ensures Inv(Continue(s, t))
  {
    if s.accepted {
      AnnouncedKeeps(s, t);
    }
  }

  lemma AnnouncedKeeps(s: State, t: nat)
    requires Sending(s, t) && s.accepted
    ensures Inv(AwaitReply(Announce(s), t))
  {
    hide Spinners, Distinct;
    var s0 := Set(s, t, s.clients[t].(phase := Spinning));
    var phase := if t in s.threads then Waiting else Woken;
    var c := s.clients[t].(phase := phase);
    var s' := AwaitReply(Announce(s), t);
    assert s'.clients == s0.clients[t := c];
    SpinnersAfter(s0, t, c);
    SpinnersSame(Set(s0, t, c), s');
    SpinnerIs(s0, t);
    assert ClientOk(s0, t);
    if t in s.threads {
      AppendDistinct(s.observers, t);
    }
    assert Books(s') by {
      forall u | u in s'.clients
        ensures ClientOk(s', u)
      {
        if u != t {
          Untouched(s0, s', u);
        }
      }
      hide ClientOk;
    }
  }

  /** Thread t with a new request in the queue. */
  function Queued(s: State, t: nat): State
    requires t in s.clients
  {
    Set(s, t, s.clients[t].(sent := s.clients[t].sent + 1)).(threads := s.threads + [t])
  }

  lemma QueuedKeeps(s: State, t: nat)
    requires Inv(s) && t in s.clients && s.clients[t].phase == Idle
    ensures Sending(Queued(s, t), t)
  {
    hide Spinners, Distinct;
    assert ClientOk(s, t);
    var c := s.clients[t].(sent := s.clients[t].sent + 1, phase := Spinning);
    var s1 := Queued(s, t);
    var s2 := Set(s1, t, c);
    AppendDistinct(s.threads, t);
    SpinnerIs(s, t);
    SpinnersAfter(s, t, c);
    assert s2.clients == Set(s, t, c).clients;
    SpinnersSame(Set(s, t, c), s2);
    assert Books(s2) by {
      forall u | u in s2.clients
        ensures ClientOk(s2, u)
      {
        if u != t {
          Untouched(s, s2, u);
        }
      }
      hide ClientOk;
    }
  }

  lemma SendKeeps(s: State, t: nat)
    requires Inv(s) && t in s.clients && s.clients[t].phase == Idle
    ensures Inv(Step(s, Send(t)).value)
  {
    hide Inv, Continue, Sending;
    QueuedKeeps(s, t);
    ContinueKeeps(Queued(s, t), t);
  }

  lemma RetryKeeps(s: State, t: nat)
    requires Inv(s) && t in s.clients && s.clients[t].phase == Spinning
    ensures Inv(Step(s, Retry(t)).value)
  {
    assert ClientOk(s, t);
    assert Set(s, t, s.clients[t].(phase := Spinning)) == s;
    ContinueKeeps(s, t);
  }

  lemma ResumeKeeps(s: State, t: nat)
    requires Inv(s) && t in s.clients && s.clients[t].phase == Woken
    ensures Inv(Step(s, Resume(t)).value)
  {
    hide Spinners, Distinct;
    assert ClientOk(s, t);
    var c := s.clients[t].(phase := Idle);
    var s' := Set(s, t, c);
    SpinnersAfter(s, t, c);
    SpinnerIs(s, t);
    forall u | u in s'.clients
      ensures ClientOk(s', u)
    {
      if u != t {
        Untouched(s, s', u);
      }
    }
  }

  lemma ReceiveKeeps(s: State)
    requires Inv(s) && s.accepted && s.server == Free
    ensures Inv(AwaitRequest(s))
  {
    var s' := AwaitRequest(s);
    SpinnersSame(s, s');
    hide Spinners;
    forall u | u in s'.clients
      ensures ClientOk(s', u)
    {
      Untouched(s, s', u);
    }
  }

  /** The server was called, so there is a thread in the queue. */
  lemma LookKeeps(s: State)
    requires Inv(s) && s.server == Called
    ensures TakeRequest(s).Ok? && Inv(TakeRequest(s).value)
  {
    hide Spinners, Distinct;
    var t := s.threads[0];
    assert ClientOk(s, t);
    var c := s.clients[t].(delivered := s.clients[t].delivered + 1);
    var s' := TakeRequest(s).value;
    SpinnersAfter(s, t, c);
    SpinnersSame(Set(s, t, c), s');
    SpinnerIs(s, t);
    assert Spinners(s') == Spinners(s);
    assert Books(s') by {
      forall u | u in s'.clients
        ensures ClientOk(s', u)
      {
        if u != t {
          Untouched(s, s', u);
        }
      }
      hide ClientOk;
    }
  }

  /** The loop wakes the observers up to the first one that still waits for its reply. */
  lemma {:induction false} WakeKeeps(s: State)
    requires Books(s)
    ensures WakeClients(s).Ok? && Inv(WakeClients(s).value)
    ensures Prompt(s) ==> WakeClients(s).value == s
    decreases |s.observers|
  {
    if s.observers != [] {
      var t := s.observers[0];
      assert t in s.observers && ClientOk(s, t);
      if t !in s.threads {
        var c := s.clients[t].(phase := Woken);
        var s' := Set(s, t, c).(observers := s.observers[1..]);
        SpinnersAfter(s, t, c);
        SpinnersSame(Set(s, t, c), s');
        assert t !in Spinners(s);
        FrontGone(s.observers);
        assert Books(s') by {
          hide Spinners;
          forall u | u in s'.clients
            ensures ClientOk(s', u)
          {
            if u != t {
              Untouched(s, s', u);
            }
          }
        }
        WakeKeeps(s');
      }
    }
  }

  /** The state in which the loop starts after a reply. */
  function Replied(s: State): State
    requires s.threads != [] && s.threads[0] in s.clients
  {
    var t := s.threads[0];
    Set(s, t, s.clients[t].(replied := s.clients[t].replied + 1)).(threads := s.threads[1..], server := Free)
  }

  lemma RepliedKeeps(s: State)
    requires Books(s) && s.server == Serving
    ensures s.threads != [] && s.threads[0] in s.clients && Books(Replied(s))
  {
    hide Spinners, Distinct;
    var t := s.threads[0];
    assert ClientOk(s, t);
    FrontGone(s.threads);
    var c := s.clients[t].(replied := s.clients[t].replied + 1);
    var s' := Replied(s);
    SpinnersAfter(s, t, c);
    SpinnersSame(Set(s, t, c), s');
    SpinnerIs(s, t);
    assert Spinners(s') == Spinners(s);
    assert Books(s') by {
      forall u | u in s'.clients
        ensures ClientOk(s', u)
      {
        if u != t {
          OtherReplied(s, u);
        }
      }
      hide ClientOk;
      assert forall u | u in s'.threads :: u in s.threads;
    }
  }

  lemma OtherReplied(s: State, u: nat)
    requires s.threads != [] && s.threads[0] in s.clients && Distinct(s.threads) && s.server == Serving
    requires u in s.clients && u != s.threads[0] && ClientOk(s, u)
    ensures ClientOk(Replied(s), u)
  {
    assert u in s.threads <==> u in s.threads[1..];
  }

  lemma SendReplyIs(s: State)
    requires s.threads != [] && s.threads[0] in s.clients && Distinct(s.threads)
    ensures SendReply(s) == WakeClients(Replied(s))
  {
    hide WakeClients;
    FrontGone(s.threads);
    assert s.threads[..0] + s.threads[1..] == s.threads[1..];
  }

  lemma ReplyKeeps(s: State)
    requires Inv(s) && s.server == Serving
    ensures SendReply(s).Ok? && Inv(SendReply(s).value)
  {
    RepliedKeeps(s);
    SendReplyIs(s);
    WakeKeeps(Replied(s));
  }

  lemma StepKeeps(s: State, e: Event)
    requires Inv(s) && Enabled(s, e)
    ensures Step(s, e).Ok? && Inv(Step(s, e).value)
  {
    hide Inv, Continue, SendReply, AwaitRequest, TakeRequest;
    match e {
      case Accept => AcceptKeeps(s);
      case Send(t) => SendKeeps(s, t);
      case Retry(t) => RetryKeeps(s, t);
      case Resume(t) => ResumeKeeps(s, t);
      case Receive => ReceiveKeeps(s);
      case Reply => ReplyKeeps(s);
      case Look => LookKeeps(s);
    }
  }

  lemma AcceptKeeps(s: State)
    requires Inv(s)
    ensures Inv(s.(accepted := true))
  {
    var s' := s.(accepted := true);
    SpinnersSame(s, s');
    hide Spinners;
    forall u | u in s'.clients
      ensures ClientOk(s', u)
    {
      Untouched(s, s', u);
    }
  }

  lemma {:induction false} RunKeeps(s: State, es: seq<Event>)
    requires Inv(s)
    ensures Run(s, es).Ok? && Inv(Run(s, es).value)
    decreases |es|
  {
    hide Inv, Step;
    if es != [] {
      if Enabled(s, es[0]) {
        StepKeeps(s, es[0]);
        RunKeeps(Step(s, es[0]).value, es[1..]);
      } else {
        RunKeeps(s, es[1..]);
      }
    }
  }

  // ---------------------------------------------------------------------------
  // What holds in every interleaving
  // ---------------------------------------------------------------------------

  /** In every run the queue has as many threads as there are requests not announced, pending or in
      service, so that no check for a queued thread fails; a thread whose call is about to return
      or has returned had each of its requests delivered and answered; and when the queue is empty
      no client sleeps. */
  lemma RendezvousSound(ts: set<nat>, es: seq<Event>)
    ensures var r := Run(Start(ts), es);
            && r.Ok?
            && |r.value.threads| == |Spinners(r.value)| + r.value.pending + InService(r.value)
            && (forall t | t in r.value.clients && (r.value.clients[t].phase == Woken || r.value.clients[t].phase == Idle) ::
                  r.value.clients[t].sent == r.value.clients[t].delivered == r.value.clients[t].replied)
            && (r.value.threads == [] ==>
                  r.value.pending == 0
                  && forall t | t in r.value.clients :: r.value.clients[t].phase == Woken || r.value.clients[t].phase == Idle)
  {
    StartInv(ts);
    RunKeeps(Start(ts), es);
    var s := Run(Start(ts), es).value;
    hide Run;
    forall t | t in s.clients
      ensures ClientOk(s, t)
      ensures s.threads == [] ==> s.clients[t].phase != Spinning
    {
      if s.clients[t].phase == Spinning {
        assert t in Spinners(s);
      }
    }
  }

  /** A reply is given to the thread whose request is in service. */
  lemma ReplyMatchesRequest(ts: set<nat>, es: seq<Event>)
    requires Run(Start(ts), es).Ok? && Run(Start(ts), es).value.server == Serving
    ensures var s := Run(Start(ts), es).value;
            && s.threads != [] && s.threads[0] in s.clients
            && s.clients[s.threads[0]].delivered == s.clients[s.threads[0]].sent == s.clients[s.threads[0]].replied + 1
            && (forall t | t in s.threads && t != s.threads[0] :: t in s.clients && s.clients[t].delivered == s.clients[t].replied)
  {
    StartInv(ts);
    RunKeeps(Start(ts), es);
    var s := Run(Start(ts), es).value;
    hide Run;
    assert ClientOk(s, s.threads[0]);
    forall t | t in s.threads
      ensures t in s.clients && ClientOk(s, t)
    {
    }
  }

  // ---------------------------------------------------------------------------
  // What each step does
  // ---------------------------------------------------------------------------

  /** Waiting for a request never leaves the server running with nothing to do: it sleeps exactly if every
      queued request is still unannounced, and is called otherwise. */
  lemma ReceiveExact(s: State)
    requires Inv(s) && Enabled(s, Receive)
    ensures Step(s, Receive).Ok?
    ensures var s' := Step(s, Receive).value;
            && s'.server == (if |s.threads| == |Spinners(s)| then Asleep else Called)
            && s'.pending == (if s'.server == Asleep then 0 else s.pending - 1)
            && s' == s.(server := s'.server, pending := s'.pending)
  {
    hide Spinners, ClientOk, Distinct;
  }

  /** A request to an accepted session calls the server if that sleeps, and is left pending otherwise. The
      client then sleeps as the last observer, unless it was answered while it was spinning. Before the
      session is accepted it spins. */
  lemma RequestExact(s: State, e: Event)
    requires Inv(s) && (e.Send? || e.Retry?) && Enabled(s, e)
    ensures Step(s, e).Ok?
    ensures var s' := Step(s, e).value;
            var answered := e.Retry? && e.t !in s.threads;
            var phase := if !s.accepted then Spinning else if answered then Woken else Waiting;
            && s'.accepted == s.accepted
            && s'.threads == (if e.Send? then s.threads + [e.t] else s.threads)
            && s'.server == (if s.accepted && s.server == Asleep then Called else s.server)
            && s'.pending == (if s.accepted && s.server != Asleep then s.pending + 1 else s.pending)
            && s'.observers == (if phase == Waiting then s.observers + [e.t] else s.observers)
            && s'.clients == s.clients[e.t := s.clients[e.t].(phase := phase, sent := s.clients[e.t].sent + (if e.Send? then 1 else 0))]
  {
    hide Inv;
    assert e.t in s.threads + [e.t];
  }

  /** A server that was called takes the request of the first queued thread, and of no other. */
  lemma LookExact(s: State)
    requires Inv(s) && Enabled(s, Look)
    ensures s.threads != [] && s.threads[0] in s.clients && Step(s, Look).Ok?
    ensures var t := s.threads[0];
            Step(s, Look).value
            == s.(server := Serving, clients := s.clients[t := s.clients[t].(delivered := s.clients[t].delivered + 1)])
  {
    hide Inv;
    LookKeeps(s);
  }

  /** A reply answers the first queued thread and takes it out of the queue; the server is free again, and
      clients change at most from sleeping to woken. */
  lemma ReplyExact(s: State)
    requires Inv(s) && Enabled(s, Reply)
    ensures s.threads != [] && s.threads[0] in s.clients && Step(s, Reply).Ok?
    ensures var s' := Step(s, Reply).value;
            && s'.threads == s.threads[1..] && s'.server == Free && s'.pending == s.pending && s'.accepted == s.accepted
            && s'.clients.Keys == s.clients.Keys
            && forall t | t in s.clients ::
                 && (s'.clients[t].phase == s.clients[t].phase || (s.clients[t].phase == Waiting && s'.clients[t].phase == Woken))
                 && s'.clients[t] == s.clients[t].(phase := s'.clients[t].phase,
                                                   replied := s.clients[t].replied + (if t == s.threads[0] then 1 else 0))
  {
    RepliedKeeps(s);
    SendReplyIs(s);
    WakeKeeps(Replied(s));
    WakeFrame(Replied(s));
  }

  lemma {:induction false} WakeFrame(s: State)
    requires WakeClients(s).Ok?
    ensures var s' := WakeClients(s).value;
            && s'.clients.Keys == s.clients.Keys && s' == s.(observers := s'.observers, clients := s'.clients)
            && forall t | t in s.clients ::
                 && s'.clients[t] == s.clients[t].(phase := s'.clients[t].phase)
                 && (s'.clients[t].phase == s.clients[t].phase || (s.clients[t].phase == Waiting && s'.clients[t].phase == Woken))
    decreases |s.observers|
  {
    if s.observers != [] && s.observers[0] !in s.threads {
      WakeFrame(Set(s, s.observers[0], s.clients[s.observers[0]].(phase := Woken)).(observers := s.observers[1..]));
    }
  }

  /** Returning from the system call makes the client idle, and changes nothing else. */
  lemma ResumeExact(s: State, t: nat)
    requires Enabled(s, Resume(t))
    ensures Step(s, Resume(t)) == Ok(s.(clients := s.clients[t := s.clients[t].(phase := Idle)]))
  {
  }

  // ---------------------------------------------------------------------------
  // Every call can return
  // ---------------------------------------------------------------------------

  function Wakened(s: State): set<nat> {
    set t | t in s.clients && s.clients[t].phase == Woken
  }

  /** How far the server is from answering the first queued thread. */
  function Distance(s: State): nat {
    match s.server
    case Serving => 0
    case Called => 1
    case _ => 2
  }

  lemma AllIdle(s: State)
    requires Inv(s) && Spinners(s) == {} && s.threads == [] && Wakened(s) == {}
    ensures forall t | t in s.clients :: s.clients[t].phase == Idle && s.clients[t].sent == s.clients[t].replied
  {
    forall t | t in s.clients
      ensures s.clients[t].phase == Idle && s.clients[t].sent == s.clients[t].replied
    {
      assert ClientOk(s, t) && t !in Spinners(s) && t !in Wakened(s);
      assert s.observers == [];
    }
  }

  /** One more step, then the rest. */
  lemma OneMore(s: State, e: Event, es: seq<Event>)
    requires Enabled(s, e) && Step(s, e).Ok?
    ensures Run(s, [e] + es) == Run(Step(s, e).value, es)
  {
    hide Step;
    assert ([e] + es)[1..] == es;
  }

  /** The next step towards the end of all calls, and what it brings closer. */
  lemma NextStep(s: State) returns (e: Event)
    requires Inv(s) && !(s.accepted && Spinners(s) == {} && s.threads == [] && Wakened(s) == {})
    ensures Enabled(s, e) && Step(s, e).Ok? && Inv(Step(s, e).value)
    ensures var s' := Step(s, e).value;
            && s'.clients.Keys == s.clients.Keys && (s.accepted ==> s'.accepted)
            && (|| (!s.accepted && s'.accepted)
                || (s.accepted && |Spinners(s')| < |Spinners(s)|)
                || (s.accepted && Spinners(s') == Spinners(s)
                    && 3 * |s'.threads| + Distance(s') < 3 * |s.threads| + Distance(s))
                || (s.accepted && Spinners(s') == Spinners(s) && s'.threads == s.threads && s'.server == s.server
                    && |Wakened(s')| < |Wakened(s)|))
  {
    if !s.accepted {
      e := Accept;
      StepKeeps(s, e);
    } else if Spinners(s) != {} {
      var t :| t in Spinners(s);
      e := Retry(t);
      StepKeeps(s, e);
      RequestExact(s, e);
      var s' := Step(s, e).value;
      hide Step, Inv;
      assert Spinners(s') == Spinners(s) - {t};
    } else if s.threads != [] {
      e := ServerStep(s);
    } else {
      var t :| t in Wakened(s);
      e := Resume(t);
      StepKeeps(s, e);
      ResumeExact(s, t);
      var s' := Step(s, e).value;
      hide Step, Inv;
      assert Wakened(s') == Wakened(s) - {t};
      assert Spinners(s') == Spinners(s);
    }
  }

  lemma ServerStep(s: State) returns (e: Event)
    requires Inv(s) && s.accepted && Spinners(s) == {} && s.threads != []
    ensures Enabled(s, e) && Step(s, e).Ok? && Inv(Step(s, e).value)
    ensures var s' := Step(s, e).value;
            && s'.accepted && s'.clients.Keys == s.clients.Keys && Spinners(s') == Spinners(s)
            && 3 * |s'.threads| + Distance(s') < 3 * |s.threads| + Distance(s)
  {
    e := if s.server == Serving then Reply else if s.server == Called then Look else Receive;
    assert s.server != Asleep;
    StepKeeps(s, e);
    match s.server {
      case Serving => ReplyExact(s);
      case Called => LookExact(s);
      case Free => ReceiveExact(s);
    }
    hide Step, Inv;
    SpinnersKept(s, Step(s, e).value);
  }

  lemma SpinnersKept(s: State, s': State)
    requires s'.clients.Keys == s.clients.Keys
    requires forall t | t in s.clients :: s'.clients[t].phase == Spinning <==> s.clients[t].phase == Spinning
    ensures Spinners(s') == Spinners(s)
  {
  }

  lemma {:induction false} Finish(s: State) returns (es: seq<Event>)
    requires Inv(s)
    ensures var r := Run(s, es);
            && r.Ok? && Inv(r.value) && r.value.clients.Keys == s.clients.Keys && r.value.threads == []
            && forall t | t in r.value.clients :: r.value.clients[t].phase == Idle && r.value.clients[t].sent == r.value.clients[t].replied
    decreases !s.accepted, |Spinners(s)|, 3 * |s.threads| + Distance(s), |Wakened(s)|
  {
    hide Inv, Step;
    if s.accepted && Spinners(s) == {} && s.threads == [] && Wakened(s) == {} {
      AllIdle(s);
      es := [];
    } else {
      var e := NextStep(s);
      var rest := Finish(Step(s, e).value);
      OneMore(s, e, rest);
      es := [e] + rest;
    }
  }

  lemma {:induction false} RunAppend(s: State, es: seq<Event>, fs: seq<Event>)
    requires Run(s, es).Ok?
    ensures Run(s, es + fs) == Run(Run(s, es).value, fs)
    decreases |es|
  {
    hide Step;
    if es == [] {
      assert es + fs == fs;
    } else {
      assert (es + fs)[1..] == es[1..] + fs;
      RunAppend(if Enabled(s, es[0]) then Step(s, es[0]).value else s, es[1..], fs);
    }
  }

  /** No deadlock: whatever happened so far, the run can go on so that every system call returns, every
      client is idle, and every request was answered. */
  lemma EveryCallCanReturn(ts: set<nat>, es: seq<Event>)
    ensures exists fs ::
              var r := Run(Start(ts), es + fs);
              r.Ok? && r.value.threads == []
              && forall t | t in ts ::
                   t in r.value.clients && r.value.clients[t].phase == Idle && r.value.clients[t].sent == r.value.clients[t].replied
  {
    StartInv(ts);
    RunKeeps(Start(ts), es);
    RunClients(Start(ts), es);
    var s := Run(Start(ts), es).value;
    hide Run, Inv;
    var fs := Finish(s);
    RunAppend(Start(ts), es, fs);
    var r := Run(Start(ts), es + fs);
    assert r.Ok? && r.value.threads == [];
  }

  lemma {:induction false} RunClients(s: State, es: seq<Event>)
    requires Inv(s)
    ensures Run(s, es).Ok? && Run(s, es).value.clients.Keys == s.clients.Keys
    decreases |es|
  {
    hide Inv, Step;
    if es != [] {
      if Enabled(s, es[0]) {
        StepKeeps(s, es[0]);
        StepClients(s, es[0]);
        RunClients(Step(s, es[0]).value, es[1..]);
      } else {
        RunClients(s, es[1..]);
      }
    }
  }

  lemma StepClients(s: State, e: Event)
    requires Inv(s) && Enabled(s, e)
    ensures Step(s, e).Ok? && Step(s, e).value.clients.Keys == s.clients.Keys
  {
    match e {
      case Accept =>
      case Send(t) => RequestExact(s, e);
      case Retry(t) => RequestExact(s, e);
      case Resume(t) => ResumeExact(s, t);
      case Receive => ReceiveExact(s);
      case Reply => ReplyExact(s);
      case Look => LookExact(s);
    }
  }

  /** A reply wakes its client at once exactly if that is the first observer of the session. */
  lemma WakesAtOnce(s: State)
    requires Inv(s) && s.server == Serving
    ensures s.threads != [] && SendReply(s).Ok?
    ensures var t := s.threads[0];
            var s' := SendReply(s).value;
            t in s'.clients && (s'.clients[t].phase == Woken <==> s.observers != [] && s.observers[0] == t)
  {
    RepliedKeeps(s);
    SendReplyIs(s);
    var t := s.threads[0];
    var s1 := Replied(s);
    assert ClientOk(s, t);
    WakeKeeps(s1);
    if s.observers != [] && s.observers[0] == t {
      FrontGone(s.threads);
      FrontGone(s.observers);
      var s2 := Set(s1, t, s1.clients[t].(phase := Woken)).(observers := s.observers[1..]);
      assert WakeClients(s1) == WakeClients(s2);
      WokenStays(s2, t);
    } else {
      assert Prompt(s1);
    }
  }

  lemma {:induction false} WokenStays(s: State, t: nat)
    requires t in s.clients && s.clients[t].phase == Woken && WakeClients(s).Ok?
    ensures t in WakeClients(s).value.clients && WakeClients(s).value.clients[t].phase == Woken
    decreases |s.observers|
  {
    if s.observers != [] && s.observers[0] !in s.threads {
      WokenStays(Set(s, s.observers[0], s.clients[s.observers[0]].(phase := Woken)).(observers := s.observers[1..]), t);
    }
  }

  /** Thread 1 queued before the session was accepted; thread 2 queued later but sleeps first. */
  function Overtaken(): State {
    State(true, [1, 2], [2, 1], 2, Free, map[1 := Client(Waiting, 1, 0, 0), 2 := Client(Waiting, 1, 0, 0)])
  }

  lemma OvertakenReached()
    ensures Run(Start({1, 2}), [Send(1), Accept, Send(2), Retry(1)]) == Ok(Overtaken())
  {
    var c0, c1 := Client(Idle, 0, 0, 0), Client(Spinning, 1, 0, 0);
    var w := Client(Waiting, 1, 0, 0);
    var s0 := State(false, [], [], 0, Free, map[1 := c0, 2 := c0]);
    var s1 := State(false, [1], [], 0, Free, map[1 := c1, 2 := c0]);
    var s2 := s1.(accepted := true);
    var s3 := State(true, [1, 2], [2], 1, Free, map[1 := c1, 2 := w]);
    assert Start({1, 2}) == s0;
    assert Step(s0, Send(1)) == Ok(s1) by {
      assert Queued(s0, 1) == State(false, [1], [], 0, Free, map[1 := c0.(sent := 1), 2 := c0]);
      assert map[1 := c0.(sent := 1), 2 := c0][1 := c1] == s1.clients;
    }
    assert Step(s2, Send(2)) == Ok(s3) by {
      assert Queued(s2, 2) == State(true, [1, 2], [], 0, Free, map[1 := c1, 2 := c0.(sent := 1)]);
      assert map[1 := c1, 2 := c0.(sent := 1)][2 := w] == s3.clients;
      assert [] + [2] == [2];
    }
    assert Step(s3, Retry(1)) == Ok(Overtaken()) by {
      assert s3.clients[1 := w] == Overtaken().clients;
      assert [2] + [1] == [2, 1];
    }
    assert Step(s1, Accept) == Ok(s2);
    hide Step, Start;
    var es := [Send(1), Accept, Send(2), Retry(1)];
    assert es[3..][1..] == [] && Run(s3, es[3..]) == Ok(Overtaken());
    assert es[2..][1..] == es[3..] && Run(s2, es[2..]) == Ok(Overtaken());
    assert es[1..][1..] == es[2..] && Run(s1, es[1..]) == Ok(Overtaken());
  }

  /** A thread that was overtaken on its way to sleep stays asleep when it has its reply. */
  lemma ReplyWithoutWakeUp()
    ensures var r := Run(Overtaken(), [Receive, Look, Reply]);
            r.Ok? && 1 in r.value.clients && r.value.clients[1] == Client(Waiting, 1, 1, 1)
  {
    var w := Client(Waiting, 1, 0, 0);
    var s5 := Overtaken().(pending := 1, server := Called);
    var s6 := State(true, [1, 2], [2, 1], 1, Serving, map[1 := Client(Waiting, 1, 1, 0), 2 := w]);
    var s7 := State(true, [2], [2, 1], 1, Free, map[1 := Client(Waiting, 1, 1, 1), 2 := w]);
    assert Step(s5, Look) == Ok(s6) by {
      assert s5.clients[1 := w.(delivered := 1)] == s6.clients;
    }
    assert Step(s6, Reply) == Ok(s7) by {
      assert s6.clients[1 := Client(Waiting, 1, 1, 1)] == s7.clients;
      assert [1, 2][..0] + [1, 2][1..] == [2];
    }
    assert Step(Overtaken(), Receive) == Ok(s5);
    hide Step;
    var es := [Receive, Look, Reply];
    assert es[2..][1..] == [] && Run(s6, es[2..]) == Ok(s7);
    assert es[1..][1..] == es[2..] && Run(s5, es[1..]) == Ok(s7);
  }

  /** OnResourceReady on the client session, as the kernel's loop runs it. */
  method NotifyClients(s: State) returns (r: Result<State>)
    ensures r == WakeClients(s)
  {
    var cur := s;
    while cur.observers != []
      invariant WakeClients(cur) == WakeClients(s)
      decreases |cur.observers|
    {
      var t := cur.observers[0];
      if t !in cur.clients || cur.clients[t].phase != Waiting {
        return Failed(NotSleeping);
      }
      if t in cur.threads {
        break;
      }
      cur := Set(cur, t, cur.clients[t].(phase := Woken)).(observers := cur.observers[1..]);
    }
    r := Ok(cur);
  }
}
