/**
  One stream of EmuDisplay: a renderer thread fills frames, a display thread
  shows them, and two frames go round between them. Every operation on a queue
  is one step, and the steps of the two threads interleave freely.
 */
module DisplayFrames {
  import opened Lists

  const FRAMES_IN_FLIGHT: nat := 2

  type Frame = nat

  /** What the display thread is doing: nothing, moving incoming frames, or looking at ready frame i. */
  datatype Display = Resting | Taking(target: nat) | Scanning(target: nat, i: nat)

  datatype State = State(
    retired: seq<Frame>,            // to be filled by the renderer
    incoming: seq<Frame>,           // filled, not seen by the display yet
    ready: seq<Frame>,              // to be shown
    held: seq<Frame>,               // in the renderer's hands
    stamp: map<Frame, nat>,         // Frame::timestamp
    last: int,                      // timestamp of the newest pushed frame
    display: Display)

  datatype Event =
    | Prepare                       // PrepareImage finds a retired frame
    | Push(frame: Frame, time: nat) // PushImage
    | Seek(target: nat)             // SeekTo begins
    | Proceed                       // the next step of SeekTo

  datatype Result = Ok(state: State) | QueueFull

  function Stamp(stamp: map<Frame, nat>, f: Frame): nat {
    if f in stamp then stamp[f] else 0
  }

  /** A queue drops what does not fit. */
  function Enqueue(q: seq<Frame>, f: Frame): seq<Frame> {
    if |q| < FRAMES_IN_FLIGHT then q + [f] else q
  }

  /** Frame i of the ready frames is outdated, and not the only one. */
  predicate Outdated(stamp: map<Frame, nat>, ready: seq<Frame>, i: nat, target: nat)
    requires i < |ready|
  {
    Stamp(stamp, ready[i]) < target && |ready| > 1
  }

  /** Frame i goes from the ready to the retired frames. */
  function Discard(ready: seq<Frame>, retired: seq<Frame>, i: nat): (seq<Frame>, seq<Frame>)
    requires i < |ready|
  {
    (RemoveAt(ready, i), Enqueue(retired, ready[i]))
  }

  function ProceedFrom(s: State): State {
    match s.display
    case Resting => s
    case Taking(target) =>
      if s.incoming != [] then s.(ready := s.ready + [s.incoming[0]], incoming := s.incoming[1..])
      else s.(display := Scanning(target, 0))
    case Scanning(target, i) =>
      if i >= |s.ready| then s.(display := Resting)
      else if Outdated(s.stamp, s.ready, i, target)
      then var (ready, retired) := Discard(s.ready, s.retired, i);
           s.(ready := ready, retired := retired)
      else s.(display := Scanning(target, i + 1))
  }

  /** Which steps the positions of the threads allow. */
  predicate Enabled(s: State, e: Event) {
    match e
    case Prepare => s.retired != []
    case Push(f, _) => f in s.held
    case Seek(_) => s.display == Resting
    case Proceed => s.display != Resting
  }

  function Step(s: State, e: Event): Result
    requires Enabled(s, e)
  {
    match e
    case Prepare => Ok(s.(held := s.held + [s.retired[0]], retired := s.retired[1..]))
    case Push(f, time) =>
      if |s.incoming| >= FRAMES_IN_FLIGHT then QueueFull
      else Ok(s.(held := RemoveFirst(s.held, f), incoming := s.incoming + [f], stamp := s.stamp[f := time], last := time))
    case Seek(target) => Ok(s.(display := Taking(target)))
    case Proceed => Ok(ProceedFrom(s))
  }

  function Run(s: State, es: seq<Event>): Result
    decreases |es|
  {
    if es == [] then Ok(s)
    else if !Enabled(s, es[0]) then Run(s, es[1..])
    else
      var r := Step(s, es[0]);
      if r.QueueFull? then r else Run(r.state, es[1..])
  }

  const START: State := State([0, 1], [], [], [], map[], -1, Resting)

  // ---------------------------------------------------------------------------
  // Conservation
  // ---------------------------------------------------------------------------

  function Places(s: State, f: Frame): nat {
    Count(s.retired, f) + Count(s.incoming, f) + Count(s.ready, f) + Count(s.held, f)
  }

  /** Every frame is in exactly one place. */
  ghost predicate Conserved(s: State) {
    && |s.retired| + |s.incoming| + |s.ready| + |s.held| == FRAMES_IN_FLIGHT
    && forall f: Frame :: Places(s, f) == if f < FRAMES_IN_FLIGHT then 1 else 0
  }

  lemma CountFront(q: seq<Frame>, f: Frame)
    requires q != []
    ensures Count(q[1..], f) + (if f == q[0] then 1 else 0) == Count(q, f)
  {
  }

  lemma CountAppend(q: seq<Frame>, x: Frame, f: Frame)
    ensures Count(q + [x], f) == Count(q, f) + if f == x then 1 else 0
  {
    CountConcat(q, [x], f);
  }

  lemma StepConserves(s: State, e: Event)
    requires Conserved(s) && Enabled(s, e)
    ensures Step(s, e).Ok? && Conserved(Step(s, e).state)
  {
    hide Count, RemoveFirst, RemoveAt;
    var s' := Step(s, e).state;
    assert |s'.retired| + |s'.incoming| + |s'.ready| + |s'.held| == FRAMES_IN_FLIGHT;
    forall f: Frame
      ensures Places(s', f) == Places(s, f)
    {
      StepPlaces(s, e, f);
    }
  }

  lemma StepPlaces(s: State, e: Event, f: Frame)
    requires Conserved(s) && Enabled(s, e)
    ensures Step(s, e).Ok? && Places(Step(s, e).state, f) == Places(s, f)
  {
    hide Count, RemoveFirst, RemoveAt, ProceedFrom;
    match e {
      case Prepare =>
        CountFront(s.retired, f);
        CountAppend(s.held, s.retired[0], f);
      case Push(x, _) =>
        RemoveFirstCount(s.held, x, f);
        CountAppend(s.incoming, x, f);
      case Seek(_) =>
      case Proceed => ProceedPlaces(s, f);
    }
  }

  lemma ProceedPlaces(s: State, f: Frame)
    requires Conserved(s)
    ensures Places(ProceedFrom(s), f) == Places(s, f)
  {
    match s.display {
      case Resting =>
      case Taking(_) =>
        if s.incoming != [] {
          CountFront(s.incoming, f);
          CountAppend(s.ready, s.incoming[0], f);
        }
      case Scanning(target, i) =>
        if i < |s.ready| && Outdated(s.stamp, s.ready, i, target) {
          RemoveAtCount(s.ready, i, f);
          CountAppend(s.retired, s.ready[i], f);
        }
    }
  }

  lemma {:induction false} RunConserves(s: State, es: seq<Event>)
    requires Conserved(s)
    ensures Run(s, es).Ok? && Conserved(Run(s, es).state)
    decreases |es|
  {
    hide Conserved, Step;
    if es != [] {
      if Enabled(s, es[0]) {
        StepConserves(s, es[0]);
        RunConserves(Step(s, es[0]).state, es[1..]);
      } else {
        RunConserves(s, es[1..]);
      }
    }
  }

  /** In every interleaving each of the frames is in exactly one place, so that no push finds a full queue. */
  lemma FramesConserved(es: seq<Event>)
    ensures Run(START, es).Ok? && Conserved(Run(START, es).state)
    ensures var s := Run(START, es).state; s.held != [] ==> |s.incoming| < FRAMES_IN_FLIGHT
  {
    assert Conserved(START) by {
      forall f: Frame
        ensures Places(START, f) == if f < FRAMES_IN_FLIGHT then 1 else 0
      {
        assert [0, 1] == [0] + [1];
        CountConcat([0], [1], f);
      }
    }
    RunConserves(START, es);
  }

  // ---------------------------------------------------------------------------
  // Order
  // ---------------------------------------------------------------------------

  /** Frames in the order of their timestamps, none newer than the last push. */
  ghost predicate Sorted(stamp: map<Frame, nat>, q: seq<Frame>, last: int) {
    && (forall i, j | 0 <= i < j < |q| :: Stamp(stamp, q[i]) < Stamp(stamp, q[j]))
    && (forall i | 0 <= i < |q| :: Stamp(stamp, q[i]) <= last)
  }

  /** Once a frame has been kept, the oldest ready one is not outdated. */
  ghost predicate ScanOk(s: State) {
    s.display.Scanning? && s.display.i > 0 && |s.ready| > 1 ==> s.display.target <= Stamp(s.stamp, s.ready[0])
  }

  ghost predicate Ordered(s: State) {
    Conserved(s) && Sorted(s.stamp, s.ready + s.incoming, s.last) && ScanOk(s)
  }

  /** Frames the renderer holds are not queued for display. */
  lemma HeldElsewhere(s: State, f: Frame)
    requires Conserved(s) && f in s.held
    ensures f !in s.ready && f !in s.incoming
  {
    assert Places(s, f) <= 1;
  }

  /** A newer frame at the end keeps the order. */
  lemma SortedPush(stamp: map<Frame, nat>, q: seq<Frame>, last: int, f: Frame, time: nat)
    requires Sorted(stamp, q, last) && f !in q && last < time
    ensures Sorted(stamp[f := time], q + [f], time)
  {
    var stamp' := stamp[f := time];
    assert forall i | 0 <= i < |q| :: q[i] in q && Stamp(stamp', q[i]) == Stamp(stamp, q[i]);
  }

  lemma PushOrdered(s: State, f: Frame, time: nat)
    requires Ordered(s) && f in s.held && s.last < time
    ensures Ordered(Step(s, Push(f, time)).state)
  {
    StepConserves(s, Push(f, time));
    HeldElsewhere(s, f);
    var s' := Step(s, Push(f, time)).state;
    var q := s.ready + s.incoming;
    hide Conserved;
    assert s'.ready + s'.incoming == q + [f];
    SortedPush(s.stamp, q, s.last, f, time);
    hide Sorted;
    assert s.ready != [] ==> s.ready[0] in s.ready;
  }

  lemma ProceedOrdered(s: State)
    requires Ordered(s) && s.display != Resting
    ensures Ordered(ProceedFrom(s))
  {
    hide Conserved;
    assert Conserved(ProceedFrom(s)) by { StepConserves(s, Proceed); }
    var q := s.ready + s.incoming;
    if s.display.Taking? {
      assert ProceedFrom(s).ready + ProceedFrom(s).incoming == q;
    } else {
      ScanOrdered(s);
    }
  }

  lemma ScanOrdered(s: State)
    requires Sorted(s.stamp, s.ready + s.incoming, s.last) && ScanOk(s) && s.display.Scanning?
    ensures var s' := ProceedFrom(s);
            Sorted(s'.stamp, s'.ready + s'.incoming, s'.last) && ScanOk(s')
  {
    var q := s.ready + s.incoming;
    if s.display.i < |s.ready| && Outdated(s.stamp, s.ready, s.display.i, s.display.target) {
      DropsAtFront(s);
      assert ProceedFrom(s).ready + s.incoming == q[1..];
      SortedTail(s.stamp, q, s.last);
    }
  }

  lemma SortedTail(stamp: map<Frame, nat>, q: seq<Frame>, last: int)
    requires Sorted(stamp, q, last) && q != []
    ensures Sorted(stamp, q[1..], last)
  {
  }

  /** Only the oldest ready frame is ever discarded. */
  lemma DropsAtFront(s: State)
    requires Sorted(s.stamp, s.ready + s.incoming, s.last) && ScanOk(s)
    requires s.display.Scanning? && s.display.i < |s.ready| && Outdated(s.stamp, s.ready, s.display.i, s.display.target)
    ensures s.display.i == 0
  {
    var q := s.ready + s.incoming;
    assert forall k | 0 <= k < |s.ready| :: q[k] == s.ready[k];
  }

  /** The renderer's timestamps increase. */
  predicate Increasing(s: State, e: Event) {
    e.Push? ==> s.last < e.time
  }

  lemma StepOrdered(s: State, e: Event)
    requires Ordered(s) && Enabled(s, e) && Increasing(s, e)
    ensures Step(s, e).Ok? && Ordered(Step(s, e).state)
  {
    StepConserves(s, e);
    match e {
      case Prepare =>
      case Push(f, time) => PushOrdered(s, f, time);
      case Seek(_) =>
      case Proceed => ProceedOrdered(s);
    }
  }

  /** Every push of the run has a newer timestamp than the one before. */
  ghost predicate AllIncreasing(s: State, es: seq<Event>)
    decreases |es|
  {
    es == [] ||
    (if !Enabled(s, es[0]) then AllIncreasing(s, es[1..])
     else Increasing(s, es[0]) && (Step(s, es[0]).Ok? ==> AllIncreasing(Step(s, es[0]).state, es[1..])))
  }

  lemma {:induction false} RunOrdered(s: State, es: seq<Event>)
    requires Ordered(s) && AllIncreasing(s, es)
    ensures Run(s, es).Ok? && Ordered(Run(s, es).state)
    decreases |es|
  {
    hide Ordered, Step;
    if es != [] {
      if Enabled(s, es[0]) {
        StepOrdered(s, es[0]);
        RunOrdered(Step(s, es[0]).state, es[1..]);
      } else {
        RunOrdered(s, es[1..]);
      }
    }
  }

  /** With increasing timestamps, in every interleaving: ready frames are sorted and older than all
      incoming ones, and a step of SeekTo that discards a frame discards the oldest ready one, which
      is older than the target, and keeps a newer one. */
  lemma SeekDiscardsOldest(es: seq<Event>)
    requires AllIncreasing(START, es)
    ensures var r := Run(START, es);
            && r.Ok? && Sorted(r.state.stamp, r.state.ready + r.state.incoming, r.state.last)
            && (r.state.display.Scanning? ==>
                  var s' := ProceedFrom(r.state);
                  s'.ready != r.state.ready ==>
                    && s'.ready == r.state.ready[1..] && s'.ready != []
                    && Stamp(r.state.stamp, r.state.ready[0]) < r.state.display.target
                    && s'.retired == r.state.retired + [r.state.ready[0]])
  {
    FramesConserved([]);
    RunOrdered(START, es);
    var s := Run(START, es).state;
    hide Run, AllIncreasing;
    if s.display.Scanning? && s.display.i < |s.ready| && Outdated(s.stamp, s.ready, s.display.i, s.display.target) {
      DropsAtFront(s);
    }
  }

  // ---------------------------------------------------------------------------
  // SeekTo as a whole
  // ---------------------------------------------------------------------------

  /** The second loop of SeekTo from position i on: what is left ready, and the retired frames. */
  function Scan(stamp: map<Frame, nat>, ready: seq<Frame>, retired: seq<Frame>, i: nat, target: nat): (seq<Frame>, seq<Frame>)
    decreases |ready| - i
  {
    if i >= |ready| then (ready, retired)
    else if Outdated(stamp, ready, i, target)
    then var (ready', retired') := Discard(ready, retired, i);
         Scan(stamp, ready', retired', i, target)
    else Scan(stamp, ready, retired, i + 1, target)
  }

  /** Nothing is discarded behind a frame that was kept. */
  lemma {:induction false} ScanKeepsRest(stamp: map<Frame, nat>, ready: seq<Frame>, retired: seq<Frame>, i: nat, target: nat)
    requires |ready| <= 1 || forall j | i <= j < |ready| :: target <= Stamp(stamp, ready[j])
    ensures Scan(stamp, ready, retired, i, target) == (ready, retired)
    decreases |ready| - i
  {
    if i < |ready| {
      ScanKeepsRest(stamp, ready, retired, i + 1, target);
    }
  }

  /** On sorted frames SeekTo retires the first k: all of them older than the target, the newest frame never
      among them, and as many as possible. */
  lemma {:induction false} SeekRetiresPrefix(stamp: map<Frame, nat>, q: seq<Frame>, retired: seq<Frame>, last: int, target: nat) returns (k: nat)
    requires Sorted(stamp, q, last) && |retired| + |q| <= FRAMES_IN_FLIGHT
    ensures k <= |q| && Scan(stamp, q, retired, 0, target) == (q[k..], retired + q[..k])
    ensures q != [] ==> k < |q|
    ensures forall j | 0 <= j < k :: Stamp(stamp, q[j]) < target
    ensures k < |q| - 1 ==> target <= Stamp(stamp, q[k])
    decreases |q|
  {
    if |q| > 1 && Stamp(stamp, q[0]) < target {
      ScanDrops(stamp, q, retired, target);
      SortedTail(stamp, q, last);
      hide Sorted, Scan;
      var k' := SeekRetiresPrefix(stamp, q[1..], retired + [q[0]], last, target);
      k := k' + 1;
      assert q[1..][k'..] == q[k..];
      assert retired + [q[0]] + q[1..][..k'] == retired + q[..k];
    } else {
      k := 0;
      assert forall j | 0 < j < |q| :: Stamp(stamp, q[0]) < Stamp(stamp, q[j]);
      hide Sorted;
      ScanKeepsRest(stamp, q, retired, 0, target);
      hide Scan;
      assert retired + q[..0] == retired;
    }
  }

  lemma ScanDrops(stamp: map<Frame, nat>, q: seq<Frame>, retired: seq<Frame>, target: nat)
    requires |q| > 1 && Stamp(stamp, q[0]) < target && |retired| < FRAMES_IN_FLIGHT
    ensures Scan(stamp, q, retired, 0, target) == Scan(stamp, q[1..], retired + [q[0]], 0, target)
  {
    assert RemoveAt(q, 0) == q[1..];
  }

  /** n steps of SeekTo. */
  function Proceeds(n: nat): seq<Event> {
    seq(n, _ => Proceed)
  }

  /** What is left of SeekTo, with no step of the renderer in between, is over after some steps of the
      display: all incoming frames were taken, and then the outdated ones discarded as by the second loop.
      Frames elsewhere are untouched. */
  ghost predicate Sought(s: State, s': State, target: nat, ready: seq<Frame>, i: nat) {
    && s'.display == Resting && s'.incoming == []
    && (s'.ready, s'.retired) == Scan(s.stamp, ready, s.retired, i, target)
    && s'.held == s.held && s'.stamp == s.stamp && s'.last == s.last
  }

  lemma OneProceed(s: State, n: nat)
    requires s.display != Resting
    ensures Run(s, Proceeds(n + 1)) == Run(ProceedFrom(s), Proceeds(n))
  {
    hide ProceedFrom;
    assert Proceeds(n + 1)[1..] == Proceeds(n);
  }

  lemma {:induction false} ScanProceeds(s: State) returns (n: nat)
    requires s.display.Scanning? && s.incoming == []
    ensures Run(s, Proceeds(n)).Ok? && Sought(s, Run(s, Proceeds(n)).state, s.display.target, s.ready, s.display.i)
    decreases |s.ready| - s.display.i
  {
    var s1 := ProceedFrom(s);
    if s.display.i >= |s.ready| {
      n := 1;
      OneProceed(s, 0);
      assert Proceeds(0) == [];
    } else {
      var k := ScanProceeds(s1);
      n := k + 1;
      OneProceed(s, k);
    }
  }

  lemma {:induction false} TakeProceeds(s: State) returns (n: nat)
    requires s.display.Taking?
    ensures Run(s, Proceeds(n)).Ok? && Sought(s, Run(s, Proceeds(n)).state, s.display.target, s.ready + s.incoming, 0)
    decreases |s.incoming|
  {
    var s1 := ProceedFrom(s);
    var k;
    if s.incoming == [] {
      assert s.ready + s.incoming == s.ready;
      k := ScanProceeds(s1);
    } else {
      assert s1.ready + s1.incoming == s.ready + s.incoming;
      k := TakeProceeds(s1);
    }
    n := k + 1;
    OneProceed(s, k);
  }

  /** A whole SeekTo in steps of the display, with increasing timestamps from any reachable state: it ends
      after some number of steps with nothing incoming, and of the frames that were ready or incoming
      exactly the first k were retired, all of them older than the target, never the newest, and as many
      as possible. */
  lemma SeekInSteps(es: seq<Event>, target: nat) returns (n: nat, k: nat)
    requires AllIncreasing(START, es) && Run(START, es).Ok? && Run(START, es).state.display == Resting
    ensures var s := Run(START, es).state;
            var q := s.ready + s.incoming;
            var r := Run(s, [Seek(target)] + Proceeds(n));
            && k <= |q| && r.Ok?
            && r.state == s.(ready := q[k..], retired := s.retired + q[..k], incoming := [])
            && (q != [] ==> k < |q|)
            && (forall j | 0 <= j < k :: Stamp(s.stamp, q[j]) < target)
            && (k < |q| - 1 ==> target <= Stamp(s.stamp, q[k]))
  {
    FramesConserved([]);
    RunOrdered(START, es);
    var s := Run(START, es).state;
    var s1 := s.(display := Taking(target));
    n := TakeProceeds(s1);
    assert ([Seek(target)] + Proceeds(n))[1..] == Proceeds(n);
    assert Run(s, [Seek(target)] + Proceeds(n)) == Run(s1, Proceeds(n));
    hide Run, AllIncreasing;
    k := SeekRetiresPrefix(s.stamp, s.ready + s.incoming, s.retired, s.last, target);
  }

  // ---------------------------------------------------------------------------
  // The next frame can always be shown
  // ---------------------------------------------------------------------------

  lemma {:induction false} RunAppend(s: State, es: seq<Event>, fs: seq<Event>)
    requires Run(s, es).Ok?
    ensures Run(s, es + fs) == Run(Run(s, es).state, fs)
    decreases |es|
  {
    if es == [] {
      assert es + fs == fs;
    } else {
      assert (es + fs)[1..] == es[1..] + fs;
      if Enabled(s, es[0]) {
        RunAppend(Step(s, es[0]).state, es[1..], fs);
      } else {
        RunAppend(s, es[1..], fs);
      }
    }
  }

  lemma {:induction false} FinishScan(s: State) returns (n: nat)
    requires s.display.Scanning?
    ensures Run(s, Proceeds(n)).Ok? && Run(s, Proceeds(n)).state.display == Resting
    decreases |s.ready| - s.display.i
  {
    if s.display.i >= |s.ready| {
      n := 1;
      OneProceed(s, 0);
      assert Proceeds(0) == [];
    } else {
      var k := FinishScan(ProceedFrom(s));
      n := k + 1;
      OneProceed(s, k);
    }
  }

  /** The display comes to rest. */
  lemma ComeToRest(s: State) returns (n: nat)
    ensures Run(s, Proceeds(n)).Ok? && Run(s, Proceeds(n)).state.display == Resting
  {
    if s.display.Taking? {
      n := TakeProceeds(s);
    } else if s.display.Scanning? {
      n := FinishScan(s);
    } else {
      n := 0;
      assert Proceeds(0) == [];
    }
  }

  /** Newer than all the given frames. */
  function Beyond(stamp: map<Frame, nat>, q: seq<Frame>): nat {
    if q == [] then 1 else Stamp(stamp, q[0]) + Beyond(stamp, q[1..])
  }

  lemma {:induction false} BeyondAll(stamp: map<Frame, nat>, q: seq<Frame>)
    ensures Beyond(stamp, q) > 0 && forall j | 0 <= j < |q| :: Stamp(stamp, q[j]) < Beyond(stamp, q)
  {
    if q != [] {
      BeyondAll(stamp, q[1..]);
      assert forall j | 1 <= j < |q| :: q[j] == q[1..][j - 1];
    }
  }

  lemma {:induction false} ScanLeavesOne(stamp: map<Frame, nat>, q: seq<Frame>, retired: seq<Frame>, target: nat)
    requires forall j | 0 <= j < |q| :: Stamp(stamp, q[j]) < target
    ensures |Scan(stamp, q, retired, 0, target).0| <= 1
    decreases |q|
  {
    if |q| > 1 {
      assert RemoveAt(q, 0) == q[1..];
      ScanLeavesOne(stamp, q[1..], Enqueue(retired, q[0]), target);
    }
  }

  /** A whole SeekTo of a resting display. */
  lemma SeekAll(s: State, target: nat) returns (es: seq<Event>)
    requires s.display == Resting
    ensures Run(s, es).Ok? && Sought(s, Run(s, es).state, target, s.ready + s.incoming, 0)
  {
    var s1 := s.(display := Taking(target));
    var n := TakeProceeds(s1);
    es := [Seek(target)] + Proceeds(n);
    assert es[1..] == Proceeds(n);
    assert Run(s, es) == Run(s1, Proceeds(n));
  }

  /** Seeking far ahead leaves the renderer a frame to work with. */
  lemma FrameComesFree(s: State) returns (es: seq<Event>)
    requires Conserved(s) && s.display == Resting
    ensures Run(s, es).Ok?
    ensures var s' := Run(s, es).state;
            s'.display == Resting && s'.incoming == [] && (s'.retired != [] || s'.held != [])
  {
    var q := s.ready + s.incoming;
    BeyondAll(s.stamp, q);
    es := SeekAll(s, Beyond(s.stamp, q));
    ScanLeavesOne(s.stamp, q, s.retired, Beyond(s.stamp, q));
    RunConserves(s, es);
  }

  /** The renderer takes a frame if it has none, fills it and hands it over. */
  lemma FrameIsPushed(s: State, time: nat) returns (es: seq<Event>, f: Frame)
    requires s.display == Resting && s.incoming == [] && (s.retired != [] || s.held != [])
    ensures Run(s, es).Ok?
    ensures var s' := Run(s, es).state;
            s'.display == Resting && s'.incoming == [f] && Stamp(s'.stamp, f) == time
  {
    f := if s.held == [] then s.retired[0] else s.held[0];
    var s1 := if s.held == [] then Step(s, Prepare).state else s;
    var last := [Push(f, time)];
    assert last[1..] == [];
    assert Run(s1, last).Ok? && Run(s1, last).state.incoming == [f];
    es := if s.held == [] then [Prepare] + last else last;
    assert ([Prepare] + last)[1..] == last;
  }

  /** The pipeline never gets stuck: whatever renderer and display have done, they can go on so that a new frame
      with any given timestamp is the newest one to be shown. */
  lemma NextFrameCanBeShown(es: seq<Event>, time: nat) returns (fs: seq<Event>, f: Frame)
    ensures Run(START, es + fs).Ok?
    ensures var s := Run(START, es + fs).state;
            s.display == Resting && s.ready != [] && s.ready[|s.ready| - 1] == f && Stamp(s.stamp, f) == time
  {
    FramesConserved(es);
    var s := Run(START, es).state;
    hide Run, Conserved;
    var n := ComeToRest(s);
    RunConserves(s, Proceeds(n));
    var s1 := Run(s, Proceeds(n)).state;
    var e2 := FrameComesFree(s1);
    var s2 := Run(s1, e2).state;
    var e3;
    e3, f := FrameIsPushed(s2, time);
    var s3 := Run(s2, e3).state;
    var e4 := SeekAll(s3, 0);
    ScanKeepsRest(s3.stamp, s3.ready + s3.incoming, s3.retired, 0, 0);
    fs := Proceeds(n) + (e2 + (e3 + e4));
    RunAppend(START, es, fs);
    RunAppend(s, Proceeds(n), e2 + (e3 + e4));
    RunAppend(s1, e2, e3 + e4);
    RunAppend(s2, e3, e4);
  }

  class EmuDisplay {
    var retired: seq<Frame>
    var incoming: seq<Frame>
    var ready: seq<Frame>
    var stamp: map<Frame, nat>

    constructor ()
      ensures retired == [0, 1] && incoming == [] && ready == []
    {
      retired, incoming, ready, stamp := [0, 1], [], [], map[];
    }

    /** Moves the incoming frames, then discards outdated ones while newer ones are queued. */
    method SeekTo(target: nat)
      modifies this
      ensures incoming == [] && stamp == old(stamp)
      ensures (ready, retired) == Scan(stamp, old(ready) + old(incoming), old(retired), 0, target)
    {
      while incoming != []
        invariant ready + incoming == old(ready) + old(incoming) && retired == old(retired) && stamp == old(stamp)
        decreases |incoming|
      {
        ready, incoming := ready + [incoming[0]], incoming[1..];
      }
      assert ready == old(ready) + old(incoming);
      var i := 0;
      while i < |ready|
        invariant incoming == [] && stamp == old(stamp) && 0 <= i
        invariant Scan(stamp, ready, retired, i, target) == Scan(stamp, old(ready) + old(incoming), old(retired), 0, target)
        decreases |ready| - i
      {
        if Outdated(stamp, ready, i, target) {
          var frame := ready[i];
          ready := RemoveAt(ready, i);
          retired := Enqueue(retired, frame);
        } else {
          i := i + 1;
        }
      }
    }
  }
}
