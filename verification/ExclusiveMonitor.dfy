/**
  LDREX and STREX under preemption. Every thread has its own monitor; a thread
  switch happens only at a system call or at preemption, and both clear the
  monitor of the thread that is left.
 */
module ExclusiveMonitor {
  import opened Options

  /** A thread's monitor, and what its last LDREX read where. */
  datatype Context = Context(monitor: Option<nat>, last: Option<(nat, nat)>)

  datatype Machine = Machine(memory: map<nat, nat>, contexts: map<nat, Context>, active: nat, stored: nat)

  /** What the active thread does next. */
  datatype Event =
    | Ldrex(addr: nat)
    | Strex(addr: nat, value: nat)
    | Store(addr: nat, value: nat)
    | SystemCall(next: nat)
    | Preempt(next: nat)

  datatype Result<T> = Ok(value: T) | NonExclusiveAddress

  const WORD: nat := 0x1_0000_0000

  /** addr & 0xffffff8 */
  function Granule(addr: nat): nat {
    (addr % 0x1000_0000) / 8 * 8
  }

  function ReadWord(m: map<nat, nat>, a: nat): nat {
    if a in m then m[a] else 0
  }

  function ContextOf(m: Machine, t: nat): Context {
    if t in m.contexts then m.contexts[t] else Context(None, None)
  }

  function MarkExclusive(c: Context, addr: nat): Context {
    c.(monitor := Some(Granule(addr)))
  }

  function ClearExclusive(c: Context): Context {
    c.(monitor := None)
  }

  /** Whether the store is performed, and the context afterwards. */
  function PrepareExclusiveStore(c: Context, addr: nat): Result<(bool, Context)> {
    if c.monitor.None? then Ok((false, c))
    else if c.monitor.value != Granule(addr) then NonExclusiveAddress
    else Ok((true, ClearExclusive(c)))
  }

  function SetContext(m: Machine, c: Context): Machine {
    m.(contexts := m.contexts[m.active := c])
  }

  /** `watched` is the address whose successful exclusive stores are counted. */
  function Step(m: Machine, e: Event, watched: nat): Result<Machine> {
    var c := ContextOf(m, m.active);
    match e
    case Ldrex(a) => Ok(SetContext(m, MarkExclusive(c, a).(last := Some((a, ReadWord(m.memory, a))))))
    case Strex(a, v) =>
      var r := PrepareExclusiveStore(c, a);
      if r.NonExclusiveAddress? then NonExclusiveAddress
      else if !r.value.0 then Ok(SetContext(m, r.value.1))
      else Ok(SetContext(m, r.value.1).(memory := m.memory[a := v], stored := m.stored + if a == watched then 1 else 0))
    case Store(a, v) => Ok(m.(memory := m.memory[a := v]))
    case SystemCall(next) => Ok(SetContext(m, ClearExclusive(c)).(active := next))
    case Preempt(next) => Ok(SetContext(m, ClearExclusive(c)).(active := next))
  }

  function Run(m: Machine, es: seq<Event>, watched: nat): Result<Machine> {
    if es == [] then Ok(m)
    else
      var r := Run(m, es[..|es| - 1], watched);
      if r.NonExclusiveAddress? then r else Step(r.value, es[|es| - 1], watched)
  }

  /** The store of event e is performed in state m. */
  predicate Performed(m: Machine, e: Event) {
    && e.Strex?
    && var r := PrepareExclusiveStore(ContextOf(m, m.active), e.addr);
    r.Ok? && r.value.0
  }

  predicate Switches(e: Event) {
    e.SystemCall? || e.Preempt?
  }

  function Start(memory: map<nat, nat>, active: nat): Machine {
    Machine(memory, map[], active, 0)
  }

  // ---------------------------------------------------------------------------
  // No other thread ran
  // ---------------------------------------------------------------------------

  /** Event i is the last LDREX, on that granule, and neither a switch nor another LDREX followed. */
  ghost predicate Undisturbed(es: seq<Event>, i: nat, granule: nat) {
    && i < |es| && es[i].Ldrex? && Granule(es[i].addr) == granule
    && forall k | i < k < |es| :: !Switches(es[k]) && !es[k].Ldrex?
  }

  /** Only the active thread can have a set monitor, and only since an undisturbed LDREX. */
  ghost predicate MonitorSince(m: Machine, es: seq<Event>) {
    forall t :: ContextOf(m, t).monitor.Some? ==>
                  t == m.active && exists i: nat :: Undisturbed(es, i, ContextOf(m, t).monitor.value)
  }

  lemma UndisturbedLonger(es: seq<Event>, e: Event, i: nat, granule: nat)
    requires Undisturbed(es, i, granule) && !Switches(e) && !e.Ldrex?
    ensures Undisturbed(es + [e], i, granule)
  {
  }

  lemma StepMonitor(m: Machine, es: seq<Event>, e: Event, watched: nat)
    requires MonitorSince(m, es)
    ensures Step(m, e, watched).Ok? ==> MonitorSince(Step(m, e, watched).value, es + [e])
  {
    var r := Step(m, e, watched);
    if r.Ok? {
      forall t | ContextOf(r.value, t).monitor.Some?
        ensures t == r.value.active && exists i: nat :: Undisturbed(es + [e], i, ContextOf(r.value, t).monitor.value)
      {
        if e.Ldrex? && t == m.active {
          assert Undisturbed(es + [e], |es|, Granule(e.addr));
        } else {
          assert ContextOf(m, t).monitor == ContextOf(r.value, t).monitor;
          var i: nat :| Undisturbed(es, i, ContextOf(m, t).monitor.value);
          UndisturbedLonger(es, e, i, ContextOf(m, t).monitor.value);
        }
      }
    }
  }

  lemma {:induction false} RunMonitor(m: Machine, es: seq<Event>, watched: nat)
    requires MonitorSince(m, [])
    ensures Run(m, es, watched).Ok? ==> MonitorSince(Run(m, es, watched).value, es)
    decreases |es|
  {
    hide MonitorSince, Step;
    if es != [] {
      var before := es[..|es| - 1];
      assert before + [es[|es| - 1]] == es;
      RunMonitor(m, before, watched);
      if Run(m, before, watched).Ok? {
        StepMonitor(Run(m, before, watched).value, before, es[|es| - 1], watched);
      }
    }
  }

  /** Without a switch the same thread stays active. */
  lemma {:induction false} StaysActive(m: Machine, es: seq<Event>, i: nat, watched: nat)
    requires i <= |es| && Run(m, es, watched).Ok? && forall k | i <= k < |es| :: !Switches(es[k])
    ensures Run(m, es[..i], watched).Ok? && Run(m, es[..i], watched).value.active == Run(m, es, watched).value.active
    decreases |es|
  {
    if i == |es| {
      assert es[..i] == es;
    } else {
      var before := es[..|es| - 1];
      StaysActive(m, before, i, watched);
      assert before[..i] == es[..i];
    }
  }

  /** In every interleaving, an exclusive store is performed only if the same thread executed LDREX on
      that granule before and no thread switch happened since: at every point in between it was active. */
  lemma StoreUndisturbed(memory: map<nat, nat>, active: nat, es: seq<Event>, e: Event, watched: nat)
    requires Run(Start(memory, active), es, watched).Ok? && Performed(Run(Start(memory, active), es, watched).value, e)
    ensures exists i: nat ::
              && Undisturbed(es, i, Granule(e.addr))
              && forall k | i <= k <= |es| :: Run(Start(memory, active), es[..k], watched).Ok?
                                             && Run(Start(memory, active), es[..k], watched).value.active
                                                == Run(Start(memory, active), es, watched).value.active
  {
    var m0 := Start(memory, active);
    RunMonitor(m0, es, watched);
    var m := Run(m0, es, watched).value;
    var i: nat :| Undisturbed(es, i, ContextOf(m, m.active).monitor.value);
    assert Undisturbed(es, i, Granule(e.addr));
    hide Run, Undisturbed;
    forall k | i <= k <= |es|
      ensures Run(m0, es[..k], watched).Ok? && Run(m0, es[..k], watched).value.active == m.active
    {
      NoSwitchSince(es, i, Granule(e.addr));
      StaysActive(m0, es, k, watched);
    }
  }

  lemma NoSwitchSince(es: seq<Event>, i: nat, granule: nat)
    requires Undisturbed(es, i, granule)
    ensures forall k | i <= k < |es| :: !Switches(es[k])
  {
  }

  /** The other direction: with nothing but plain stores in between, LDREX and STREX of one thread on one
      address succeed from any state, and the value is stored. */
  lemma {:induction false} PairSucceeds(m: Machine, a: nat, stores: seq<Event>, v: nat, watched: nat)
    requires forall e | e in stores :: e.Store?
    ensures var r := Run(m, [Ldrex(a)] + stores, watched);
            && r.Ok? && r.value.active == m.active && ContextOf(r.value, m.active).monitor == Some(Granule(a))
            && Performed(r.value, Strex(a, v))
            && Step(r.value, Strex(a, v), watched).Ok?
            && ReadWord(Step(r.value, Strex(a, v), watched).value.memory, a) == v
    decreases |stores|
  {
    var es := [Ldrex(a)] + stores;
    if stores == [] {
      assert es[..0] == [] && es == [Ldrex(a)];
    } else {
      var before := stores[..|stores| - 1];
      assert es[..|es| - 1] == [Ldrex(a)] + before;
      assert es[|es| - 1] == stores[|stores| - 1] && stores[|stores| - 1] in stores;
      PairSucceeds(m, a, before, v, watched);
    }
  }

  // ---------------------------------------------------------------------------
  // The granule, bit by bit
  // ---------------------------------------------------------------------------

  /** Bit i of a. */
  predicate Bit(a: nat, i: nat) {
    if i == 0 then a % 2 == 1 else Bit(a / 2, i - 1)
  }

  function Pow2(n: nat): (r: nat)
    ensures r > 0
  {
    if n == 0 then 1 else 2 * Pow2(n - 1)
  }

  /** Bits lo to hi of x and y agree. */
  ghost predicate SameBits(x: nat, y: nat, lo: nat, hi: nat) {
    forall i: nat | lo <= i < hi :: Bit(x, i) == Bit(y, i)
  }

  /** a and b differ in a bit that is set in 0xffffff8. */
  ghost predicate Differ(a: nat, b: nat) {
    !SameBits(a, b, 3, 28)
  }

  /** The remainder by a doubled divisor. */
  lemma RemainderDoubles(x: nat, p: nat)
    requires p > 0
    ensures x % (2 * p) == 2 * (x / 2 % p) + x % 2
  {
    var q, r := x / 2 / p, x / 2 % p;
    assert x / 2 == q * p + r;
    assert x == q * (2 * p) + (2 * r + x % 2);
    RemainderIs(x, q, 2 * p, 2 * r + x % 2);
  }

  lemma RemainderIs(x: nat, q: nat, d: nat, r: nat)
    requires d > 0 && r < d && x == q * d + r
    ensures x % d == r
  {
    var k := x / d;
    assert x == k * d + x % d;
    assert (k - q) * d == r - x % d;
    if k != q {
      MultipleIsFar(k - q, d);
    }
  }

  lemma MultipleIsFar(z: int, d: int)
    requires z != 0 && d > 0
    ensures z * d >= d || z * d <= 0 - d
  {
    if z > 0 {
      MultipleGrows(z, d);
    } else {
      MultipleGrows(-z, d);
      assert (-z) * d == -(z * d);
    }
  }

  lemma {:induction false} MultipleGrows(z: int, d: int)
    requires z > 0 && d > 0
    ensures z * d >= d
    decreases z
  {
    if z > 1 {
      MultipleGrows(z - 1, d);
      assert z * d == (z - 1) * d + d;
    }
  }

  /** The number made of the lowest n bits. */
  function Low(x: nat, n: nat): nat {
    if n == 0 then 0 else 2 * Low(x / 2, n - 1) + x % 2
  }

  lemma {:induction false} LowIs(x: nat, n: nat)
    ensures Low(x, n) == x % Pow2(n)
    decreases n
  {
    if n > 0 {
      LowIs(x / 2, n - 1);
      RemainderDoubles(x, Pow2(n - 1));
    }
  }

  lemma {:induction false} LowBits(x: nat, y: nat, n: nat)
    ensures Low(x, n) == Low(y, n) <==> SameBits(x, y, 0, n)
    decreases n
  {
    if n > 0 {
      LowBits(x / 2, y / 2, n - 1);
      OneBitMore(x, y, n - 1);
    }
  }

  lemma OneBitMore(x: nat, y: nat, n: nat)
    ensures SameBits(x, y, 0, n + 1) <==> x % 2 == y % 2 && SameBits(x / 2, y / 2, 0, n)
  {
    assert Bit(x, 0) == Bit(y, 0) <==> x % 2 == y % 2;
    forall i: nat
      ensures Bit(x, i + 1) == Bit(x / 2, i) && Bit(y, i + 1) == Bit(y / 2, i)
    {
    }
    hide Bit;
    if SameBits(x, y, 0, n + 1) {
      forall i: nat | 0 <= i < n
        ensures Bit(x / 2, i) == Bit(y / 2, i)
      {
        assert Bit(x, i + 1) == Bit(y, i + 1);
      }
      assert Bit(x, 0) == Bit(y, 0);
    }
    if x % 2 == y % 2 && SameBits(x / 2, y / 2, 0, n) {
      forall i: nat | 0 <= i < n + 1
        ensures Bit(x, i) == Bit(y, i)
      {
        if i > 0 {
          var j: nat := i - 1;
          assert Bit(x, j + 1) == Bit(x / 2, j) && Bit(y, j + 1) == Bit(y / 2, j);
        }
      }
    }
  }

  lemma Shifted(a: nat, i: nat)
    requires i >= 3
    ensures Bit(a, i) == Bit(a / 8, i - 3)
  {
    assert Bit(a, i) == Bit(a / 2, i - 1) == Bit(a / 2 / 2, i - 2) == Bit(a / 2 / 2 / 2, i - 3);
  }

  lemma ShiftedBits(a: nat, b: nat)
    ensures SameBits(a, b, 3, 28) <==> SameBits(a / 8, b / 8, 0, 25)
  {
    hide Bit;
    if SameBits(a, b, 3, 28) {
      forall i: nat | 0 <= i < 25
        ensures Bit(a / 8, i) == Bit(b / 8, i)
      {
        Shifted(a, i + 3);
        Shifted(b, i + 3);
      }
    }
    if SameBits(a / 8, b / 8, 0, 25) {
      forall i: nat | 3 <= i < 28
        ensures Bit(a, i) == Bit(b, i)
      {
        Shifted(a, i);
        Shifted(b, i);
      }
    }
  }

  lemma TwentyFiveBits()
    ensures Pow2(25) == 0x200_0000
  {
    assert Pow2(5) == 32 && Pow2(10) == 32 * Pow2(5) && Pow2(15) == 32 * Pow2(10) && Pow2(20) == 32 * Pow2(15)
           && Pow2(25) == 32 * Pow2(20);
  }

  lemma GranuleIs(a: nat)
    ensures Granule(a) == 8 * Low(a / 8, 25)
  {
    hide Granule, Low, Pow2;
    TwentyFiveBits();
    LowIs(a / 8, 25);
    GranuleDivides(a);
  }

  lemma GranuleDivides(a: nat)
    ensures Granule(a) == 8 * ((a / 8) % 0x200_0000)
  {
    var q := a / 0x1000_0000;
    var r := a % 0x1000_0000;
    assert a == 8 * (0x200_0000 * q) + r && a / 8 == 0x200_0000 * q + r / 8 && r / 8 < 0x200_0000;
  }

  lemma GranuleBits(a: nat, b: nat)
    ensures Granule(a) != Granule(b) <==> Differ(a, b)
  {
    hide Granule, Low, SameBits;
    LowBits(a / 8, b / 8, 25);
    GranuleIs(a);
    GranuleIs(b);
    ShiftedBits(a, b);
  }

  /** After an LDREX of a, and with nothing but plain stores in between, a STREX of b by the same thread
      throws exactly if a and b differ in a bit of 0xffffff8; otherwise it stores. A second STREX
      stores nothing. */
  lemma StrexExact(m: Machine, a: nat, b: nat, stores: seq<Event>, v: nat, watched: nat)
    requires forall e | e in stores :: e.Store?
    ensures var r := Run(m, [Ldrex(a)] + stores, watched);
            && r.Ok?
            && var s := Step(r.value, Strex(b, v), watched);
            && (s == NonExclusiveAddress <==> Differ(a, b))
            && (!Differ(a, b) ==>
                  && s.Ok? && s.value.memory == r.value.memory[b := v]
                  && forall w :: Step(s.value, Strex(b, w), watched).Ok?
                                 && Step(s.value, Strex(b, w), watched).value.memory == s.value.memory)
  {
    hide Granule, Run, Differ;
    PairSucceeds(m, a, stores, v, watched);
    GranuleBits(a, b);
  }

  // ---------------------------------------------------------------------------
  // Memory
  // ---------------------------------------------------------------------------

  /** Event k of the run stores to address a: a plain store, or a STREX that is performed. */
  ghost predicate WritesAt(m: Machine, es: seq<Event>, k: nat, a: nat, watched: nat) {
    && k < |es| && Run(m, es[..k], watched).Ok?
    && (es[k].Store? || Performed(Run(m, es[..k], watched).value, es[k])) && es[k].addr == a
  }

  lemma StepWrites(m: Machine, e: Event, a: nat, watched: nat)
    requires Step(m, e, watched).Ok?
    ensures ReadWord(Step(m, e, watched).value.memory, a)
            == if (e.Store? || Performed(m, e)) && e.addr == a then e.value else ReadWord(m.memory, a)
  {
    hide Granule;
  }

  /** What a thread reads is what was stored last: after any run in which event i was the last to store to a, an LDREX of a
      reads the value of that store, and the word from the start if there was no such event. */
  lemma {:induction false} ReadsLastWrite(m: Machine, es: seq<Event>, i: int, a: nat, watched: nat)
    requires Run(m, es, watched).Ok? && -1 <= i < |es| && (i >= 0 ==> WritesAt(m, es, i, a, watched))
    requires forall k: nat | i < k < |es| :: !WritesAt(m, es, k, a, watched)
    ensures i >= 0 ==> es[i].Store? || es[i].Strex?
    ensures var s := Run(m, es, watched).value;
            var word := if i >= 0 then es[i].value else ReadWord(m.memory, a);
            && ReadWord(s.memory, a) == word
            && Step(s, Ldrex(a), watched).Ok? && ContextOf(Step(s, Ldrex(a), watched).value, s.active).last == Some((a, word))
    decreases |es|
  {
    if es != [] {
      var n := |es| - 1;
      var before := es[..n];
      StepWrites(Run(m, before, watched).value, es[n], a, watched);
      if i < n {
        assert !WritesAt(m, es, n, a, watched);
        forall k: nat | k < n
          ensures WritesAt(m, before, k, a, watched) == WritesAt(m, es, k, a, watched)
        {
          assert before[..k] == es[..k] && before[k] == es[k];
        }
        ReadsLastWrite(m, before, i, a, watched);
      }
    }
  }

  // ---------------------------------------------------------------------------
  // A counter
  // ---------------------------------------------------------------------------

  /** Event e keeps to the protocol for a counter at c: plain stores leave it alone, and an exclusive
      store to it stores one more than what the thread's last LDREX read there. */
  predicate Disciplined(m: Machine, e: Event, c: nat) {
    match e
    case Store(a, _) => a != c
    case Strex(a, v) =>
      a == c ==> (var last := ContextOf(m, m.active).last;
                  last.Some? && last.value.0 == c && v == (last.value.1 + 1) % WORD)
    case _ => true
  }

  ghost predicate AllDisciplined(m: Machine, es: seq<Event>, c: nat) {
    forall k | 0 <= k < |es| ::
      Run(m, es[..k], c).Ok? ==> Disciplined(Run(m, es[..k], c).value, es[k], c)
  }

  /** The counter is right, and what a thread with a set monitor has read of it is up to date. */
  ghost predicate CounterOk(m: Machine, c: nat, init: nat) {
    && ReadWord(m.memory, c) == (init + m.stored) % WORD
    && forall t :: ContextOf(m, t).monitor.Some? ==>
                     && t == m.active && ContextOf(m, t).last.Some?
                     && (ContextOf(m, t).last.value.0 == c ==> ContextOf(m, t).last.value.1 == ReadWord(m.memory, c))
  }

  lemma StepCounts(m: Machine, e: Event, c: nat, init: nat)
    requires CounterOk(m, c, init) && Disciplined(m, e, c) && Step(m, e, c).Ok?
    ensures CounterOk(Step(m, e, c).value, c, init)
  {
    var m' := Step(m, e, c).value;
    forall t | ContextOf(m', t).monitor.Some?
      ensures t == m'.active && ContextOf(m', t).last.Some?
      ensures ContextOf(m', t).last.value.0 == c ==> ContextOf(m', t).last.value.1 == ReadWord(m'.memory, c)
    {
      assert t == m.active || ContextOf(m', t) == ContextOf(m, t);
    }
    if Performed(m, e) && e.addr == c {
      OneMore(init + m.stored);
    }
  }

  lemma OneMore(n: nat)
    ensures (n % WORD + 1) % WORD == (n + 1) % WORD
  {
  }

  /** In every interleaving that keeps to the protocol the counter is its initial value plus the
      number of exclusive stores to it that were performed. */
  lemma {:induction false} CounterCounts(memory: map<nat, nat>, active: nat, es: seq<Event>, c: nat)
    requires ReadWord(memory, c) < WORD
    requires AllDisciplined(Start(memory, active), es, c) && Run(Start(memory, active), es, c).Ok?
    ensures var m := Run(Start(memory, active), es, c).value;
            && ReadWord(m.memory, c) == (ReadWord(memory, c) + m.stored) % WORD
            && CounterOk(m, c, ReadWord(memory, c))
    decreases |es|
  {
    var m0 := Start(memory, active);
    if es != [] {
      var before := es[..|es| - 1];
      var last := |es| - 1;
      assert AllDisciplined(m0, before, c) by {
        forall k | 0 <= k < |before| && Run(m0, before[..k], c).Ok?
          ensures Disciplined(Run(m0, before[..k], c).value, before[k], c)
        {
          assert before[..k] == es[..k];
        }
      }
      assert Run(m0, before, c).Ok?;
      CounterCounts(memory, active, before, c);
      assert es[..last] == before;
      assert Disciplined(Run(m0, before, c).value, es[last], c);
      StepCounts(Run(m0, before, c).value, es[last], c, ReadWord(memory, c));
    }
  }

  /** A step that leaves the monitor set, other than an LDREX or a switch, found it set and did not write c. */
  lemma MonitorWasSet(m: Machine, e: Event, c: nat)
    requires Step(m, e, c).Ok? && !Switches(e) && !e.Ldrex? && (e.Store? ==> e.addr != c)
    requires ContextOf(Step(m, e, c).value, m.active).monitor.Some?
    ensures ContextOf(m, m.active).monitor.Some? && Step(m, e, c).value.active == m.active
    ensures ReadWord(Step(m, e, c).value.memory, c) == ReadWord(m.memory, c)
  {
  }

  /** While the monitor of an undisturbed LDREX is set, the word at c stays. */
  lemma {:induction false} WordStays(m0: Machine, es: seq<Event>, c: nat, i: nat)
    requires i < |es| && Run(m0, es, c).Ok? && (forall k | i < k < |es| :: !Switches(es[k]) && !es[k].Ldrex?)
    requires es[i].Ldrex? && forall k | i <= k < |es| :: es[k].Store? ==> es[k].addr != c
    requires var m := Run(m0, es, c).value; ContextOf(m, m.active).monitor.Some?
    ensures Run(m0, es[..i], c).Ok? && ReadWord(Run(m0, es[..i], c).value.memory, c) == ReadWord(Run(m0, es, c).value.memory, c)
    decreases |es|
  {
    var before := es[..|es| - 1];
    if i == |es| - 1 {
      assert es[..i] == before;
    } else {
      var m := Run(m0, before, c).value;
      MonitorWasSet(m, es[|es| - 1], c);
      WordStays(m0, before, c, i);
      assert before[..i] == es[..i];
    }
  }

  /** Event i is the last LDREX of c by thread t, and reads v. */
  ghost predicate LastRead(m0: Machine, es: seq<Event>, c: nat, i: nat, t: nat, v: nat) {
    && i < |es| && es[i] == Ldrex(c) && Run(m0, es[..i], c).Ok? && Run(m0, es[..i], c).value.active == t
    && v == ReadWord(Run(m0, es[..i], c).value.memory, c)
    && forall k | i < k < |es| && es[k] == Ldrex(c) :: Run(m0, es[..k], c).Ok? ==> Run(m0, es[..k], c).value.active != t
  }

  /** Event j is an LDREX of another word of the granule of c by thread t. */
  ghost predicate ReadsNeighbour(m0: Machine, es: seq<Event>, c: nat, j: nat, t: nat) {
    && j < |es| && es[j].Ldrex? && es[j].addr != c && Granule(es[j].addr) == Granule(c)
    && Run(m0, es[..j], c).Ok? && Run(m0, es[..j], c).value.active == t
  }

  /** Thread t executed LDREX on another word of the granule of c after event i. */
  ghost predicate NeighbourRead(m0: Machine, es: seq<Event>, c: nat, i: nat, t: nat) {
    exists j: nat :: i < j && ReadsNeighbour(m0, es, c, j, t)
  }

  lemma StaleNeedsNeighbour(memory: map<nat, nat>, active: nat, es: seq<Event>, c: nat, i: nat, v: nat, w: nat)
    requires Run(Start(memory, active), es, c).Ok? && (forall k | 0 <= k < |es| :: es[k].Store? ==> es[k].addr != c)
    requires var m := Run(Start(memory, active), es, c).value;
             LastRead(Start(memory, active), es, c, i, m.active, v) && Performed(m, Strex(c, w))
    ensures var m := Run(Start(memory, active), es, c).value;
            ReadWord(m.memory, c) != v ==> NeighbourRead(Start(memory, active), es, c, i, m.active)
  {
    hide Run, Step, ReadWord;
    var m0 := Start(memory, active);
    var m := Run(m0, es, c).value;
    StoreUndisturbed(memory, active, es, Strex(c, w), c);
    var j: nat :| && Undisturbed(es, j, Granule(c))
                  && forall k | j <= k <= |es| :: Run(m0, es[..k], c).Ok? && Run(m0, es[..k], c).value.active == m.active;
    if es[j].addr == c {
      assert es[j] == Ldrex(c) && Run(m0, es[..j], c).Ok? && Run(m0, es[..j], c).value.active == m.active;
      assert j == i;
      WordStays(m0, es, c, i);
    } else {
      assert Run(m0, es[..j], c).Ok? && Run(m0, es[..j], c).value.active == m.active;
      assert ReadsNeighbour(m0, es, c, j, m.active);
    }
  }

  lemma StoredCounts(m: Machine, c: nat, v: nat)
    requires ReadWord(m.memory, c) < WORD && v < WORD && Performed(m, Strex(c, (v + 1) % WORD))
    ensures var r := Step(m, Strex(c, (v + 1) % WORD), c);
            r.Ok? && (ReadWord(r.value.memory, c) == (ReadWord(m.memory, c) + 1) % WORD <==> ReadWord(m.memory, c) == v)
  {
    NextDiffers(ReadWord(m.memory, c), v);
  }

  /** A thread stores to c one more than what its last LDREX of c, at event i, read there, and the store is
      performed. The update counts exactly if the word at c is still that one; and if it is not,
      the thread executed LDREX on another word of the granule in between. */
  lemma LostUpdateExactly(memory: map<nat, nat>, active: nat, es: seq<Event>, c: nat, i: nat, v: nat)
    requires Run(Start(memory, active), es, c).Ok? && (forall k | 0 <= k < |es| :: es[k].Store? ==> es[k].addr != c)
    requires var m := Run(Start(memory, active), es, c).value;
             && LastRead(Start(memory, active), es, c, i, m.active, v) && v < WORD && ReadWord(m.memory, c) < WORD
             && Performed(m, Strex(c, (v + 1) % WORD))
    ensures var m := Run(Start(memory, active), es, c).value;
            var r := Step(m, Strex(c, (v + 1) % WORD), c);
            && r.Ok? && (ReadWord(r.value.memory, c) == (ReadWord(m.memory, c) + 1) % WORD <==> ReadWord(m.memory, c) == v)
            && (ReadWord(m.memory, c) != v ==> NeighbourRead(Start(memory, active), es, c, i, m.active))
  {
    hide Run, LastRead, NeighbourRead, Step, Performed;
    StaleNeedsNeighbour(memory, active, es, c, i, v, (v + 1) % WORD);
    StoredCounts(Run(Start(memory, active), es, c).value, c, v);
  }

  lemma NextDiffers(a: nat, b: nat)
    requires a < WORD && b < WORD
    ensures (b + 1) % WORD == (a + 1) % WORD <==> a == b
  {
  }

  /** Thread 1 read the counter at 0, was preempted, and thread 2 incremented it. */
  function Halfway(): Machine {
    var read := Context(None, Some((0, 0)));
    Machine(map[0 := 1], map[1 := read, 2 := read], 2, 1)
  }

  lemma HalfwayReached()
    ensures Run(Start(map[], 1), [Ldrex(0), Preempt(2), Ldrex(0), Strex(0, 1)], 0) == Ok(Halfway())
  {
    var m0 := Start(map[], 1);
    var read, marked := Context(None, Some((0, 0))), Context(Some(0), Some((0, 0)));
    var m1 := Machine(map[], map[1 := marked], 1, 0);
    var m2 := Machine(map[], map[1 := read], 2, 0);
    var m3 := Machine(map[], map[1 := read, 2 := marked], 2, 0);
    assert Granule(0) == 0;
    assert Step(m0, Ldrex(0), 0) == Ok(m1);
    assert Step(m1, Preempt(2), 0) == Ok(m2) by { assert map[1 := marked][1 := read] == map[1 := read]; }
    assert Step(m2, Ldrex(0), 0) == Ok(m3) by { assert map[1 := read][2 := marked] == m3.contexts; }
    assert Step(m3, Strex(0, 1), 0) == Ok(Halfway()) by { assert m3.contexts[2 := read] == Halfway().contexts; }
    hide Step;
    var es := [Ldrex(0), Preempt(2), Ldrex(0), Strex(0, 1)];
    assert es[..1][..0] == [] && Run(m0, es[..1], 0) == Ok(m1);
    assert es[..2][..1] == es[..1] && Run(m0, es[..2], 0) == Ok(m2);
    assert es[..3][..2] == es[..2] && Run(m0, es[..3], 0) == Ok(m3);
  }

  /** Two words of one granule: if thread 1 now executes LDREX on the second word, its store of the
      stale value to the first one is performed, and an update is lost. */
  lemma NeighbourLosesUpdate()
    ensures var r := Run(Halfway(), [Preempt(1), Ldrex(4), Strex(0, 1)], 0);
            r.Ok? && r.value.stored == 2 && ReadWord(r.value.memory, 0) == 1
  {
    var read := Context(None, Some((0, 0)));
    var m5 := Halfway().(active := 1);
    var m6 := Machine(map[0 := 1], map[1 := Context(Some(0), Some((4, 0))), 2 := read], 1, 1);
    var m7 := Machine(map[0 := 1], map[1 := Context(None, Some((4, 0))), 2 := read], 1, 2);
    assert Granule(0) == 0 && Granule(4) == 0;
    assert Step(Halfway(), Preempt(1), 0) == Ok(m5) by { assert Halfway().contexts[2 := read] == Halfway().contexts; }
    assert Step(m5, Ldrex(4), 0) == Ok(m6) by { assert m5.contexts[1 := Context(Some(0), Some((4, 0)))] == m6.contexts; }
    assert Step(m6, Strex(0, 1), 0) == Ok(m7) by {
      assert m6.contexts[1 := Context(None, Some((4, 0)))] == m7.contexts;
      assert m6.memory[0 := 1] == m7.memory;
    }
    hide Step;
    var es := [Preempt(1), Ldrex(4), Strex(0, 1)];
    assert es[..1][..0] == [] && Run(Halfway(), es[..1], 0) == Ok(m5);
    assert es[..2][..1] == es[..1] && Run(Halfway(), es[..2], 0) == Ok(m6);
  }
}
