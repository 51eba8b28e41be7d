/**
  LDM and STM of the interpreter, against section A5.4 of the ARM Architecture
  Reference Manual (ARM DDI 0100). Memory is a map from addresses to words.
 */
module LoadStoreMultiple {

  const WORD: nat := 0x1_0000_0000

  type Memory = map<nat, nat>

  /** The registers; reg[15] is the address of the current instruction. `user` are the user mode
      registers 8 to 14 for a privileged mode. */
  datatype Cpu = Cpu(reg: seq<nat>, user: seq<nat>, privileged: bool, thumb: bool)

  /** Addressing mode bits P, U and W, the base register, and the register list; the S bit is clear. */
  datatype Instr = Instr(load: bool, p: bool, u: bool, w: bool, rn: nat, list: seq<bool>)

  datatype Outcome = Unpredictable | Done(cpu: Cpu, memory: Memory, nextPc: nat)

  predicate CpuOk(c: Cpu) {
    |c.reg| == 16 && |c.user| == 7
  }

  predicate InstrOk(n: Instr) {
    n.rn < 16 && |n.list| == 16
  }

  function ReadWord(m: Memory, a: nat): nat {
    if a in m then m[a] else 0
  }

  function Fetch(c: Cpu, i: nat): nat
    requires CpuOk(c) && i < 16
  {
    if i == 15 then (c.reg[15] + 8) % WORD else c.reg[i]
  }

  /** The word that STM writes for register i. */
  function Stored(c: Cpu, i: nat): nat
    requires CpuOk(c) && i < 16
  {
    if i != 15 && i >= 8 && c.privileged then c.user[i - 8] else Fetch(c, i)
  }

  /** a + d in 32-bit arithmetic. */
  function Wrap(a: int): (r: nat)
    ensures r < WORD
  {
    a % WORD
  }

  // ---------------------------------------------------------------------------
  // The reference manual
  // ---------------------------------------------------------------------------

  /** The listed registers from i on, lowest first. */
  function Listed(list: seq<bool>, i: nat): (rs: seq<nat>)
    requires i <= |list|
    ensures |rs| <= |list| - i
    ensures forall k | 0 <= k < |rs| :: i <= rs[k] < |list| && list[rs[k]]
    ensures forall j, k | 0 <= j < k < |rs| :: rs[j] < rs[k]
    decreases |list| - i
  {
    if i == |list| then [] else (if list[i] then [i] else []) + Listed(list, i + 1)
  }

  /** Lowest address of the transfer: IA, IB, DA and DB. */
  function StartAddress(p: bool, u: bool, base: nat, n: nat): (r: nat)
    ensures r < WORD
  {
    if u then Wrap(base + if p then 4 else 0) else Wrap(base - 4 * n + if p then 0 else 4)
  }

  /** The written back base. */
  function NewBase(u: bool, base: nat, n: nat): nat {
    Wrap(if u then base + 4 * n else base - 4 * n)
  }

  /** The address for the k-th listed register. */
  function Slot(start: int, k: int): nat {
    Wrap(start + 4 * k)
  }

  // ---------------------------------------------------------------------------
  // The handler
  // ---------------------------------------------------------------------------

  /** The transfers for registers i to 15, the next of them at address a. */
  function StoreFrom(c: Cpu, m: Memory, list: seq<bool>, i: nat, a: nat): Memory
    requires CpuOk(c) && |list| == 16 && i <= 16
    decreases 16 - i
  {
    if i == 16 then m
    else if !list[i] then StoreFrom(c, m, list, i + 1, a)
    else StoreFrom(c, m[a := Stored(c, i)], list, i + 1, Wrap(a + 4))
  }

  function LoadFrom(c: Cpu, m: Memory, list: seq<bool>, i: nat, a: nat, nextPc: nat): (Cpu, nat)
    requires CpuOk(c) && |list| == 16 && i <= 16
    decreases 16 - i
  {
    if i == 16 then (c, nextPc)
    else if !list[i] then LoadFrom(c, m, list, i + 1, a, nextPc)
    else
      var v := ReadWord(m, a);
      if i == 15 then LoadFrom(c.(thumb := v % 2 == 1), m, list, i + 1, Wrap(a + 4), v - v % 2)
      else LoadFrom(c.(reg := c.reg[i := v]), m, list, i + 1, Wrap(a + 4), nextPc)
  }

  /** The variable `addr` of the handler after registers i to 15. */
  function AddressAfter(list: seq<bool>, u: bool, i: nat, addr: nat): nat
    requires |list| == 16 && i <= 16
    decreases 16 - i
  {
    if i == 16 then addr
    else if !list[i] then AddressAfter(list, u, i + 1, addr)
    else AddressAfter(list, u, i + 1, Wrap(if u then addr + 4 else addr - 4))
  }

  /** The number of listed registers among i to 15, as the handler counts them. */
  function CountFrom(list: seq<bool>, i: nat): nat
    requires |list| == 16 && i <= 16
    decreases 16 - i
  {
    if i == 16 then 0 else (if list[i] then 1 else 0) + CountFrom(list, i + 1)
  }

  /** Where the handler starts: addr - (U ? 0 : 1) * 4 * (n - 1) + (U ? 4 : -4) * P. */
  function FirstAddress(p: bool, u: bool, base: nat, n: nat): nat {
    Wrap(base - (if u then 0 else 1) * 4 * (n - 1) + (if u then 4 else -4) * (if p then 1 else 0))
  }

  function Execute(c: Cpu, m: Memory, n: Instr): Outcome
    requires CpuOk(c) && InstrOk(n)
  {
    var base := Fetch(c, n.rn);
    var count := CountFrom(n.list, 0);
    if count == 0 then Unpredictable
    else
      var a := FirstAddress(n.p, n.u, base, count);
      var next := (c.reg[15] + 4) % WORD;
      var (c1, pc) := if n.load then LoadFrom(c, m, n.list, 0, a, next) else (c, next);
      var m1 := if n.load then m else StoreFrom(c, m, n.list, 0, a);
      var c2 := if n.w && |c1.reg| == 16 then c1.(reg := c1.reg[n.rn := AddressAfter(n.list, n.u, 0, base)]) else c1;
      Done(c2, m1, pc)
  }

  // ---------------------------------------------------------------------------
  // Addresses
  // ---------------------------------------------------------------------------

  lemma {:induction false} CountIsListed(list: seq<bool>, i: nat)
    requires |list| == 16 && i <= 16
    ensures CountFrom(list, i) == |Listed(list, i)|
    decreases 16 - i
  {
    if i < 16 {
      CountIsListed(list, i + 1);
    }
  }

  /** The handler starts at the manual's lowest address in all four modes. */
  lemma FirstIsStart(p: bool, u: bool, base: nat, n: nat)
    ensures FirstAddress(p, u, base, n) == StartAddress(p, u, base, n)
  {
    if !u {
      assert base - 4 * (n - 1) + (if p then -4 else 0) == base - 4 * n + (if p then 0 else 4);
    }
  }

  lemma WrapTwice(a: int, d: int)
    ensures Wrap(Wrap(a) + d) == Wrap(a + d)
  {
    var q := a / WORD;
    assert a == q * WORD + Wrap(a);
    var b := Wrap(a) + d;
    assert a + d == q * WORD + b;
    var r := b / WORD;
    assert a + d == (q + r) * WORD + Wrap(b);
  }

  lemma {:induction false} AddressIsNewBase(list: seq<bool>, u: bool, i: nat, addr: nat)
    requires |list| == 16 && i <= 16 && addr < WORD
    ensures AddressAfter(list, u, i, addr) == NewBase(u, addr, |Listed(list, i)|)
    decreases 16 - i
  {
    if i < 16 {
      if list[i] {
        var n := |Listed(list, i + 1)|;
        assert |Listed(list, i)| == n + 1;
        AddressIsNewBase(list, u, i + 1, Wrap(if u then addr + 4 else addr - 4));
        WrapTwice(addr + 4, 4 * n);
        WrapTwice(addr - 4, -4 * n);
      } else {
        AddressIsNewBase(list, u, i + 1, addr);
      }
    }
  }

  lemma SlotNext(a: int, k: int)
    ensures Slot(Wrap(a + 4), k) == Slot(a, k + 1)
  {
    WrapTwice(a + 4, 4 * k);
  }

  /** Sixteen words in a row do not wrap onto each other. */
  lemma SlotsDiffer(a: int, j: nat, k: nat)
    requires j < k <= 16
    ensures Slot(a, j) != Slot(a, k)
  {
    WrapTwice(a, 4 * j);
    WrapTwice(a, 4 * k);
  }

  // ---------------------------------------------------------------------------
  // Storing
  // ---------------------------------------------------------------------------

  /** What memory holds after a store of the registers rs from address a on. */
  ghost predicate StoredAt(c: Cpu, m: Memory, m': Memory, rs: seq<nat>, a: nat)
    requires CpuOk(c) && forall k | 0 <= k < |rs| :: rs[k] < 16
  {
    && (forall k | 0 <= k < |rs| :: ReadWord(m', Slot(a, k)) == Stored(c, rs[k]))
    && (forall x: nat :: (forall k | 0 <= k < |rs| :: x != Slot(a, k)) ==> ReadWord(m', x) == ReadWord(m, x))
  }

  lemma {:induction false} StoreExact(c: Cpu, m: Memory, list: seq<bool>, i: nat, a: nat)
    requires CpuOk(c) && |list| == 16 && i <= 16 && a < WORD
    ensures StoredAt(c, m, StoreFrom(c, m, list, i, a), Listed(list, i), a)
    decreases 16 - i
  {
    hide Wrap, ReadWord, Slot, StoreFrom, StoredAt, Stored;
    if i == 16 {
      TransferEnds(c, m, list, a, 0, true, a);
      StoreNothing(c, m, a);
      assert Listed(list, i) == [];
    } else {
      StoreStep(c, m, list, i, a);
      if !list[i] {
        StoreExact(c, m, list, i + 1, a);
        assert Listed(list, i) == Listed(list, i + 1);
      } else {
        var m1 := m[a := Stored(c, i)];
        StoreExact(c, m1, list, i + 1, Wrap(a + 4));
        StoreOneMore(c, m, StoreFrom(c, m, list, i, a), i, Listed(list, i + 1), a);
      }
    }
  }

  lemma StoreNothing(c: Cpu, m: Memory, a: nat)
    requires CpuOk(c)
    ensures StoredAt(c, m, m, [], a)
  {
  }

  lemma StoreOneMore(c: Cpu, m: Memory, m': Memory, i: nat, rs: seq<nat>, a: nat)
    requires CpuOk(c) && i < 16 && (forall k | 0 <= k < |rs| :: rs[k] < 16) && |rs| < 16 && a < WORD
    requires StoredAt(c, m[a := Stored(c, i)], m', rs, Wrap(a + 4))
    ensures StoredAt(c, m, m', [i] + rs, a)
  {
    var all := [i] + rs;
    var b := Wrap(a + 4);
    SlotsShift(a, b, |rs|);
    hide Slot, Stored, Wrap;
    forall k | 0 <= k < |all|
      ensures ReadWord(m', Slot(a, k)) == Stored(c, all[k])
    {
      if k > 0 {
        assert Slot(b, k - 1) == Slot(a, k) && all[k] == rs[k - 1];
      }
    }
    forall x: nat | forall k | 0 <= k < |all| :: x != Slot(a, k)
      ensures ReadWord(m', x) == ReadWord(m, x)
    {
      assert x != Slot(a, 0);
      forall k | 0 <= k < |rs|
        ensures x != Slot(b, k)
      {
        var j := k + 1;
        assert x != Slot(a, j);
      }
    }
  }

  /** The slots behind the first one. */
  lemma SlotsShift(a: nat, b: nat, n: nat)
    requires a < WORD && b == Wrap(a + 4) && n < 16
    ensures Slot(a, 0) == a
    ensures forall j | 0 < j <= n :: Slot(a, j) == Slot(b, j - 1)
    ensures forall k | 0 <= k < n :: Slot(b, k) == Slot(a, k + 1) && Slot(b, k) != a
  {
    WrapSmall(a);
    forall k | 0 <= k < n
      ensures Slot(b, k) == Slot(a, k + 1) && Slot(b, k) != a
    {
      SlotNext(a, k);
      SlotsDiffer(a, 0, k + 1);
    }
    forall j | 0 < j <= n
      ensures Slot(a, j) == Slot(b, j - 1)
    {
      SlotNext(a, j - 1);
    }
  }

  lemma WrapSmall(a: nat)
    requires a < WORD
    ensures Slot(a, 0) == a
  {
  }

  // ---------------------------------------------------------------------------
  // Loading
  // ---------------------------------------------------------------------------

  /** What the registers other than `skip` hold after a load of rs from address a on. */
  ghost predicate LoadedFrom(c: Cpu, c': Cpu, m: Memory, rs: seq<nat>, a: nat, next: nat, pc: nat, skip: nat)
    requires CpuOk(c)
  {
    && CpuOk(c') && c'.user == c.user && c'.privileged == c.privileged
    && (forall k | 0 <= k < |rs| && rs[k] < 15 && rs[k] != skip :: c'.reg[rs[k]] == ReadWord(m, Slot(a, k)))
    && (forall k | 0 <= k < |rs| && rs[k] == 15 :: Jumped(c', pc, ReadWord(m, Slot(a, k))))
    && (forall r | 0 <= r < 16 && (r !in rs || r == 15) && r != skip :: c'.reg[r] == c.reg[r])
    && (15 !in rs ==> pc == next && c'.thumb == c.thumb)
  }

  /** The loaded word v decides about the next instruction and its encoding. */
  predicate Jumped(c: Cpu, pc: nat, v: nat) {
    pc == v - v % 2 && c.thumb == (v % 2 == 1)
  }

  lemma {:induction false} LoadExact(c: Cpu, m: Memory, list: seq<bool>, i: nat, a: nat, next: nat)
    requires CpuOk(c) && |list| == 16 && i <= 16 && a < WORD
    ensures var (c', pc) := LoadFrom(c, m, list, i, a, next);
            LoadedFrom(c, c', m, Listed(list, i), a, next, pc, 16)
    decreases 16 - i
  {
    hide Wrap, ReadWord, Slot, LoadFrom, LoadedFrom;
    if i == 16 {
      TransferEnds(c, m, list, a, next, true, a);
      LoadNothing(c, m, a, next);
      assert Listed(list, i) == [];
    } else {
      LoadStep(c, m, list, i, a, next);
      if !list[i] {
        LoadExact(c, m, list, i + 1, a, next);
        assert Listed(list, i) == Listed(list, i + 1);
      } else {
        var v := ReadWord(m, a);
        var c1 := if i == 15 then c.(thumb := v % 2 == 1) else c.(reg := c.reg[i := v]);
        var next1 := if i == 15 then v - v % 2 else next;
        LoadExact(c1, m, list, i + 1, Wrap(a + 4), next1);
        var (c', pc) := LoadFrom(c1, m, list, i + 1, Wrap(a + 4), next1);
        LoadOneMore(c, c1, c', m, i, Listed(list, i + 1), a, next, next1, pc);
      }
    }
  }

  lemma LoadNothing(c: Cpu, m: Memory, a: nat, next: nat)
    requires CpuOk(c)
    ensures LoadedFrom(c, c, m, [], a, next, next, 16)
  {
  }

  lemma LoadOneMore(c: Cpu, c1: Cpu, c': Cpu, m: Memory, i: nat, rs: seq<nat>, a: nat, next: nat, next1: nat, pc: nat)
    requires CpuOk(c) && i < 16 && |rs| <= 15 - i && a < WORD && (forall k | 0 <= k < |rs| :: i < rs[k] < 16)
    requires var v := ReadWord(m, a);
             && c1 == (if i == 15 then c.(thumb := v % 2 == 1) else c.(reg := c.reg[i := v]))
             && next1 == if i == 15 then v - v % 2 else next
    requires LoadedFrom(c1, c', m, rs, Wrap(a + 4), next1, pc, 16)
    ensures LoadedFrom(c, c', m, [i] + rs, a, next, pc, 16)
  {
    var all := [i] + rs;
    var b := Wrap(a + 4);
    SlotsShift(a, b, |rs|);
    hide Wrap, ReadWord, Slot;
    if i == 15 {
      assert rs == [];
    } else {
      forall k | 0 <= k < |all| && all[k] < 15
        ensures c'.reg[all[k]] == ReadWord(m, Slot(a, k))
      {
        if k > 0 {
          assert Slot(b, k - 1) == Slot(a, k) && all[k] == rs[k - 1];
        }
      }
      forall k | 0 <= k < |all| && all[k] == 15
        ensures Jumped(c', pc, ReadWord(m, Slot(a, k)))
      {
        assert Slot(b, k - 1) == Slot(a, k) && all[k] == rs[k - 1];
      }
    }
  }

  // ---------------------------------------------------------------------------
  // The instruction as the manual describes it
  // ---------------------------------------------------------------------------

  lemma StmTransfers(c: Cpu, m: Memory, n: Instr)
    requires CpuOk(c) && InstrOk(n) && !n.load
    ensures var rs := Listed(n.list, 0);
            var base := Fetch(c, n.rn);
            var r := Execute(c, m, n);
            && (r.Unpredictable? <==> rs == [])
            && (r.Done? ==>
                  && StoredAt(c, m, r.memory, rs, StartAddress(n.p, n.u, base, |rs|))
                  && r.nextPc == (c.reg[15] + 4) % WORD
                  && (base < WORD ==> r.cpu == if n.w then c.(reg := c.reg[n.rn := NewBase(n.u, base, |rs|)]) else c))
  {
    hide LoadFrom, AddressAfter, NewBase, Listed, StartAddress, FirstAddress, Slot, ReadWord, Fetch, StoreFrom, CountFrom,
         StoredAt, Stored;
    var rs := Listed(n.list, 0);
    var base := Fetch(c, n.rn);
    CountIsListed(n.list, 0);
    FirstIsStart(n.p, n.u, base, |rs|);
    StoreExact(c, m, n.list, 0, StartAddress(n.p, n.u, base, |rs|));
    if base < WORD {
      AddressIsNewBase(n.list, n.u, 0, base);
    }
  }

  /** The stored words, spelt out. */
  lemma WordsStored(c: Cpu, m: Memory, m': Memory, rs: seq<nat>, a: nat)
    requires CpuOk(c) && forall k | 0 <= k < |rs| :: rs[k] < 16
    ensures StoredAt(c, m, m', rs, a)
            <==> && (forall k | 0 <= k < |rs| ::
                       ReadWord(m', Slot(a, k))
                       == if rs[k] == 15 then (c.reg[15] + 8) % WORD
                          else if rs[k] >= 8 && c.privileged then c.user[rs[k] - 8]
                          else c.reg[rs[k]])
                 && (forall x: nat :: (forall k | 0 <= k < |rs| :: x != Slot(a, k)) ==> ReadWord(m', x) == ReadWord(m, x))
  {
    hide ReadWord, Slot;
    assert forall k | 0 <= k < |rs| ::
        Stored(c, rs[k]) == if rs[k] == 15 then (c.reg[15] + 8) % WORD
                            else if rs[k] >= 8 && c.privileged then c.user[rs[k] - 8]
                            else c.reg[rs[k]];
  }

  /** STM writes the k-th listed register to the start address plus 4k, in all four addressing modes,
      and changes nothing else but the written back base. The program counter reads as the address of the
      instruction plus 8, and a privileged mode stores the user mode registers from 8 on. */
  lemma StmExact(c: Cpu, m: Memory, n: Instr)
    requires CpuOk(c) && InstrOk(n) && !n.load
    ensures var rs := Listed(n.list, 0);
            var base := if n.rn == 15 then (c.reg[15] + 8) % WORD else c.reg[n.rn];
            var r := Execute(c, m, n);
            && (r.Unpredictable? <==> rs == [])
            && (r.Done? ==>
                  && var start := StartAddress(n.p, n.u, base, |rs|);
                  && (forall k | 0 <= k < |rs| ::
                        ReadWord(r.memory, Slot(start, k))
                        == if rs[k] == 15 then (c.reg[15] + 8) % WORD
                           else if rs[k] >= 8 && c.privileged then c.user[rs[k] - 8]
                           else c.reg[rs[k]])
                  && (forall x: nat :: (forall k | 0 <= k < |rs| :: x != Slot(start, k)) ==> ReadWord(r.memory, x) == ReadWord(m, x))
                  && r.nextPc == (c.reg[15] + 4) % WORD
                  && (base < WORD ==> r.cpu == if n.w then c.(reg := c.reg[n.rn := NewBase(n.u, base, |rs|)]) else c))
  {
    hide Execute, NewBase, Listed, StartAddress, Slot, ReadWord, StoredAt;
    StmTransfers(c, m, n);
    var r := Execute(c, m, n);
    var rs := Listed(n.list, 0);
    if r.Done? {
      WordsStored(c, m, r.memory, rs, StartAddress(n.p, n.u, Fetch(c, n.rn), |rs|));
    }
  }

  lemma LdmTransfers(c: Cpu, m: Memory, n: Instr)
    requires CpuOk(c) && InstrOk(n) && n.load
    ensures var rs := Listed(n.list, 0);
            var base := Fetch(c, n.rn);
            var r := Execute(c, m, n);
            && (r.Unpredictable? <==> rs == [])
            && (r.Done? ==>
                  && r.memory == m
                  && LoadedFrom(c, r.cpu, m, rs, StartAddress(n.p, n.u, base, |rs|), (c.reg[15] + 4) % WORD, r.nextPc,
                                if n.w then n.rn else 16)
                  && (n.w && base < WORD ==> r.cpu.reg[n.rn] == NewBase(n.u, base, |rs|)))
  {
    hide LoadFrom, AddressAfter, NewBase, Listed, StartAddress, FirstAddress, Slot, ReadWord, Fetch, StoreFrom, CountFrom;
    var rs := Listed(n.list, 0);
    var base := Fetch(c, n.rn);
    CountIsListed(n.list, 0);
    FirstIsStart(n.p, n.u, base, |rs|);
    var start, next := StartAddress(n.p, n.u, base, |rs|), (c.reg[15] + 4) % WORD;
    LoadExact(c, m, n.list, 0, start, next);
    if base < WORD {
      AddressIsNewBase(n.list, n.u, 0, base);
    }
    var (c1, pc) := LoadFrom(c, m, n.list, 0, start, next);
    if rs != [] && n.w {
      SkipOne(c, c1, m, rs, start, next, pc, n.rn, AddressAfter(n.list, n.u, 0, base));
    }
  }

  /** LDM reads the k-th listed register from the start address plus 4k, in all four addressing modes. */
  lemma LdmExact(c: Cpu, m: Memory, n: Instr)
    requires CpuOk(c) && InstrOk(n) && n.load
    ensures var rs := Listed(n.list, 0);
            var base := if n.rn == 15 then (c.reg[15] + 8) % WORD else c.reg[n.rn];
            var r := Execute(c, m, n);
            && (r.Unpredictable? <==> rs == [])
            && (r.Done? ==>
                  && r.memory == m
                  && LoadedFrom(c, r.cpu, m, rs, StartAddress(n.p, n.u, base, |rs|), (c.reg[15] + 4) % WORD, r.nextPc,
                                if n.w then n.rn else 16)
                  && (n.w && base < WORD ==> r.cpu.reg[n.rn] == NewBase(n.u, base, |rs|)))
  {
    hide Execute, NewBase, Listed, StartAddress, Slot, ReadWord, LoadedFrom;
    assert CpuOk(c) && InstrOk(n);
    LdmTransfers(c, m, n);
  }

  lemma SkipOne(c: Cpu, c1: Cpu, m: Memory, rs: seq<nat>, a: nat, next: nat, pc: nat, rn: nat, v: nat)
    requires CpuOk(c) && rn < 16 && LoadedFrom(c, c1, m, rs, a, next, pc, 16)
    ensures LoadedFrom(c, c1.(reg := c1.reg[rn := v]), m, rs, a, next, pc, rn)
  {
    hide ReadWord, Slot;
  }

  // ---------------------------------------------------------------------------
  // Push and pop
  // ---------------------------------------------------------------------------

  lemma PushPopAddresses(base: nat, n: nat)
    requires base < WORD
    ensures StartAddress(true, false, base, n) == NewBase(false, base, n)
    ensures StartAddress(false, true, NewBase(false, base, n), n) == NewBase(false, base, n)
    ensures NewBase(true, NewBase(false, base, n), n) == base
  {
    WrapTwice(base - 4 * n, 4 * n);
  }

  /** STMDB and then LDMIA with write-back of a list without base and program counter: whatever happens
      to the registers other than the base in between, the base is restored, and the listed
      registers are all restored exactly if the mode is not privileged or the user mode's
      registers agree with them, since a privileged mode saves those. */
  lemma PushPopRestores(c: Cpu, m: Memory, rn: nat, list: seq<bool>, c1: Cpu)
    requires CpuOk(c) && rn < 15 && |list| == 16 && !list[rn] && !list[15] && Listed(list, 0) != []
    requires c.reg[rn] < WORD && CpuOk(c1)
    requires var push := Instr(false, true, false, true, rn, list);
             Execute(c, m, push).Done? ==> |Execute(c, m, push).cpu.reg| == 16 && c1.reg[rn] == Execute(c, m, push).cpu.reg[rn]
    ensures var push := Instr(false, true, false, true, rn, list);
            var pop := Instr(true, false, true, true, rn, list);
            var pushed := Execute(c, m, push);
            && pushed.Done?
            && var popped := Execute(c1, pushed.memory, pop);
            && popped.Done? && |popped.cpu.reg| == 16
            && popped.cpu.reg[rn] == c.reg[rn]
            && ((forall r | 0 <= r < 16 && list[r] :: popped.cpu.reg[r] == c.reg[r])
                <==> (c.privileged ==> forall r | 8 <= r < 15 && list[r] :: c.user[r - 8] == c.reg[r]))
            && (forall r | 0 <= r < 16 && !list[r] && r != rn :: popped.cpu.reg[r] == c1.reg[r])
  {
    var rs := Listed(list, 0);
    var push := Instr(false, true, false, true, rn, list);
    var pop := Instr(true, false, true, true, rn, list);
    StmTransfers(c, m, push);
    LdmTransfers(c1, Execute(c, m, push).memory, pop);
    PushPopAddresses(c.reg[rn], |rs|);
    ListedAll(list);
    hide Execute, StartAddress, NewBase, Slot, ReadWord, Listed;
    var low := NewBase(false, c.reg[rn], |rs|);
    var pushed := Execute(c, m, push);
    assert pushed.cpu.reg[rn] == low;
    var popped := Execute(c1, pushed.memory, pop);
    assert LoadedFrom(c1, popped.cpu, pushed.memory, rs, low, (c1.reg[15] + 4) % WORD, popped.nextPc, rn);
    forall r | 0 <= r < 16 && list[r]
      ensures popped.cpu.reg[r] == Stored(c, r)
    {
      assert r in rs;
      var k :| 0 <= k < |rs| && rs[k] == r;
      assert ReadWord(pushed.memory, Slot(low, k)) == Stored(c, rs[k]);
    }
    SavedFaithfully(c, popped.cpu, list);
  }

  lemma SavedFaithfully(c: Cpu, c': Cpu, list: seq<bool>)
    requires CpuOk(c) && CpuOk(c') && |list| == 16 && !list[15]
    requires forall r | 0 <= r < 16 && list[r] :: c'.reg[r] == Stored(c, r)
    ensures (forall r | 0 <= r < 16 && list[r] :: c'.reg[r] == c.reg[r])
            <==> (c.privileged ==> forall r | 8 <= r < 15 && list[r] :: c.user[r - 8] == c.reg[r])
  {
    if forall r | 0 <= r < 16 && list[r] :: c'.reg[r] == c.reg[r] {
      forall r | 8 <= r < 15 && list[r] && c.privileged
        ensures c.user[r - 8] == c.reg[r]
      {
        assert c'.reg[r] == Stored(c, r);
      }
    }
  }

  lemma ListedAll(list: seq<bool>)
    requires |list| == 16
    ensures forall r | 0 <= r < 16 :: list[r] <==> r in Listed(list, 0)
  {
    forall r | 0 <= r < 16
      ensures list[r] <==> r in Listed(list, 0)
    {
      ListedHas(list, 0, r);
    }
  }

  lemma {:induction false} ListedHas(list: seq<bool>, i: nat, r: nat)
    requires i <= r < |list|
    ensures list[r] <==> r in Listed(list, i)
    decreases |list| - i
  {
    if i < r {
      ListedHas(list, i + 1, r);
    }
  }

  // ---------------------------------------------------------------------------
  // The processor object
  // ---------------------------------------------------------------------------

  class Processor {
    var reg: seq<nat>
    var user: seq<nat>
    var privileged: bool
    var thumb: bool
    var memory: Memory

    ghost function View(): Cpu
      reads this
    {
      Cpu(reg, user, privileged, thumb)
    }

    /** The handler for LDM and STM; returns the next program counter, if there is one. */
    method HandleLdmStm(n: Instr) returns (ok: bool, nextPc: nat)
      requires CpuOk(View()) && InstrOk(n)
      modifies this
      ensures var r := Execute(old(View()), old(memory), n);
              && ok == r.Done?
              && (ok ==> View() == r.cpu && memory == r.memory && nextPc == r.nextPc)
              && (!ok ==> View() == old(View()) && memory == old(memory))
    {
      hide Wrap, LoadFrom, StoreFrom, AddressAfter, CountFrom, Stored, ReadWord, Fetch, FirstAddress;
      var base := Fetch(Cpu(reg, user, privileged, thumb), n.rn);
      var count := CountListed(n.list);
      nextPc := (reg[15] + 4) % WORD;
      if count == 0 {
        return false, nextPc;
      }
      var addr := base;
      var addr2 := FirstAddress(n.p, n.u, base, count);
      ghost var c0, m0, first, next0 := View(), memory, addr2, nextPc;
      var i: nat := 0;
      while i < 16
        invariant i <= 16 && CpuOk(View())
        invariant AddressAfter(n.list, n.u, i, addr) == AddressAfter(n.list, n.u, 0, base)
        invariant n.load ==> memory == m0
                             && LoadFrom(View(), m0, n.list, i, addr2, nextPc) == LoadFrom(c0, m0, n.list, 0, first, next0)
        invariant !n.load ==> View() == c0 && nextPc == next0
                              && StoreFrom(c0, memory, n.list, i, addr2) == StoreFrom(c0, m0, n.list, 0, first)
      {
        ghost var c := View();
        StoreStep(c, memory, n.list, i, addr2);
        LoadStep(c, memory, n.list, i, addr2, nextPc);
        AddressStep(n.list, n.u, i, addr);
        if n.list[i] {
          var step: int := if n.u then 4 else -4;
          addr := Wrap(addr as int + step);
          if n.load {
            var v := ReadWord(memory, addr2);
            if i == 15 {
              nextPc, thumb := v - v % 2, v % 2 == 1;
            } else {
              reg := reg[i := v];
            }
          } else {
            memory := memory[addr2 := Stored(Cpu(reg, user, privileged, thumb), i)];
          }
          addr2 := Wrap(addr2 + 4);
        }
        i := i + 1;
      }
      TransferEnds(View(), memory, n.list, addr2, nextPc, n.u, addr);
      if n.w {
        reg := reg[n.rn := addr];
      }
      ok := true;
    }
  }

  lemma StoreStep(c: Cpu, m: Memory, list: seq<bool>, i: nat, a: nat)
    requires CpuOk(c) && |list| == 16 && i < 16
    ensures StoreFrom(c, m, list, i, a)
            == if list[i] then StoreFrom(c, m[a := Stored(c, i)], list, i + 1, Wrap(a + 4)) else StoreFrom(c, m, list, i + 1, a)
  {
  }

  lemma LoadStep(c: Cpu, m: Memory, list: seq<bool>, i: nat, a: nat, next: nat)
    requires CpuOk(c) && |list| == 16 && i < 16
    ensures var v := ReadWord(m, a);
            LoadFrom(c, m, list, i, a, next)
            == if !list[i] then LoadFrom(c, m, list, i + 1, a, next)
               else if i == 15 then LoadFrom(c.(thumb := v % 2 == 1), m, list, i + 1, Wrap(a + 4), v - v % 2)
               else LoadFrom(c.(reg := c.reg[i := v]), m, list, i + 1, Wrap(a + 4), next)
  {
  }

  lemma AddressStep(list: seq<bool>, u: bool, i: nat, addr: nat)
    requires |list| == 16 && i < 16
    ensures AddressAfter(list, u, i, addr)
            == AddressAfter(list, u, i + 1, if list[i] then Wrap(if u then addr + 4 else addr - 4) else addr)
  {
  }

  lemma TransferEnds(c: Cpu, m: Memory, list: seq<bool>, a: nat, next: nat, u: bool, addr: nat)
    requires CpuOk(c) && |list| == 16
    ensures StoreFrom(c, m, list, 16, a) == m && LoadFrom(c, m, list, 16, a, next) == (c, next)
    ensures AddressAfter(list, u, 16, addr) == addr
  {
  }

  method CountListed(list: seq<bool>) returns (n: nat)
    requires |list| == 16
    ensures n == CountFrom(list, 0)
  {
    n := 0;
    var i: nat := 0;
    while i < 16
      invariant i <= 16 && n + CountFrom(list, i) == CountFrom(list, 0)
    {
      if list[i] {
        n := n + 1;
      }
      i := i + 1;
    }
  }
}
