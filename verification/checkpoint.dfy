/**
 * Checkpoint and rollback in dual mode: the context and the stack are saved by software and
 * restored by the boot ROM. Both are straight-line register code around one copy loop.
 */
module Checkpoint {
  import opened Registers

  /** A word as a number: the copy loops compare and advance addresses. */
  type UInt32 = w: int | 0 <= w < 0x1_0000_0000

  const MODULUS := 0x1_0000_0000

  function Wrap(v: int): (w: UInt32)
    ensures 0 <= v < MODULUS ==> w == v
  {
    v % MODULUS
  }

  // ---- control registers of the wrapper, as words of memory ----

  const CTRL: UInt32 := 0x2007_0000
  const SAFE_COPY := 0x28
  const DMR_REC := 0x34
  const INITIAL_STACK := 0x38

  function Gpr(x: map<nat, UInt32>, k: nat): UInt32 {
    if k != 0 && k in x then x[k] else 0
  }

  function CsrOf(csr: map<nat, UInt32>, j: nat): UInt32 {
    if j in csr then csr[j] else 0
  }

  function WordIn(mem: map<int, UInt32>, a: int): UInt32 {
    if a in mem then mem[a] else 0
  }

  /** Register rd takes the value v, and no other register changes. */
  ghost predicate Becomes(before: map<nat, UInt32>, after: map<nat, UInt32>, rd: nat, v: UInt32) {
    Gpr(after, rd) == v && forall k :: k != rd ==> Gpr(after, k) == Gpr(before, k)
  }

  /** The word at a takes the value v, and no other word changes. */
  ghost predicate Stored(before: map<int, UInt32>, after: map<int, UInt32>, a: int, v: UInt32) {
    WordIn(after, a) == v && forall b :: b != a ==> WordIn(after, b) == WordIn(before, b)
  }

  // ---- the save area at s: CSRs, x1 to x31, the resume address, then the stack ----

  ghost predicate CsrsSaved(mem: map<int, UInt32>, s: int, csr: map<nat, UInt32>, n: nat) {
    forall j :: 0 <= j < n ==> WordIn(mem, s + 4 * j) == CsrOf(csr, j)
  }

  ghost predicate RegsSaved(mem: map<int, UInt32>, s: int, x: map<nat, UInt32>, lo: nat, hi: nat) {
    forall k :: lo <= k <= hi ==> WordIn(mem, s + 16 + 4 * k) == Gpr(x, k)
  }

  ghost predicate HoldsFile(mem: map<int, UInt32>, s: int, x: map<nat, UInt32>, csr: map<nat, UInt32>, pc: UInt32) {
    CsrsSaved(mem, s, csr, CSR_COUNT) && RegsSaved(mem, s, x, 1, 31) && WordIn(mem, s + 144) == pc
  }

  /** The n words of `was` from `from` up are found from `to` up. */
  ghost predicate Copied(mem: map<int, UInt32>, to: int, was: map<int, UInt32>, from: int, n: int) {
    forall i :: 0 <= i < n ==> WordIn(mem, to + 4 * i) == WordIn(was, from + 4 * i)
  }

  /** Outside [lo, hi) and [lo', hi') memory is as before. */
  ghost predicate SameOutside(before: map<int, UInt32>, after: map<int, UInt32>, lo: int, hi: int, lo': int, hi': int) {
    forall a :: (a < lo || hi <= a) && (a < lo' || hi' <= a)
      ==> WordIn(after, a) == WordIn(before, a)
  }

  function AreaEnd(s: int, sp: int, base: int): int {
    s + 152 + (base - sp)
  }

  /** The words from sp to base, both included. */
  function StackWords(sp: int, base: int): int {
    (base - sp) / 4 + 1
  }

  predicate Apart(lo: int, hi: int, lo': int, hi': int) {
    hi <= lo' || hi' <= lo
  }

  /**
   * What both routines count on: aligned addresses, a stack pointer not above the initial one, and
   * stack (with the scratch words below it), save area and control registers apart from each other.
   */
  ghost predicate Laid(mem: map<int, UInt32>, sp: int, s: int, base: int) {
    && s == WordIn(mem, CTRL + SAFE_COPY) && base == WordIn(mem, CTRL + INITIAL_STACK)
    && sp % 4 == 0 && s % 4 == 0 && base % 4 == 0
    && 28 <= sp <= base && base + 4 <= MODULUS && AreaEnd(s, sp, base) <= MODULUS
    && Apart(sp - 28, base + 4, s, AreaEnd(s, sp, base))
    && Apart(CTRL, CTRL + 0x40, sp - 28, base + 4)
    && Apart(CTRL, CTRL + 0x40, s, AreaEnd(s, sp, base))
  }

  lemma LaidMeans(mem: map<int, UInt32>, sp: int, s: int, base: int) returns (w: int)
    requires Laid(mem, sp, s, base)
    ensures 0 <= w && base == sp + 4 * w && StackWords(sp, base) == w + 1
    ensures 28 <= sp && base + 4 <= MODULUS && 0 <= s && s + 152 + 4 * w <= MODULUS
    ensures s == WordIn(mem, CTRL + SAFE_COPY) && base == WordIn(mem, CTRL + INITIAL_STACK)
    ensures Apart(sp - 28, base + 4, s, s + 152 + 4 * w)
    ensures Apart(CTRL, CTRL + 0x40, sp - 28, base + 4)
    ensures Apart(CTRL, CTRL + 0x40, s, s + 152 + 4 * w)
  {
    w := (base - sp) / 4;
  }

  lemma StackGrows(was: map<int, UInt32>, before: map<int, UInt32>, after: map<int, UInt32>, to: int, from: int, n: int)
    requires 0 <= n && Apart(to, to + 4 * n, from + 4 * n, from + 4 * n + 4)
    requires Copied(before, to, was, from, n) && SameOutside(was, before, to, to + 4 * n, 0, 0)
    requires Stored(before, after, to + 4 * n, WordIn(before, from + 4 * n))
    ensures Copied(after, to, was, from, n + 1) && SameOutside(was, after, to, to + 4 * (n + 1), 0, 0)
  {
    hide WordIn;
  }

  /** The five scratch words below the stack pointer hold t2 to t6. */
  ghost predicate Scratch(mem: map<int, UInt32>, sp: int, x: map<nat, UInt32>) {
    && WordIn(mem, sp - 4) == Gpr(x, T2) && WordIn(mem, sp - 8) == Gpr(x, T3) && WordIn(mem, sp - 12) == Gpr(x, T4)
    && WordIn(mem, sp - 16) == Gpr(x, T5) && WordIn(mem, sp - 20) == Gpr(x, T6)
  }

  /** Everything a program can see of the core and its memory. */
  datatype Machine = Machine(x: map<nat, UInt32>, csr: map<nat, UInt32>, mem: map<int, UInt32>, dpc: UInt32)

  // ---- what the two routines do, as relations between the machine before and after ----

  /** Store_Checkpoint leaves every register as it was and the whole context in the save area. */
  ghost predicate SavedBy(m: Machine, after: Machine, s: int, base: int, exit: UInt32) {
    var sp := Gpr(m.x, SP);
    && (forall k :: Gpr(after.x, k) == Gpr(m.x, k)) && after.csr == m.csr && after.dpc == m.dpc
    && HoldsFile(after.mem, s, m.x, m.csr, exit)
    && (sp < base ==> Copied(after.mem, s + 148, m.mem, sp, StackWords(sp, base)))
    && SameOutside(m.mem, after.mem, sp - 20, sp, s, if sp < base then AreaEnd(s, sp, base) else s + 148)
  }

  /** The file in the save area of m is in the registers of after. */
  ghost predicate LoadedFile(m: Machine, after: Machine, s: int) {
    && (forall k :: 1 <= k < 32 ==> Gpr(after.x, k) == WordIn(m.mem, s + 16 + 4 * k))
    && (forall j :: 0 <= j < CSR_COUNT ==> CsrOf(after.csr, j) == WordIn(m.mem, s + 4 * j))
    && after.dpc == WordIn(m.mem, s + 144)
  }

  /** The boot ROM loads the file and, when recovering a stack that is not empty, the stack. */
  ghost predicate RestoredBy(m: Machine, after: Machine, s: int, base: int) {
    var sp := WordIn(m.mem, s + 24);
    && LoadedFile(m, after, s)
    && if WordIn(m.mem, CTRL + DMR_REC) != 0 && sp != base then
         && Copied(after.mem, sp, m.mem, s + 148, StackWords(sp, base))
         && SameOutside(m.mem, after.mem, sp, base + 4, 0, 0)
       else
         after.mem == m.mem
  }

  // ---- predicates over parts of memory survive writes elsewhere ----

  lemma CopiedKept(mem: map<int, UInt32>, after: map<int, UInt32>, to: int, was: map<int, UInt32>, from: int, n: int,
                   lo: int, hi: int)
    requires Copied(mem, to, was, from, n) && SameOutside(mem, after, lo, hi, 0, 0) && Apart(lo, hi, to, to + 4 * n)
    ensures Copied(after, to, was, from, n)
  {
    hide WordIn;
  }

  lemma CopiedFrom(mem: map<int, UInt32>, to: int, was: map<int, UInt32>, orig: map<int, UInt32>, from: int, n: int,
                   lo: int, hi: int)
    requires Copied(mem, to, was, from, n) && SameOutside(orig, was, lo, hi, 0, 0) && Apart(lo, hi, from, from + 4 * n)
    ensures Copied(mem, to, orig, from, n)
  {
    hide WordIn;
  }

  lemma RegsKept(mem: map<int, UInt32>, after: map<int, UInt32>, s: int, x: map<nat, UInt32>, a: nat, b: nat,
                 lo: int, hi: int)
    requires RegsSaved(mem, s, x, a, b) && SameOutside(mem, after, lo, hi, 0, 0)
    requires Apart(lo, hi, s + 16 + 4 * a, s + 20 + 4 * b)
    ensures RegsSaved(after, s, x, a, b)
  {
    hide WordIn, Gpr;
  }

  lemma RegsJoin(mem: map<int, UInt32>, s: int, x: map<nat, UInt32>, a: nat, b: nat, c: nat)
    requires RegsSaved(mem, s, x, a, b) && RegsSaved(mem, s, x, b + 1, c)
    ensures RegsSaved(mem, s, x, a, c)
  {
    hide WordIn, Gpr;
  }

  lemma CsrsKept(mem: map<int, UInt32>, after: map<int, UInt32>, s: int, csr: map<nat, UInt32>, lo: int, hi: int)
    requires CsrsSaved(mem, s, csr, CSR_COUNT) && SameOutside(mem, after, lo, hi, 0, 0) && Apart(lo, hi, s, s + 20)
    ensures CsrsSaved(after, s, csr, CSR_COUNT)
  {
    hide WordIn, CsrOf;
  }

  lemma ScratchKept(mem: map<int, UInt32>, after: map<int, UInt32>, sp: int, x: map<nat, UInt32>, lo: int, hi: int)
    requires Scratch(mem, sp, x) && SameOutside(mem, after, lo, hi, 0, 0) && Apart(lo, hi, sp - 20, sp)
    ensures Scratch(after, sp, x)
  {
    hide WordIn, Gpr;
  }

  lemma SameJoin(m0: map<int, UInt32>, m1: map<int, UInt32>, m2: map<int, UInt32>, lo: int, mid: int, hi: int)
    requires SameOutside(m0, m1, lo, mid, 0, 0) && SameOutside(m1, m2, mid, hi, 0, 0) && lo <= mid <= hi
    ensures SameOutside(m0, m2, lo, hi, 0, 0)
  {
    hide WordIn;
  }


  class Cpu {
    var x: map<nat, UInt32>
    var csr: map<nat, UInt32>
    var mem: map<int, UInt32>
    var dpc: UInt32

    function Contents(): Machine
      reads this
    {
      Machine(x, csr, mem, dpc)
    }

    constructor (m: Machine)
      ensures Contents() == m
    {
      x, csr, mem, dpc := m.x, m.csr, m.mem, m.dpc;
    }

    // ---- instructions ----

    method Li(rd: nat, v: UInt32)
      requires rd != 0
      modifies this`x
      ensures Becomes(old(x), x, rd, v)
    {
      x := x[rd := v];
    }

    method Addi(rd: nat, rs: nat, imm: int)
      requires rd != 0
      modifies this`x
      ensures Becomes(old(x), x, rd, Wrap(Gpr(old(x), rs) + imm))
    {
      x := x[rd := Wrap(Gpr(x, rs) + imm)];
    }

    method Lw(rd: nat, off: int, base: nat)
      requires rd != 0
      modifies this`x
      ensures Becomes(old(x), x, rd, WordIn(mem, Wrap(Gpr(old(x), base) + off)))
    {
      x := x[rd := WordIn(mem, Wrap(Gpr(x, base) + off))];
    }

    method Sw(src: nat, off: int, base: nat)
      modifies this`mem
      ensures Stored(old(mem), mem, Wrap(Gpr(x, base) + off), Gpr(x, src))
    {
      mem := mem[Wrap(Gpr(x, base) + off) := Gpr(x, src)];
    }

    method Csrr(rd: nat, j: nat)
      requires rd != 0
      modifies this`x
      ensures Becomes(old(x), x, rd, CsrOf(csr, j))
    {
      x := x[rd := CsrOf(csr, j)];
    }

    method Csrw(j: nat, rs: nat)
      modifies this`csr
      ensures CsrOf(csr, j) == Gpr(x, rs) && forall k :: k != j ==> CsrOf(csr, k) == CsrOf(old(csr), k)
    {
      csr := csr[j := Gpr(x, rs)];
    }

    // ---- Store_Checkpoint ----

    /** t2 to t6 go below the stack; then t2, t4 and t5 are the stack pointer, the initial one and the save area. */
    method EnterStore(ghost s: int, ghost base: int)
      requires Laid(mem, Gpr(x, SP), s, base)
      modifies this`x, this`mem
      ensures forall k :: k != T2 && k != T4 && k != T5 ==> Gpr(x, k) == Gpr(old(x), k)
      ensures Gpr(x, T2) == Gpr(x, SP) && Gpr(x, T4) == base && Gpr(x, T5) == s
      ensures Scratch(mem, Gpr(x, SP), old(x))
      ensures SameOutside(old(mem), mem, Gpr(x, SP) - 20, Gpr(x, SP), 0, 0)
    {
      hide Gpr, WordIn, Wrap, Laid;
      ghost var w := LaidMeans(mem, Gpr(x, SP), s, base);
      Addi(SP, SP, -28);
      Sw(T2, 24, SP);
      Sw(T3, 20, SP);
      Sw(T4, 16, SP);
      Sw(T5, 12, SP);
      Sw(T6, 8, SP);
      Li(T5, CTRL);
      Lw(T4, INITIAL_STACK, T5);
      Lw(T5, SAFE_COPY, T5);
      Addi(SP, SP, 28);
      Addi(T2, SP, 0);
    }

    /** The copy loop of _checkpoint_store_stack; skipped when the stack pointer is the initial one. */
    method StoreStack(ghost s: int, ghost base: int)
      requires Laid(mem, Gpr(x, SP), s, base)
      requires Gpr(x, T2) == Gpr(x, SP) && Gpr(x, T4) == base && Gpr(x, T5) == s
      modifies this`x, this`mem
      ensures forall k :: k != T2 && k != T3 && k != T6 ==> Gpr(x, k) == Gpr(old(x), k)
      ensures Gpr(x, SP) == base ==> mem == old(mem)
      ensures Gpr(x, SP) < base ==> Copied(mem, s + 148, old(mem), Gpr(x, SP), StackWords(Gpr(x, SP), base))
      ensures SameOutside(old(mem), mem, s + 148, AreaEnd(s, Gpr(x, SP), base), 0, 0)
    {
      hide Gpr, WordIn, Wrap, Laid, Copied, SameOutside;
      ghost var w := LaidMeans(mem, Gpr(x, SP), s, base);
      SameStart(mem, s + 148, Gpr(x, SP), AreaEnd(s, Gpr(x, SP), base));
      if Gpr(x, T2) != Gpr(x, T4) {
        ghost var sp, was := Gpr(x, SP), mem;
        Addi(T3, T5, 148);
        ghost var n := 0;
        while true
          invariant forall k :: k != T2 && k != T3 && k != T6 ==> Gpr(x, k) == Gpr(old(x), k)
          invariant 0 <= n <= w
          invariant Gpr(x, T2) == sp + 4 * n && Gpr(x, T3) == s + 148 + 4 * n
          invariant Copied(mem, s + 148, was, sp, n)
          invariant SameOutside(was, mem, s + 148, s + 148 + 4 * n, 0, 0)
          decreases base - Gpr(x, T2)
        {
          ghost var before := mem;
          Lw(T6, 0, T2);
          Sw(T6, 0, T3);
          StackGrows(was, before, mem, s + 148, sp, n);
          if Gpr(x, T2) == Gpr(x, T4) {
            break;
          }
          Addi(T3, T3, 4);
          Addi(T2, T2, 4);
          n := n + 1;
        }
      }
    }

    method SaveCsrs(ghost s: int)
      requires Gpr(x, T5) == s && s + 148 <= MODULUS
      modifies this`x, this`mem
      ensures forall k :: k != T6 ==> Gpr(x, k) == Gpr(old(x), k)
      ensures CsrsSaved(mem, s, csr, CSR_COUNT)
      ensures SameOutside(old(mem), mem, s, s + 20, 0, 0)
    {
      hide Gpr, WordIn, Wrap, CsrOf;
      Csrr(T6, MSTATUS);
      Sw(T6, 0, T5);
      Csrr(T6, MIE);
      Sw(T6, 4, T5);
      Csrr(T6, MTVEC);
      Sw(T6, 8, T5);
      Csrr(T6, MEPC);
      Sw(T6, 12, T5);
      Csrr(T6, MTVAL);
      Sw(T6, 16, T5);
    }

    /** x1 to x7; from here on the stack pointer is lowered so that the scratch words can be reached. */
    method SaveX1ToX7(ghost s: int, ghost x0: map<nat, UInt32>)
      requires Gpr(x, T5) == s && s + 148 <= MODULUS && 28 <= Gpr(x, SP)
      requires Apart(Gpr(x, SP) - 28, Gpr(x, SP), s, s + 148)
      requires Scratch(mem, Gpr(x, SP), x0) && forall k :: 1 <= k < T2 ==> Gpr(x, k) == Gpr(x0, k)
      modifies this`x, this`mem
      ensures Gpr(x, SP) == Gpr(x0, SP) - 28
      ensures forall k :: k != SP && k != T2 ==> Gpr(x, k) == Gpr(old(x), k)
      ensures RegsSaved(mem, s, x0, 1, 7)
      ensures SameOutside(old(mem), mem, s + 20, s + 48, 0, 0)
    {
      hide Gpr, WordIn, Wrap;
      Sw(RA, 20, T5);
      Sw(SP, 24, T5);
      Addi(SP, SP, -28);
      Sw(GP, 28, T5);
      Sw(TP, 32, T5);
      Sw(T0, 36, T5);
      Sw(T1, 40, T5);
      Lw(T2, 24, SP);
      Sw(T2, 44, T5);
    }

    /** s0, s1 and a0 to a7. */
    method SaveX8ToX17(ghost s: int)
      requires Gpr(x, T5) == s && s + 148 <= MODULUS
      modifies this`mem
      ensures RegsSaved(mem, s, x, 8, 17)
      ensures SameOutside(old(mem), mem, s + 48, s + 88, 0, 0)
    {
      hide Gpr, WordIn, Wrap;
      Sw(8, 48, T5);
      Sw(9, 52, T5);
      Sw(10, 56, T5);
      Sw(11, 60, T5);
      Sw(12, 64, T5);
      Sw(13, 68, T5);
      Sw(14, 72, T5);
      Sw(15, 76, T5);
      Sw(16, 80, T5);
      Sw(17, 84, T5);
    }

    /** s2 to s11. */
    method SaveX18ToX27(ghost s: int)
      requires Gpr(x, T5) == s && s + 148 <= MODULUS
      modifies this`mem
      ensures RegsSaved(mem, s, x, 18, 27)
      ensures SameOutside(old(mem), mem, s + 88, s + 128, 0, 0)
    {
      hide Gpr, WordIn, Wrap;
      Sw(18, 88, T5);
      Sw(19, 92, T5);
      Sw(20, 96, T5);
      Sw(21, 100, T5);
      Sw(22, 104, T5);
      Sw(23, 108, T5);
      Sw(24, 112, T5);
      Sw(25, 116, T5);
      Sw(26, 120, T5);
      Sw(27, 124, T5);
    }

    /** x28 to x31 come from the scratch words; the resume address is that of the end of the routine. */
    method SaveX28ToX31(ghost s: int, ghost x0: map<nat, UInt32>, exit: UInt32)
      requires Gpr(x, T5) == s && s + 148 <= MODULUS && 28 <= Gpr(x0, SP) && Gpr(x, SP) == Gpr(x0, SP) - 28
      requires Apart(Gpr(x0, SP) - 28, Gpr(x0, SP), s, s + 148) && Scratch(mem, Gpr(x0, SP), x0)
      modifies this`x, this`mem
      ensures forall k: nat :: !(T3 <= k <= T6) ==> Gpr(x, k) == Gpr(old(x), k)
      ensures RegsSaved(mem, s, x0, 28, 31) && WordIn(mem, s + 144) == exit
      ensures SameOutside(old(mem), mem, s + 128, s + 148, 0, 0)
    {
      hide Gpr, WordIn, Wrap;
      Lw(T3, 20, SP);
      Sw(T3, 128, T5);
      Lw(T4, 16, SP);
      Sw(T4, 132, T5);
      Li(T6, exit);
      Sw(T6, 144, T5);
      Lw(T6, 12, SP);
      Sw(T6, 136, T5);
      Lw(T6, 8, SP);
      Sw(T6, 140, T5);
    }

    method LeaveStore(ghost x0: map<nat, UInt32>)
      requires 28 <= Gpr(x0, SP) && Gpr(x, SP) == Gpr(x0, SP) - 28 && Scratch(mem, Gpr(x0, SP), x0)
      requires forall k: nat :: k != SP && k != T2 && !(T3 <= k <= T6) ==> Gpr(x, k) == Gpr(x0, k)
      modifies this`x
      ensures forall k :: Gpr(x, k) == Gpr(x0, k)
    {
      hide Gpr, WordIn, Wrap;
      Lw(T2, 24, SP);
      Lw(T3, 20, SP);
      Lw(T4, 16, SP);
      Lw(T5, 12, SP);
      Lw(T6, 8, SP);
      Addi(SP, SP, 28);
    }
  
    /** The register part of Store_Checkpoint. */
    method SaveFile(ghost s: int, ghost x0: map<nat, UInt32>, exit: UInt32)
      requires Gpr(x, T5) == s && s + 148 <= MODULUS && 28 <= Gpr(x0, SP)
      requires Apart(Gpr(x0, SP) - 28, Gpr(x0, SP), s, s + 148)
      requires Scratch(mem, Gpr(x0, SP), x0)
      requires forall k: nat :: k != T2 && !(T3 <= k <= T6) ==> Gpr(x, k) == Gpr(x0, k)
      modifies this`x, this`mem
      ensures forall k :: Gpr(x, k) == Gpr(x0, k)
      ensures HoldsFile(mem, s, x0, csr, exit)
      ensures SameOutside(old(mem), mem, s, s + 148, 0, 0)
    {
      hide Gpr, WordIn, SameOutside, CsrsSaved, RegsSaved, Scratch;
      ghost var m0, sp := mem, Gpr(x0, SP);
      SaveCsrs(s);
      ghost var m1 := mem;
      ScratchKept(m0, m1, sp, x0, s, s + 20);
      SaveX1ToX7(s, x0);
      ghost var m2 := mem;
      ScratchKept(m1, m2, sp, x0, s + 20, s + 48);
      CsrsKept(m1, m2, s, csr, s + 20, s + 48);
      SaveX8ToX17(s);
      ghost var m3 := mem;
      SameRegs(m3, s, x, x0, 8, 17);
      ScratchKept(m2, m3, sp, x0, s + 48, s + 88);
      CsrsKept(m2, m3, s, csr, s + 48, s + 88);
      RegsKept(m2, m3, s, x0, 1, 7, s + 48, s + 88);
      RegsJoin(m3, s, x0, 1, 7, 17);
      SaveX18ToX27(s);
      ghost var m4 := mem;
      SameRegs(m4, s, x, x0, 18, 27);
      ScratchKept(m3, m4, sp, x0, s + 88, s + 128);
      CsrsKept(m3, m4, s, csr, s + 88, s + 128);
      RegsKept(m3, m4, s, x0, 1, 17, s + 88, s + 128);
      RegsJoin(m4, s, x0, 1, 17, 27);
      SaveX28ToX31(s, x0, exit);
      ScratchKept(m4, mem, sp, x0, s + 128, s + 148);
      CsrsKept(m4, mem, s, csr, s + 128, s + 148);
      RegsKept(m4, mem, s, x0, 1, 27, s + 128, s + 148);
      RegsJoin(mem, s, x0, 1, 27, 31);
      SameJoin(m0, m1, m2, s, s + 20, s + 48);
      SameJoin(m0, m2, m3, s, s + 48, s + 88);
      SameJoin(m0, m3, m4, s, s + 88, s + 128);
      SameJoin(m0, m4, mem, s, s + 128, s + 148);
      LeaveStore(x0);
    }

    method StoreCheckpoint(exit: UInt32, ghost s: int, ghost base: int)
      requires Laid(mem, Gpr(x, SP), s, base)
      modifies this
      ensures SavedBy(old(Contents()), Contents(), s, base, exit)
    {
      hide Gpr, WordIn, SameOutside, HoldsFile, Scratch, Copied, Laid;
      ghost var m0, x0, sp := mem, x, Gpr(x, SP);
      ghost var w := LaidMeans(mem, sp, s, base);
      EnterStore(s, base);
      ghost var m1 := mem;
      LaidKept(m0, m1, sp, s, base, sp - 20, sp);
      StoreStack(s, base);
      ghost var m2 := mem;
      ScratchKept(m1, m2, sp, x0, s + 148, AreaEnd(s, sp, base));
      SaveFile(s, x0, exit);
      StoreFrames(m0, m1, m2, mem, sp, s, base);
    }
  
    // ---- halt_boot ----

    /** The CSRs and x1 to x4. */
    method LoadHead(ghost s: int)
      requires s == WordIn(mem, CTRL + SAFE_COPY) && s + 148 <= MODULUS
      modifies this`x, this`csr
      ensures Gpr(x, T5) == s
      ensures forall j :: 0 <= j < CSR_COUNT ==> CsrOf(csr, j) == WordIn(mem, s + 4 * j)
      ensures LoadedRegs(x, mem, s, 1, 4)
    {
      hide Gpr, WordIn, Wrap, CsrOf;
      Li(T5, CTRL);
      Lw(T5, SAFE_COPY, T5);
      Lw(T6, 0, T5);
      Csrw(MSTATUS, T6);
      Lw(T6, 4, T5);
      Csrw(MIE, T6);
      Lw(T6, 8, T5);
      Csrw(MTVEC, T6);
      Lw(T6, 12, T5);
      Csrw(MEPC, T6);
      Lw(T6, 16, T5);
      Csrw(MTVAL, T6);
      Lw(RA, 20, T5);
      Lw(SP, 24, T5);
      Lw(GP, 28, T5);
      Lw(TP, 32, T5);
    }

    /** x5 to x17. */
    method LoadX5ToX17(ghost s: int)
      requires Gpr(x, T5) == s && s + 148 <= MODULUS
      modifies this`x
      ensures forall k: nat :: !(5 <= k <= 17) ==> Gpr(x, k) == Gpr(old(x), k)
      ensures LoadedRegs(x, mem, s, 5, 17)
    {
      hide Gpr, WordIn, Wrap;
      Lw(T0, 36, T5);
      Lw(T1, 40, T5);
      Lw(T2, 44, T5);
      Lw(8, 48, T5);
      Lw(9, 52, T5);
      Lw(10, 56, T5);
      Lw(11, 60, T5);
      Lw(12, 64, T5);
      Lw(13, 68, T5);
      Lw(14, 72, T5);
      Lw(15, 76, T5);
      Lw(16, 80, T5);
      Lw(17, 84, T5);
    }

    /** x18 to x29. */
    method LoadX18ToX29(ghost s: int)
      requires Gpr(x, T5) == s && s + 148 <= MODULUS
      modifies this`x
      ensures forall k: nat :: !(18 <= k <= 29) ==> Gpr(x, k) == Gpr(old(x), k)
      ensures LoadedRegs(x, mem, s, 18, 29)
    {
      hide Gpr, WordIn, Wrap;
      Lw(18, 88, T5);
      Lw(19, 92, T5);
      Lw(20, 96, T5);
      Lw(21, 100, T5);
      Lw(22, 104, T5);
      Lw(23, 108, T5);
      Lw(24, 112, T5);
      Lw(25, 116, T5);
      Lw(26, 120, T5);
      Lw(27, 124, T5);
      Lw(T3, 128, T5);
      Lw(T4, 132, T5);
    }

    /** load_register: x5 to x29, the resume address, and last the two registers used on the way. */
    method LoadTail(ghost s: int)
      requires Gpr(x, T5) == s && s + 148 <= MODULUS && LoadedRegs(x, mem, s, 1, 4)
      modifies this`x, this`dpc
      ensures LoadedRegs(x, mem, s, 1, 31) && dpc == WordIn(mem, s + 144)
    {
      hide Gpr, WordIn, Wrap;
      LoadX5ToX17(s);
      LoadX18ToX29(s);
      Lw(T6, 144, T5);
      dpc := Gpr(x, T6);
      Lw(T6, 140, T5);
      Lw(T5, 136, T5);
    }

    /** store_stack and load_stack: the stack pointer itself walks up the stack, and is reloaded at the end. */
    method LoadStack(ghost s: int, ghost base: int)
      requires Gpr(x, T0) == CTRL && Gpr(x, T5) == s && Gpr(x, SP) == WordIn(mem, s + 24)
      requires Laid(mem, Gpr(x, SP), s, base)
      modifies this`x, this`mem
      ensures forall k: nat :: k != T1 && k != T2 && k != T4 ==> Gpr(x, k) == Gpr(old(x), k)
      ensures Gpr(x, SP) == base ==> mem == old(mem)
      ensures Gpr(x, SP) != base ==> Copied(mem, Gpr(x, SP), old(mem), s + 148, StackWords(Gpr(x, SP), base))
      ensures Gpr(x, SP) != base ==> SameOutside(old(mem), mem, Gpr(x, SP), base + 4, 0, 0)
    {
      hide Gpr, WordIn, Wrap, Laid, Copied, SameOutside;
      ghost var sp, was := Gpr(x, SP), mem;
      ghost var w := LaidMeans(mem, sp, s, base);
      SameStart(mem, sp, s + 148, base + 4);
      Lw(T1, INITIAL_STACK, T0);
      if Gpr(x, SP) != Gpr(x, T1) {
        Addi(T2, T5, 148);
        ghost var n := 0;
        while true
          invariant forall k: nat :: k != SP && k != T1 && k != T2 && k != T4 ==> Gpr(x, k) == Gpr(old(x), k)
          invariant 0 <= n <= w && Gpr(x, T1) == base
          invariant Gpr(x, SP) == sp + 4 * n && Gpr(x, T2) == s + 148 + 4 * n
          invariant Copied(mem, sp, was, s + 148, n)
          invariant SameOutside(was, mem, sp, sp + 4 * n, 0, 0)
          decreases base - Gpr(x, SP)
        {
          ghost var before := mem;
          Lw(T4, 0, T2);
          Sw(T4, 0, SP);
          StackGrows(was, before, mem, sp, s + 148, n);
          if Gpr(x, SP) == Gpr(x, T1) {
            break;
          }
          Addi(T2, T2, 4);
          Addi(SP, SP, 4);
          n := n + 1;
        }
        assert WordIn(mem, s + 24) == WordIn(was, s + 24) by { SameAt(was, mem, sp, base + 4, s + 24); }
        Lw(SP, 24, T5);
      }
    }

    /** Only a recovery needs the stack; an ordinary entry just loads the file and leaves memory alone. */
    method HaltBoot(ghost s: int, ghost base: int)
      requires s == WordIn(mem, CTRL + SAFE_COPY) && s + 148 <= MODULUS
      requires WordIn(mem, CTRL + DMR_REC) != 0 ==> Laid(mem, WordIn(mem, s + 24), s, base)
      modifies this
      ensures LoadedFile(old(Contents()), Contents(), s)
      ensures WordIn(old(mem), CTRL + DMR_REC) == 0 ==> mem == old(mem)
      ensures RestoredBy(old(Contents()), Contents(), s, base)
    {
      hide Gpr, WordIn, Wrap, Laid, Copied, SameOutside, CsrOf;
      ghost var m0, sp := mem, WordIn(mem, s + 24);
      LoadHead(s);
      Li(T0, CTRL);
      Lw(T1, DMR_REC, T0);
      if Gpr(x, T1) != 0 {
        ghost var w := LaidMeans(mem, sp, s, base);
        LoadStack(s, base);
        AreaKept(m0, mem, sp, s, base);
      }
      LoadTail(s);
    }
  }

  /** Registers lo to hi are loaded from the save area. */
  ghost predicate LoadedRegs(x: map<nat, UInt32>, mem: map<int, UInt32>, s: int, lo: nat, hi: nat) {
    forall k :: lo <= k <= hi ==> Gpr(x, k) == WordIn(mem, s + 16 + 4 * k)
  }

  lemma SameAt(mem: map<int, UInt32>, after: map<int, UInt32>, lo: int, hi: int, a: int)
    requires SameOutside(mem, after, lo, hi, 0, 0) && (a < lo || hi <= a)
    ensures WordIn(after, a) == WordIn(mem, a)
  {
    hide WordIn;
  }

  /** Restoring the stack leaves the save area alone. */
  lemma AreaKept(mem: map<int, UInt32>, after: map<int, UInt32>, sp: int, s: int, base: int)
    requires Laid(mem, sp, s, base) && (after == mem || SameOutside(mem, after, sp, base + 4, 0, 0))
    ensures forall a :: s <= a < AreaEnd(s, sp, base) ==> WordIn(after, a) == WordIn(mem, a)
    ensures WordIn(after, CTRL + SAFE_COPY) == s && WordIn(after, CTRL + INITIAL_STACK) == base
    ensures WordIn(after, CTRL + DMR_REC) == WordIn(mem, CTRL + DMR_REC)
  {
    hide WordIn, Laid;
    var w := LaidMeans(mem, sp, s, base);
  }

  lemma LaidKept(mem: map<int, UInt32>, after: map<int, UInt32>, sp: int, s: int, base: int, lo: int, hi: int)
    requires Laid(mem, sp, s, base) && SameOutside(mem, after, lo, hi, 0, 0) && Apart(lo, hi, CTRL, CTRL + 0x40)
    ensures Laid(after, sp, s, base)
  {
    hide WordIn;
  }

  lemma SameRegs(mem: map<int, UInt32>, s: int, x: map<nat, UInt32>, x0: map<nat, UInt32>, lo: nat, hi: nat)
    requires RegsSaved(mem, s, x, lo, hi) && forall k :: lo <= k <= hi ==> Gpr(x, k) == Gpr(x0, k)
    ensures RegsSaved(mem, s, x0, lo, hi)
  {
    hide Gpr, WordIn;
  }

  lemma StoreFrames(m0: map<int, UInt32>, m1: map<int, UInt32>, m2: map<int, UInt32>, m3: map<int, UInt32>, sp: int,
                    s: int, base: int)
    requires Laid(m0, sp, s, base)
    requires SameOutside(m0, m1, sp - 20, sp, 0, 0)
    requires if sp < base then
               Copied(m2, s + 148, m1, sp, StackWords(sp, base))
                   && SameOutside(m1, m2, s + 148, AreaEnd(s, sp, base), 0, 0)
             else m2 == m1
    requires SameOutside(m2, m3, s, s + 148, 0, 0)
    ensures sp < base ==> Copied(m3, s + 148, m0, sp, StackWords(sp, base))
    ensures SameOutside(m0, m3, sp - 20, sp, s, if sp < base then AreaEnd(s, sp, base) else s + 148)
  {
    hide WordIn, Laid, Copied;
    var w := LaidMeans(m0, sp, s, base);
    if sp < base {
      CopiedFrom(m2, s + 148, m1, m0, sp, w + 1, sp - 20, sp);
      CopiedKept(m2, m3, s + 148, m0, sp, w + 1, s, s + 148);
    }
  }

  lemma SameStart(mem: map<int, UInt32>, to: int, from: int, end: int)
    ensures Copied(mem, to, mem, from, 0) && SameOutside(mem, mem, to, end, 0, 0) && SameOutside(mem, mem, to, to, 0, 0)
  {
  }

  // ---- the round trip ----

  /** Whatever ran in between left the save area and the two control registers that locate things alone. */
  ghost predicate Untouched(saved: map<int, UInt32>, hit: map<int, UInt32>, sp: int, s: int, base: int) {
    && (forall a :: s <= a < AreaEnd(s, sp, base) ==> WordIn(hit, a) == WordIn(saved, a))
    && WordIn(hit, CTRL + SAFE_COPY) == WordIn(saved, CTRL + SAFE_COPY)
    && WordIn(hit, CTRL + INITIAL_STACK) == WordIn(saved, CTRL + INITIAL_STACK)
  }

  /** The context of m is back, and execution resumes at exit. */
  ghost predicate ContextBack(m: Machine, after: Machine, exit: UInt32) {
    && (forall k :: 1 <= k < 32 ==> Gpr(after.x, k) == Gpr(m.x, k))
    && (forall j :: 0 <= j < CSR_COUNT ==> CsrOf(after.csr, j) == CsrOf(m.csr, j))
    && after.dpc == exit
  }

  ghost predicate StackBack(m: Machine, after: Machine, base: int) {
    Copied(after.mem, Gpr(m.x, SP), m.mem, Gpr(m.x, SP), StackWords(Gpr(m.x, SP), base))
  }

  /** The save area holds the checkpoint of m. */
  ghost predicate Checkpointed(m: Machine, mem: map<int, UInt32>, s: int, base: int, exit: UInt32) {
    var sp := Gpr(m.x, SP);
    && Laid(mem, sp, s, base) && HoldsFile(mem, s, m.x, m.csr, exit)
    && (sp < base ==> Copied(mem, s + 148, m.mem, sp, StackWords(sp, base)))
  }

  lemma SavedIsCheckpointed(m: Machine, saved: Machine, s: int, base: int, exit: UInt32)
    requires Laid(m.mem, Gpr(m.x, SP), s, base) && SavedBy(m, saved, s, base, exit)
    ensures Checkpointed(m, saved.mem, s, base, exit)
  {
    hide Gpr, HoldsFile, Copied;
    var w := LaidMeans(m.mem, Gpr(m.x, SP), s, base);
  }

  lemma UntouchedKeeps(m: Machine, saved: map<int, UInt32>, hit: map<int, UInt32>, s: int, base: int, exit: UInt32)
    requires Checkpointed(m, saved, s, base, exit) && Untouched(saved, hit, Gpr(m.x, SP), s, base)
    ensures Checkpointed(m, hit, s, base, exit) && WordIn(hit, s + 24) == Gpr(m.x, SP)
  {
    hide Gpr, WordIn, CsrOf;
    var sp := Gpr(m.x, SP);
    var w := LaidMeans(saved, sp, s, base);
    assert WordIn(hit, s + 16 + 4 * SP) == Gpr(m.x, SP);
    if sp < base {
      forall i | 0 <= i < StackWords(sp, base)
        ensures WordIn(hit, s + 148 + 4 * i) == WordIn(m.mem, sp + 4 * i)
      {
        assert WordIn(hit, s + 148 + 4 * i) == WordIn(saved, s + 148 + 4 * i);
      }
    }
  }

  /** A restore from a checkpoint brings the context back, and the stack when it is not empty; the checkpoint stays. */
  lemma RestoreBringsBack(m: Machine, hit: Machine, after: Machine, s: int, base: int, exit: UInt32)
    requires Checkpointed(m, hit.mem, s, base, exit) && WordIn(hit.mem, s + 24) == Gpr(m.x, SP)
    requires RestoredBy(hit, after, s, base)
    ensures ContextBack(m, after, exit)
    ensures Gpr(m.x, SP) < base && WordIn(hit.mem, CTRL + DMR_REC) != 0 ==> StackBack(m, after, base)
    ensures Untouched(hit.mem, after.mem, Gpr(m.x, SP), s, base)
  {
    hide Gpr, WordIn, CsrOf, Laid, SameOutside;
    var sp := Gpr(m.x, SP);
    var w := LaidMeans(hit.mem, sp, s, base);
    AreaKept(hit.mem, after.mem, sp, s, base);
    if sp < base && WordIn(hit.mem, CTRL + DMR_REC) != 0 {
      forall i | 0 <= i < StackWords(sp, base)
        ensures WordIn(after.mem, sp + 4 * i) == WordIn(m.mem, sp + 4 * i)
      {
        assert WordIn(after.mem, sp + 4 * i) == WordIn(hit.mem, s + 148 + 4 * i);
      }
    }
  }

  /**
   * Save, run anything that leaves the save area alone, restore with recovery requested: registers,
   * CSRs and resume address are those of the checkpoint, and so is every stack word from the stack
   * pointer to the initial one, when these differ.
   */
  lemma CheckpointRoundTrip(m: Machine, saved: Machine, hit: Machine, after: Machine, s: int, base: int, exit: UInt32)
    requires Laid(m.mem, Gpr(m.x, SP), s, base) && SavedBy(m, saved, s, base, exit)
    requires Untouched(saved.mem, hit.mem, Gpr(m.x, SP), s, base) && WordIn(hit.mem, CTRL + DMR_REC) != 0
    requires RestoredBy(hit, after, s, base)
    ensures ContextBack(m, after, exit)
    ensures Gpr(m.x, SP) < base ==> StackBack(m, after, base)
  {
    hide Gpr, WordIn, CsrOf, SavedBy, Untouched, RestoredBy, ContextBack, StackBack, Checkpointed, Laid;
    SavedIsCheckpointed(m, saved, s, base, exit);
    UntouchedKeeps(m, saved.mem, hit.mem, s, base, exit);
    RestoreBringsBack(m, hit, after, s, base, exit);
  }

  /**
   * An ordinary entry, with no recovery requested: the registers, CSRs and resume address of the checkpoint
   * come back, and nothing in memory moves, whatever the program has done to its stack since.
   */
  lemma OrdinaryEntryKeepsStack(m: Machine, saved: Machine, hit: Machine, after: Machine, s: int, base: int,
                                exit: UInt32)
    requires Laid(m.mem, Gpr(m.x, SP), s, base) && SavedBy(m, saved, s, base, exit)
    requires Untouched(saved.mem, hit.mem, Gpr(m.x, SP), s, base) && WordIn(hit.mem, CTRL + DMR_REC) == 0
    requires RestoredBy(hit, after, s, base)
    ensures ContextBack(m, after, exit)
    ensures forall a :: WordIn(after.mem, a) == WordIn(hit.mem, a)
  {
    hide Gpr, WordIn, CsrOf, SavedBy, Untouched, ContextBack, StackBack, Checkpointed, Laid, Copied, SameOutside;
    SavedIsCheckpointed(m, saved, s, base, exit);
    UntouchedKeeps(m, saved.mem, hit.mem, s, base, exit);
    RestoreBringsBack(m, hit, after, s, base, exit);
  }

  /** The stack comes back whatever ran in between. */
  ghost predicate StackAlwaysBack(m: Machine, saved: Machine, s: int, base: int) {
    forall hit: Machine, after: Machine ::
      Untouched(saved.mem, hit.mem, Gpr(m.x, SP), s, base) && WordIn(hit.mem, CTRL + DMR_REC) != 0
          && RestoredBy(hit, after, s, base)
      ==> StackBack(m, after, base)
  }

  /** A machine whose one stack word was overwritten after the checkpoint, and what the boot ROM makes of it. */
  function Overwritten(saved: Machine, base: int, v: UInt32): Machine {
    saved.(mem := saved.mem[CTRL + DMR_REC := 1][base := v])
  }

  function FileLoaded(m: Machine, s: int): Machine {
    Machine(map k: nat | 1 <= k < 32 :: WordIn(m.mem, s + 16 + 4 * k),
            map j: nat | 0 <= j < CSR_COUNT :: WordIn(m.mem, s + 4 * j),
            m.mem, WordIn(m.mem, s + 144))
  }

  /** With the stack pointer at its initial value the word it points at is neither saved nor restored. */
  lemma EmptyStackNotRestored(m: Machine, saved: Machine, s: int, base: int, exit: UInt32, v: UInt32)
    requires Laid(m.mem, Gpr(m.x, SP), s, base) && SavedBy(m, saved, s, base, exit)
    requires Gpr(m.x, SP) == base && v != WordIn(m.mem, base)
    ensures var hit := Overwritten(saved, base, v);
            && Untouched(saved.mem, hit.mem, Gpr(m.x, SP), s, base) && WordIn(hit.mem, CTRL + DMR_REC) != 0
            && RestoredBy(hit, FileLoaded(hit, s), s, base) && !StackBack(m, FileLoaded(hit, s), base)
  {
    hide Gpr, CsrOf, SavedBy, RestoredBy, StackBack, Laid, Checkpointed, FileLoaded;
    var hit := Overwritten(saved, base, v);
    var w := LaidMeans(m.mem, Gpr(m.x, SP), s, base);
    SavedIsCheckpointed(m, saved, s, base, exit);
    assert Untouched(saved.mem, hit.mem, Gpr(m.x, SP), s, base);
    UntouchedKeeps(m, saved.mem, hit.mem, s, base, exit);
    LoadedIsRestored(hit, s, base);
    OneWordDiffers(m, FileLoaded(hit, s), base);
  }

  lemma LoadedIsRestored(m: Machine, s: int, base: int)
    requires WordIn(m.mem, s + 24) == base
    ensures RestoredBy(m, FileLoaded(m, s), s, base) && FileLoaded(m, s).mem == m.mem
  {
    hide WordIn;
  }

  lemma OneWordDiffers(m: Machine, after: Machine, base: int)
    requires Gpr(m.x, SP) == base && WordIn(after.mem, base) != WordIn(m.mem, base)
    ensures !StackBack(m, after, base)
  {
    assert StackWords(base, base) == 1;
    assert StackBack(m, after, base) ==> WordIn(after.mem, base + 4 * 0) == WordIn(m.mem, base + 4 * 0);
  }

  /** The stack round trip holds exactly when the stack pointer was below its initial value at the checkpoint. */
  lemma StackRoundTripIff(m: Machine, saved: Machine, s: int, base: int, exit: UInt32)
    requires Laid(m.mem, Gpr(m.x, SP), s, base) && SavedBy(m, saved, s, base, exit)
    ensures StackAlwaysBack(m, saved, s, base) <==> Gpr(m.x, SP) < base
  {
    hide Gpr, WordIn, CsrOf, SavedBy, Untouched, RestoredBy, ContextBack, StackBack, FileLoaded, Overwritten, Laid;
    if Gpr(m.x, SP) < base {
      forall hit: Machine, after: Machine |
        Untouched(saved.mem, hit.mem, Gpr(m.x, SP), s, base) && WordIn(hit.mem, CTRL + DMR_REC) != 0
            && RestoredBy(hit, after, s, base)
        ensures StackBack(m, after, base)
      {
        CheckpointRoundTrip(m, saved, hit, after, s, base, exit);
      }
    } else {
      var w := LaidMeans(m.mem, Gpr(m.x, SP), s, base);
      var v: UInt32 := if WordIn(m.mem, base) == 0 then 1 else 0;
      EmptyStackNotRestored(m, saved, s, base, exit, v);
    }
  }

  // ---- any number of rollbacks ----

  /** One round: the machine at the moment of the error, and the machine the boot ROM leaves. */
  datatype Round = Round(hit: Machine, after: Machine)

  ghost predicate Rounds(mem: map<int, UInt32>, rounds: seq<Round>, sp: int, s: int, base: int)
    decreases |rounds|
  {
    rounds != [] ==>
      && Untouched(mem, rounds[0].hit.mem, sp, s, base)
      && RestoredBy(rounds[0].hit, rounds[0].after, s, base)
      && Rounds(rounds[0].after.mem, rounds[1..], sp, s, base)
  }

  /** Every round ends in the same context, the same stack and the same resume address, with the checkpoint intact. */
  lemma {:induction false} RollbackRepeats(m: Machine, mem: map<int, UInt32>, rounds: seq<Round>, s: int, base: int,
                                           exit: UInt32)
    requires Checkpointed(m, mem, s, base, exit) && Rounds(mem, rounds, Gpr(m.x, SP), s, base)
    ensures forall i :: 0 <= i < |rounds| ==>
              && ContextBack(m, rounds[i].after, exit)
              && (Gpr(m.x, SP) < base && WordIn(rounds[i].hit.mem, CTRL + DMR_REC) != 0
                  ==> StackBack(m, rounds[i].after, base))
              && Untouched(mem, rounds[i].after.mem, Gpr(m.x, SP), s, base)
    decreases |rounds|
  {
    hide Gpr, WordIn, RestoredBy, ContextBack, StackBack, Checkpointed;
    if rounds != [] {
      var sp, first, rest := Gpr(m.x, SP), rounds[0], rounds[1..];
      UntouchedKeeps(m, mem, first.hit.mem, s, base, exit);
      RestoreBringsBack(m, first.hit, first.after, s, base, exit);
      UntouchedKeeps(m, first.hit.mem, first.after.mem, s, base, exit);
      RollbackRepeats(m, first.after.mem, rest, s, base, exit);
      forall i | 0 <= i < |rounds|
        ensures && ContextBack(m, rounds[i].after, exit)
                && (sp < base && WordIn(rounds[i].hit.mem, CTRL + DMR_REC) != 0 ==> StackBack(m, rounds[i].after, base))
                && Untouched(mem, rounds[i].after.mem, sp, s, base)
      {
        if i > 0 { assert rest[i - 1] == rounds[i]; }
      }
    }
  }
}
