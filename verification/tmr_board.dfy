/**
 * Scrubbing in triple mode: the three cores push and pop all their registers through the voter.
 * Three register files run one straight-line program on one voted memory.
 */
module TmrBoard {
  import opened Obi
  import opened TmrVoter
  import opened Registers

  /** A word as bits: the voter works on each bit by itself. */
  type Word = bv32

  /** A word of memory, by its address. */
  datatype Cell = Cell(at: Word)

  // ---- one core ----

  /**
   * Registers x1 to x31 and the saved CSRs; id, ack and brk are private. As long as inStep holds the
   * hart executes the same instruction as the others. Once it has fallen behind, its registers mean
   * nothing, and what it shows to the voter at an instruction is the arbitrary request stray(i).
   */
  datatype Hart = Hart(
    x: map<nat, Word>, csr: map<nat, Word>, id: Word, ack: bool, brk: bool, inStep: bool, stray: Instr -> Req)

  function X(x: map<nat, Word>, k: nat): Word {
    if k != 0 && k in x then x[k] else 0
  }

  function Csr(csr: map<nat, Word>, j: nat): Word {
    if j in csr then csr[j] else 0
  }

  function Read(mem: map<Cell, Word>, a: Cell): Word {
    if a in mem then mem[a] else 0
  }

  datatype Instr =
    | Addi(rd: nat, rs: nat, imm: Word)
    | Li(rd: nat, imm: Word)
    | Csrr(rd: nat, csr: nat)
    | Csrw(csr: nat, rs: nat)
    | Sw(src: nat, off: Word, base: nat)
    | Lw(rd: nat, off: Word, base: nat)

  predicate Local(i: Instr) {
    !i.Sw? && !i.Lw?
  }

  function Set(x: map<nat, Word>, k: nat, v: Word): map<nat, Word> {
    x[k := v]
  }

  function StepLocal(c: Hart, i: Instr): Hart
    requires Local(i)
  {
    match i
    case Addi(rd, rs, imm) => c.(x := Set(c.x, rd, Sum(X(c.x, rs), imm)))
    case Li(rd, imm) => c.(x := Set(c.x, rd, imm))
    case Csrr(rd, j) => c.(x := Set(c.x, rd, Csr(c.csr, j)))
    case Csrw(j, rs) => c.(csr := c.csr[j := X(c.x, rs)])
  }

  function Sum(a: Word, b: Word): Word {
    a + b
  }

  function Plus(base: Word, off: Word): Cell {
    Cell(Sum(base, off))
  }

  function Address(c: Hart, i: Instr): Cell
    requires !Local(i)
  {
    Plus(X(c.x, i.base), i.off)
  }

  // ---- private registers, decoded before the voter ----

  const PRIVATE_BASE: Word := 0xF000_0000

  predicate Private(a: Cell) {
    a.at & 0xFFFF_0000 == PRIVATE_BASE
  }

  /** Only the low four address bits are decoded; unmapped registers read as all ones. */
  function PrivateRead(c: Hart, a: Cell): Word {
    var low := a.at & 0xF;
    if low == 0 then c.id
    else if low == 4 then (if c.ack then 1 else 0)
    else if low == 8 then (if c.brk then 1 else 0)
    else 0xFFFF_FFFF
  }

  function PrivateWrite(c: Hart, a: Cell, v: Word): Hart {
    var low := a.at & 0xF;
    if low == 4 then c.(ack := v & 1 == 1)
    else if low == 8 then c.(brk := v & 1 == 1)
    else c
  }

  predicate SameRegister(a: Cell, b: Cell) {
    a.at & 0xF == b.at & 0xF
  }

  predicate Writable(a: Cell) {
    a.at & 0xF == 4 || a.at & 0xF == 8
  }

  /** A private register reads back the low bit written to it, and the others read as before. */
  lemma PrivateReadsBack(c: Hart, a: Cell, v: Word, b: Cell)
    ensures PrivateRead(PrivateWrite(c, a, v), b)
         == if SameRegister(a, b) && Writable(a) then v & 1 else PrivateRead(c, b)
  {
    assert v & 1 == 0 || v & 1 == 1;
  }

  // ---- three cores on one voted memory ----

  datatype Board = Board(core: Trio<Hart>, mem: map<Cell, Word>)

  predicate Aligned(a: Cell) {
    a.at & 3 == 0
  }

  /**
   * What core c shows to the voter while it executes a load or store. The private crossbar decodes
   * the request line only: the payload of a private access appears on the voted bus all the same.
   */
  function Request(c: Hart, i: Instr): Req
    requires !Local(i)
  {
    var a := Address(c, i);
    if !c.inStep || !Aligned(a) then c.stray(i)
    else Req(!Private(a), i.Sw?, 0xF, a.at, if i.Sw? then X(c.x, i.src) else 0)
  }

  function Voted(b: Board, i: Instr): Req
    requires !Local(i)
  {
    Vote(Trio(Request(b.core.c0, i), Request(b.core.c1, i), Request(b.core.c2, i)))
  }

  /** Loads are answered to all cores alike; a private one is answered by the core's own registers. */
  function Answered(c: Hart, i: Instr, voted: Req, mem: map<Cell, Word>): Hart
    requires !Local(i)
  {
    var a := Address(c, i);
    match i
    case Sw(src, _, _) => if Private(a) then PrivateWrite(c, a, X(c.x, src)) else c
    case Lw(rd, _, _) => c.(x := Set(c.x, rd, if Private(a) then PrivateRead(c, a) else Read(mem, Cell(voted.addr))))
  }

  /**
   * A core falls behind when it splits a misaligned access in two, and when it requests something
   * that the others do not, so that it is not granted with them.
   */
  function Finish(c: Hart, i: Instr, voted: Req, mem: map<Cell, Word>): Hart
    requires !Local(i)
  {
    var a := Address(c, i);
    Answered(c, i, voted, mem).(inStep := c.inStep && Aligned(a) && (Private(a) || voted.req))
  }

  function Step(b: Board, i: Instr): Board {
    if Local(i) then b.(core := Trio(StepLocal(b.core.c0, i), StepLocal(b.core.c1, i), StepLocal(b.core.c2, i)))
    else
      var v := Voted(b, i);
      Board(Trio(Finish(b.core.c0, i, v, b.mem), Finish(b.core.c1, i, v, b.mem), Finish(b.core.c2, i, v, b.mem)),
            if v.req && v.we then b.mem[Cell(v.addr) := v.wdata] else b.mem)
  }

  function Exec(b: Board, program: seq<Instr>): Board {
    if program == [] then b else Step(Exec(b, program[..|program| - 1]), program[|program| - 1])
  }

  class Cluster {
    var core: Trio<Hart>
    var mem: map<Cell, Word>

    function Contents(): Board
      reads this
    {
      Board(core, mem)
    }

    constructor (core: Trio<Hart>, mem: map<Cell, Word>)
      ensures Contents() == Board(core, mem)
    {
      this.core, this.mem := core, mem;
    }

    method Run(program: seq<Instr>)
      modifies this
      ensures Contents() == Exec(old(Contents()), program)
    {
      hide Finish, Voted, StepLocal;
      ghost var was := Contents();
      for n := 0 to |program|
        invariant Contents() == Exec(was, program[..n])
      {
        var i := program[n];
        if Local(i) {
          core := Trio(StepLocal(core.c0, i), StepLocal(core.c1, i), StepLocal(core.c2, i));
        } else {
          var v := Voted(Contents(), i);
          core := Trio(Finish(core.c0, i, v, mem), Finish(core.c1, i, v, mem), Finish(core.c2, i, v, mem));
          if v.req && v.we {
            mem := mem[Cell(v.addr) := v.wdata];
          }
        }
        assert program[..n + 1][..n] == program[..n];
      }
      assert program[..|program|] == program;
    }
  }

  // ---- the handler ----

  /** Offsets from the stack pointer, a word apart and falling: 12, 8, 4, 0, -4 and so on. */
  function Slot(k: nat): Word {
    if k == 0 then 12 else Slot(k - 1) - 4
  }

  /** The words of the frame: 0 and 1 hold a4 and a5, 3 + k holds xk, 35 + j holds CSR j. */
  const FRAME: nat := 40

  lemma SlotStep(k: nat)
    ensures Slot(k + 1) == Slot(k) - 4
  {
  }

  /** The first and last words: a4 at 12, a5 at 8, x1 at -4, x31 at -124, the CSRs from -128 to -144. */
  lemma SlotsAsCoded()
    ensures Slot(0) == 12 && Slot(1) == 8
    ensures Slot(4) == 0xFFFF_FFFC && Slot(34) == 0xFFFF_FF84 && Slot(35) == 0xFFFF_FF80 && Slot(39) == 0xFFFF_FF70
  {
    assert Slot(10) == 0xFFFF_FFE4;
    assert Slot(20) == 0xFFFF_FFBC;
    assert Slot(30) == 0xFFFF_FF94;
  }

  function At(sp: Word, k: nat): Cell {
    Plus(sp, Slot(k))
  }

  function Save(r: nat, k: nat): Instr
    requires k < FRAME
  {
    Sw(r, Slot(k), SP)
  }

  function Load(r: nat, k: nat): Instr
    requires k < FRAME
  {
    Lw(r, Slot(k), SP)
  }

  /** x1 to xn, each into the slot 4k below the stack pointer. */
  function PushRegs(n: nat): seq<Instr>
    requires n < 32
  {
    if n == 0 then [] else PushRegs(n - 1) + [Save(n, n + 3)]
  }

  function PushCsrs(n: nat): seq<Instr>
    requires n <= CSR_COUNT
  {
    if n == 0 then [] else PushCsrs(n - 1) + [Csrr(T6, n - 1)] + [Save(T6, 34 + n)]
  }

  function PopCsrs(n: nat): seq<Instr>
    requires n <= CSR_COUNT
  {
    if n == 0 then [] else PopCsrs(n - 1) + [Load(T6, 34 + n)] + [Csrw(n - 1, T6)]
  }

  function PopRegs(n: nat): seq<Instr>
    requires n < 32
  {
    if n == 0 then [] else PopRegs(n - 1) + [Load(n, n + 3)]
  }

  const ACK_OFFSET: Word := 4

  const PROLOGUE := [Addi(SP, SP, 0xFFFF_FFF0)] + [Save(A4, 0)] + [Save(A5, 1)]

  /** Raise or drop the private acknowledge bit, then take a4 and a5 back from the stack. */
  const ACKNOWLEDGE := [Li(A4, 1)] + [Li(A5, PRIVATE_BASE)] + [Sw(A4, ACK_OFFSET, A5)] + [Load(A4, 0)] + [Load(A5, 1)]

  const EPILOGUE := [Li(A5, PRIVATE_BASE)] + [Sw(0, ACK_OFFSET, A5)] + [Load(A5, 1)] + [Addi(SP, SP, 16)]

  const PUSH_POP := PushRegs(31) + PushCsrs(5) + PopCsrs(5) + PopRegs(31)

  const HANDLER := PROLOGUE + ACKNOWLEDGE + PUSH_POP + EPILOGUE
}
