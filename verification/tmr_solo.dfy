/** The scrubbing program on one fault-free core: pushing and popping changes nothing but the frame. */
module TmrSolo {
  import opened Registers
  import opened TmrBoard

  datatype Solo = Solo(x: map<nat, Word>, csr: map<nat, Word>, mem: map<Cell, Word>)

  function StepSolo(s: Solo, i: Instr): Solo {
    match i
    case Addi(rd, rs, imm) => s.(x := Set(s.x, rd, Sum(X(s.x, rs), imm)))
    case Li(rd, imm) => s.(x := Set(s.x, rd, imm))
    case Csrr(rd, j) => s.(x := Set(s.x, rd, Csr(s.csr, j)))
    case Csrw(j, rs) => s.(csr := s.csr[j := X(s.x, rs)])
    case Sw(src, off, base) => s.(mem := s.mem[Plus(X(s.x, base), off) := X(s.x, src)])
    case Lw(rd, off, base) => s.(x := Set(s.x, rd, Read(s.mem, Plus(X(s.x, base), off))))
  }

  function ExecSolo(s: Solo, program: seq<Instr>): Solo {
    if program == [] then s else StepSolo(ExecSolo(s, program[..|program| - 1]), program[|program| - 1])
  }

  lemma {:induction false} ExecAppend(b: Board, p: seq<Instr>, q: seq<Instr>)
    ensures Exec(b, p + q) == Exec(Exec(b, p), q)
    decreases |q|
  {
    hide Step;
    if q == [] {
      assert p + q == p;
    } else {
      ExecAppend(b, p, q[..|q| - 1]);
      assert (p + q)[..|p + q| - 1] == p + q[..|q| - 1];
    }
  }

  lemma {:induction false} ExecSoloAppend(s: Solo, p: seq<Instr>, q: seq<Instr>)
    ensures ExecSolo(s, p + q) == ExecSolo(ExecSolo(s, p), q)
    decreases |q|
  {
    hide StepSolo;
    if q == [] {
      assert p + q == p;
    } else {
      ExecSoloAppend(s, p, q[..|q| - 1]);
      assert (p + q)[..|p + q| - 1] == p + q[..|q| - 1];
    }
  }

  lemma SoloOneMore(s: Solo, p: seq<Instr>, i: Instr)
    ensures ExecSolo(s, p + [i]) == StepSolo(ExecSolo(s, p), i)
  {
    assert (p + [i])[..|p|] == p;
  }

  /** A slot number in six bits. */
  function Code(k: nat): bv6 {
    if k == 0 then 0 else Code(k - 1) + 1
  }

  lemma NextCode(c: bv6)
    requires c as nat < 63
    ensures (c + 1) as nat == c as nat + 1
  {
  }

  lemma NextWord(c: bv6)
    requires c != 63
    ensures 12 - 4 * ((c + 1) as Word) == 12 - 4 * (c as Word) - 4
  {
  }

  lemma {:induction false} SlotClosed(k: nat)
    requires k < 64
    ensures Code(k) as nat == k
    ensures Slot(k) == 12 - 4 * (Code(k) as Word)
    decreases k
  {
    if k > 0 {
      SlotClosed(k - 1);
      NextCode(Code(k - 1));
      assert Code(k - 1) != 63;
      NextWord(Code(k - 1));
    }
  }

  lemma Cancel(s: Word, x: bv6, y: bv6)
    requires x != y
    ensures s + (12 - 4 * (x as Word)) != s + (12 - 4 * (y as Word))
  {
  }

  /** The words of a frame are different. */
  lemma SlotsApart(sp: Word)
    ensures forall j, k :: 0 <= j < k < FRAME ==> At(sp, j) != At(sp, k)
  {
    hide Slot;
    forall j, k | 0 <= j < k < FRAME
      ensures At(sp, j) != At(sp, k)
    {
      SlotClosed(j);
      SlotClosed(k);
      Cancel(sp, Code(j), Code(k));
    }
  }

  lemma SaveSolo(s: Solo, r: nat, k: nat)
    requires k < FRAME
    ensures StepSolo(s, Save(r, k)) == s.(mem := s.mem[At(X(s.x, SP), k) := X(s.x, r)])
    ensures StepSolo(s, Load(r, k)) == s.(x := Set(s.x, r, Read(s.mem, At(X(s.x, SP), k))))
  {
    hide Slot, Plus;
  }

  /** Two memories agree outside the words lo to hi - 1 of the frame around sp. */
  ghost predicate SameBut(before: map<Cell, Word>, after: map<Cell, Word>, sp: Word, lo: nat, hi: nat) {
    forall a: Cell :: (forall k :: lo <= k < hi ==> a != At(sp, k)) ==> Read(after, a) == Read(before, a)
  }

  ghost predicate HoldsRegs(mem: map<Cell, Word>, sp: Word, x: map<nat, Word>, n: nat) {
    forall k :: 1 <= k <= n ==> Read(mem, At(sp, k + 3)) == X(x, k)
  }

  ghost predicate HoldsCsrs(mem: map<Cell, Word>, sp: Word, csr: map<nat, Word>, n: nat) {
    forall j :: 0 <= j < n ==> Read(mem, At(sp, 35 + j)) == Csr(csr, j)
  }

  lemma ReadBack(mem: map<Cell, Word>, a: Cell, v: Word)
    ensures Read(mem[a := v], a) == v
    ensures forall b: Cell :: b != a ==> Read(mem[a := v], b) == Read(mem, b)
  {
  }

  lemma Written(before: map<Cell, Word>, mem: map<Cell, Word>, sp: Word, lo: nat, hi: nat, v: Word)
    requires SameBut(before, mem, sp, lo, hi) && lo <= hi
    ensures SameBut(before, mem[At(sp, hi) := v], sp, lo, hi + 1)
  {
    hide At;
    var after := mem[At(sp, hi) := v];
    forall a: Cell | forall k :: lo <= k < hi + 1 ==> a != At(sp, k)
      ensures Read(after, a) == Read(before, a)
    {
      assert a != At(sp, hi);
      assert Read(mem, a) == Read(before, a);
    }
  }

  lemma {:induction false} PushRegsSolo(s: Solo, n: nat)
    requires n < 32
    ensures var e, sp := ExecSolo(s, PushRegs(n)), X(s.x, SP);
            && e.x == s.x && e.csr == s.csr
            && HoldsRegs(e.mem, sp, s.x, n)
            && SameBut(s.mem, e.mem, sp, 4, n + 4)
    decreases n
  {
    hide At, StepSolo, ExecSolo, Save, Read, SameBut;
    if n == 0 {
      NothingSolo(s);
    } else {
      var was := ExecSolo(s, PushRegs(n - 1));
      PushRegsSolo(s, n - 1);
      SoloOneMore(s, PushRegs(n - 1), Save(n, n + 3));
      SaveSolo(was, n, n + 3);
      SlotsApart(X(s.x, SP));
      Written(s.mem, was.mem, X(s.x, SP), 4, n + 3, X(s.x, n));
      ReadBack(was.mem, At(X(s.x, SP), n + 3), X(s.x, n));
    }
  }

  lemma NothingSolo(s: Solo)
    ensures ExecSolo(s, []) == s
    ensures forall k :: SameBut(s.mem, s.mem, X(s.x, SP), k, k)
  {
  }

  lemma {:induction false} PushCsrsSolo(s: Solo, n: nat)
    requires n <= CSR_COUNT
    ensures var e, sp := ExecSolo(s, PushCsrs(n)), X(s.x, SP);
            && (forall k :: k != T6 ==> X(e.x, k) == X(s.x, k)) && e.csr == s.csr
            && HoldsCsrs(e.mem, sp, s.csr, n)
            && SameBut(s.mem, e.mem, sp, 35, 35 + n)
    decreases n
  {
    hide At, StepSolo, ExecSolo, Save, Read, SameBut;
    if n == 0 {
      NothingSolo(s);
    } else {
      var was, v := ExecSolo(s, PushCsrs(n - 1)), Csr(s.csr, n - 1);
      PushCsrsSolo(s, n - 1);
      PushOneCsr(s, PushCsrs(n - 1), n);
      SlotsApart(X(s.x, SP));
      Written(s.mem, was.mem, X(s.x, SP), 35, 34 + n, v);
      ReadBack(was.mem, At(X(s.x, SP), 34 + n), v);
    }
  }

  lemma PushOneCsr(s: Solo, p: seq<Instr>, n: nat)
    requires 0 < n <= CSR_COUNT
    ensures var was := ExecSolo(s, p);
            var v := Csr(was.csr, n - 1);
            ExecSolo(s, p + [Csrr(T6, n - 1)] + [Save(T6, 34 + n)])
              == Solo(Set(was.x, T6, v), was.csr, was.mem[At(X(was.x, SP), 34 + n) := v])
  {
    hide At, StepSolo, ExecSolo, Save, Read;
    var was := ExecSolo(s, p);
    SoloOneMore(s, p, Csrr(T6, n - 1));
    SoloOneMore(s, p + [Csrr(T6, n - 1)], Save(T6, 34 + n));
    CsrSolo(was, T6, n - 1);
    SaveSolo(StepSolo(was, Csrr(T6, n - 1)), T6, 34 + n);
  }

  lemma CsrSolo(s: Solo, r: nat, j: nat)
    ensures StepSolo(s, Csrr(r, j)) == s.(x := Set(s.x, r, Csr(s.csr, j)))
    ensures StepSolo(s, Csrw(j, r)) == s.(csr := s.csr[j := X(s.x, r)])
  {
  }

  lemma {:induction false} PopCsrsSolo(s: Solo, csr: map<nat, Word>, n: nat)
    requires n <= CSR_COUNT && HoldsCsrs(s.mem, X(s.x, SP), csr, CSR_COUNT)
    ensures var e := ExecSolo(s, PopCsrs(n));
            && (forall k :: k != T6 ==> X(e.x, k) == X(s.x, k)) && e.mem == s.mem
            && (forall j :: 0 <= j < n ==> Csr(e.csr, j) == Csr(csr, j))
    decreases n
  {
    hide At, StepSolo, ExecSolo, Load;
    if n == 0 {
      NothingSolo(s);
    } else {
      PopCsrsSolo(s, csr, n - 1);
      PopOneCsr(s, PopCsrs(n - 1), n);
    }
  }

  lemma PopOneCsr(s: Solo, p: seq<Instr>, n: nat)
    requires 0 < n <= CSR_COUNT
    ensures var was := ExecSolo(s, p);
            var v := Read(was.mem, At(X(was.x, SP), 34 + n));
            ExecSolo(s, p + [Load(T6, 34 + n)] + [Csrw(n - 1, T6)])
                == Solo(Set(was.x, T6, v), was.csr[n - 1 := v], was.mem)
  {
    hide At, StepSolo, ExecSolo, Load, Read;
    var was := ExecSolo(s, p);
    SoloOneMore(s, p, Load(T6, 34 + n));
    SoloOneMore(s, p + [Load(T6, 34 + n)], Csrw(n - 1, T6));
    SaveSolo(was, T6, 34 + n);
    CsrSolo(StepSolo(was, Load(T6, 34 + n)), T6, n - 1);
  }

  lemma {:induction false} PopRegsSolo(s: Solo, x: map<nat, Word>, n: nat)
    requires n < 32 && HoldsRegs(s.mem, X(s.x, SP), x, 31) && X(x, SP) == X(s.x, SP)
    ensures var e := ExecSolo(s, PopRegs(n));
            && e.mem == s.mem && e.csr == s.csr
            && (forall k :: 1 <= k <= n ==> X(e.x, k) == X(x, k))
            && X(e.x, SP) == X(s.x, SP)
    decreases n
  {
    hide At, StepSolo, ExecSolo, Load;
    if n == 0 {
      NothingSolo(s);
    } else {
      PopRegsSolo(s, x, n - 1);
      SoloOneMore(s, PopRegs(n - 1), Load(n, n + 3));
      SaveSolo(ExecSolo(s, PopRegs(n - 1)), n, n + 3);
    }
  }

  /** On a fault-free core the pushes and pops change no register, no CSR and no memory outside the frame. */
  lemma PushPopSolo(s: Solo)
    ensures var e, sp := ExecSolo(s, PUSH_POP), X(s.x, SP);
            && (forall k :: 1 <= k < 32 ==> X(e.x, k) == X(s.x, k))
            && (forall j :: 0 <= j < CSR_COUNT ==> Csr(e.csr, j) == Csr(s.csr, j))
            && SameBut(s.mem, e.mem, sp, 4, FRAME)
  {
    hide At, ExecSolo, PushRegs, PushCsrs, PopCsrs, PopRegs;
    var a := ExecSolo(s, PushRegs(31));
    var b := ExecSolo(a, PushCsrs(5));
    var c := ExecSolo(b, PopCsrs(5));
    PushRegsSolo(s, 31);
    PushCsrsSolo(a, 5);
    PopCsrsSolo(b, a.csr, 5);
    var sp := X(s.x, SP);
    SlotsApart(sp);
    assert HoldsRegs(b.mem, sp, s.x, 31);
    PopRegsSolo(c, s.x, 31);
    ExecSoloAppend(s, PushRegs(31), PushCsrs(5));
    ExecSoloAppend(s, PushRegs(31) + PushCsrs(5), PopCsrs(5));
    ExecSoloAppend(s, PushRegs(31) + PushCsrs(5) + PopCsrs(5), PopRegs(31));
  }
}
