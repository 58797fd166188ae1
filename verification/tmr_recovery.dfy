/** What scrubbing repairs, and exactly when. */
module TmrRecovery {
  import opened Obi
  import opened TmrVoter
  import opened Registers
  import opened TmrBoard
  import opened TmrSolo
  import opened TmrFollows
  import opened TmrHandler

  /** In step, with the true value in every register and CSR. */
  ghost predicate Repaired(c: Hart, x: map<nat, Word>, csr: map<nat, Word>) {
    && c.inStep
    && (forall k :: 1 <= k < 32 ==> X(c.x, k) == X(x, k))
    && (forall j :: 0 <= j < CSR_COUNT ==> Csr(c.csr, j) == Csr(csr, j))
  }

  lemma RepairedWhole(c: Hart, x: map<nat, Word>, csr: map<nat, Word>, m: Mode)
    requires Whole(m) && RepairedIn(c, x, csr, m)
    ensures Repaired(c, x, csr)
  {
    hide X, Csr;
  }

  /** Every register and every CSR is right in some two cores, not always the same ones. */
  ghost predicate MostlyRight(b: Board, x: map<nat, Word>, csr: map<nat, Word>) {
    && (forall k :: 1 <= k < 32 ==> TwoAgree(Regs(b, k), X(x, k)))
    && (forall j :: 0 <= j < CSR_COUNT ==> TwoAgree(Csrs(b, j), Csr(csr, j)))
  }

  /**
   * The word a core reloads its stack pointer from is on the voted bus, as that core addresses it,
   * and in one piece.
   */
  predicate FindsPointer(c: Hart) {
    Plain(At(Lowered(c), 5))
  }

  /**
   * So are the words of x1 and the CSRs, which it reloads before the stack pointer. No other word
   * of its frame matters.
   */
  ghost predicate FindsAll(c: Hart) {
    FindsPointer(c) && forall k :: k == 4 || 35 <= k < FRAME ==> !Private(At(Lowered(c), k))
  }

  /** The core is at the same instruction as the others, with an aligned stack pointer. */
  predicate Starts(c: Hart) {
    c.inStep && Aligned(At(Lowered(c), 5))
  }

  /** The core is at the same instruction as the others, with its whole frame on the voted bus. */
  ghost predicate Reaches(c: Hart) {
    c.inStep && FramePublic(Lowered(c))
  }

  lemma AlignedWord(sp: Word, c: bv6)
    ensures (sp + (12 - 4 * (c as Word))) & 3 == sp & 3
  {
  }

  lemma AllAligned(sp: Word, j: nat, k: nat)
    requires j < FRAME && k < FRAME && Aligned(At(sp, j))
    ensures Aligned(At(sp, k))
  {
    SlotClosed(j);
    SlotClosed(k);
    AlignedWord(sp, Code(j));
    AlignedWord(sp, Code(k));
  }

  lemma StartsAligned(c: Hart)
    requires Aligned(At(Lowered(c), 5))
    ensures FrameAligned(Lowered(c))
  {
    hide At, Sum, X, Aligned;
    forall k | 0 <= k < FRAME
      ensures Aligned(At(Lowered(c), k))
    {
      AllAligned(Lowered(c), 5, k);
    }
  }

  lemma PointerFits(c: Hart, m: Mode)
    requires c.inStep && if m.whole then FindsAll(c) else FindsPointer(c)
    ensures Fit(c, m)
  {
    hide At, Private, Sum, X, Aligned;
    StartsAligned(c);
  }

  lemma PublicFinds(c: Hart)
    requires FramePublic(Lowered(c))
    ensures FindsAll(c)
  {
    hide At, Private, Sum, X, Aligned;
    assert forall k :: 0 <= k < FRAME ==> Plain(At(Lowered(c), k));
  }

  // ---- the voter decides ----

  function Votes(b: Board): map<nat, Word> {
    map k: nat | k < 32 :: MajorityOf(Regs(b, k))
  }

  function CsrVotes(b: Board): map<nat, Word> {
    map j: nat | j < CSR_COUNT :: MajorityOf(Csrs(b, j))
  }

  /** In step, with the bitwise majority of the three copies in every register and CSR. */
  ghost predicate Decided(b: Board, c: Hart) {
    && c.inStep
    && (forall k :: 1 <= k < 32 ==> X(c.x, k) == MajorityOf(Regs(b, k)))
    && (forall j :: 0 <= j < CSR_COUNT ==> Csr(c.csr, j) == MajorityOf(Csrs(b, j)))
  }

  /** The same for all registers but x1, and not for the CSRs. */
  ghost predicate DecidedMost(b: Board, c: Hart) {
    c.inStep && forall k :: 2 <= k < 32 ==> X(c.x, k) == MajorityOf(Regs(b, k))
  }

  lemma VotesDecide(b: Board, c: Hart, m: Mode)
    requires RepairedIn(c, Votes(b), CsrVotes(b), m)
    ensures if m.whole then Decided(b, c) else DecidedMost(b, c)
  {
    hide MajorityOf, Regs, Csrs;
  }

  /** The core whose stack pointer may differ from v. */
  function OddOne(t: Trio<Word>, v: Word): (f: nat)
    requires TwoAgree(t, v)
    ensures f < 3 && Others(t, v, f)
  {
    if t.c0 != v then 0 else if t.c1 != v then 1 else 2
  }

  function Those(f: nat, too: bool): Trio<bool> {
    Trio(f != 0 || too, f != 1 || too, f != 2 || too)
  }

  lemma VotesReady(b: Board, v: Word, f: nat, whole: bool, too: bool)
    requires f < 3 && Others(Regs(b, SP), v, f) && FramePublic(Sum(v, DOWN))
    requires Starts(b.core.c0) && Starts(b.core.c1) && Starts(b.core.c2)
    requires too ==> Fit(b.core.At(f), Spread(f, whole))
    ensures Ready(b, Votes(b), CsrVotes(b), Spread(f, whole), Those(f, too)) && X(Votes(b), SP) == v
  {
    hide FramePublic, MajorityOf, Sum, At, Fit, FrameAligned, X, Regs, Csrs;
    OthersDecide(Regs(b, SP), v, Spread(f, whole));
    StartsAligned(b.core.At(f));
    VotesAre(b);
    if f != 0 { OtherFits(b, v, f, whole, 0); }
    if f != 1 { OtherFits(b, v, f, whole, 1); }
    if f != 2 { OtherFits(b, v, f, whole, 2); }
  }

  lemma VotesAre(b: Board)
    ensures forall k :: 1 <= k < 32 ==> X(Votes(b), k) == MajorityOf(Regs(b, k))
    ensures forall j :: 0 <= j < CSR_COUNT ==> Csr(CsrVotes(b), j) == MajorityOf(Csrs(b, j))
  {
    hide MajorityOf, Regs, Csrs;
  }

  lemma OtherFits(b: Board, v: Word, f: nat, whole: bool, i: nat)
    requires i < 3 && i != f && Others(Regs(b, SP), v, f) && FramePublic(Sum(v, DOWN)) && b.core.At(i).inStep
    ensures Fit(b.core.At(i), Spread(f, whole)) && FindsAll(b.core.At(i))
  {
    hide FramePublic, Sum, At, X, Private, Aligned;
    assert X(b.core.At(i).x, SP) == v;
    PublicFinds(b.core.At(i));
    PointerFits(b.core.At(i), Spread(f, whole));
  }

  /**
   * Two equal stack pointers with a public frame, everything else arbitrary in all three cores: each
   * core that finds its words ends with the bitwise majority of the three copies. The third frame may
   * lie anywhere; stores of its core still vote.
   */
  lemma MajorityDecides(b: Board, v: Word, i: nat)
    requires i < 3 && TwoAgree(Regs(b, SP), v) && FramePublic(Sum(v, DOWN))
    requires Starts(b.core.c0) && Starts(b.core.c1) && Starts(b.core.c2)
    ensures FindsAll(b.core.At(i)) ==> Decided(b, Exec(b, HANDLER).core.At(i))
    ensures FindsPointer(b.core.At(i)) ==> DecidedMost(b, Exec(b, HANDLER).core.At(i))
    ensures X(b.core.At(i).x, SP) == v ==> FindsAll(b.core.At(i))
  {
    var f := OddOne(Regs(b, SP), v);
    if X(b.core.At(i).x, SP) == v { PublicFinds(b.core.At(i)); }
    if FindsAll(b.core.At(i)) { DecidedIn(b, v, f, true, i); }
    if FindsPointer(b.core.At(i)) { DecidedIn(b, v, f, false, i); }
  }

  lemma DecidedIn(b: Board, v: Word, f: nat, whole: bool, i: nat)
    requires i < 3 && f < 3 && Others(Regs(b, SP), v, f) && FramePublic(Sum(v, DOWN))
    requires Starts(b.core.c0) && Starts(b.core.c1) && Starts(b.core.c2)
    requires if whole then FindsAll(b.core.At(i)) else FindsPointer(b.core.At(i))
    ensures var c := Exec(b, HANDLER).core.At(i);
            if whole then Decided(b, c) else DecidedMost(b, c)
  {
    assert b.core.At(i).inStep by { AllStart(b, i); }
    hide Exec, Ready, RepairedIn, Decided, DecidedMost, Votes, CsrVotes, Regs;
    hide X, Sum, FramePublic, FindsAll, FindsPointer, Starts, Fit;
    var m := Spread(f, whole);
    PointerFits(b.core.At(i), m);
    VotesReady(b, v, f, whole, i == f);
    assert Those(f, i == f).At(i);
    RepairedAt(b, Votes(b), CsrVotes(b), m, Those(f, i == f), i);
    VotesDecide(b, Exec(b, HANDLER).core.At(i), m);
  }

  lemma AllStart(b: Board, i: nat)
    requires i < 3 && Starts(b.core.c0) && Starts(b.core.c1) && Starts(b.core.c2)
    ensures b.core.At(i).inStep
  {
  }

  lemma RepairedAt(b: Board, x: map<nat, Word>, csr: map<nat, Word>, m: Mode, pub: Trio<bool>, i: nat)
    requires i < 3 && Ready(b, x, csr, m, pub) && pub.At(i)
    ensures RepairedIn(Exec(b, HANDLER).core.At(i), x, csr, m)
  {
    hide Exec, Ready, RepairedIn, SameBut, Released;
    ScrubRepairs(b, x, csr, m, pub);
  }

  // ---- a stack pointer that the handler cannot bring back ----

  function SpOf(b: Board, f: nat): Word
    requires f < 3
  {
    X(b.core.At(f).x, SP)
  }

  predicate WritesSp(i: Instr) {
    !i.Sw? && !i.Csrw? && i.rd == SP
  }

  predicate KeepsSp(p: seq<Instr>) {
    forall n :: 0 <= n < |p| ==> !WritesSp(p[n])
  }

  predicate SameSp(c: Hart, after: Hart) {
    && X(after.x, SP) == X(c.x, SP) && after.id == c.id
    && (after.inStep ==> c.inStep)
  }

  lemma LocalKeepsSp(c: Hart, i: Instr)
    requires Local(i) && !WritesSp(i)
    ensures SameSp(c, StepLocal(c, i))
  {
    hide Sum, Csr;
  }

  lemma FinishKeepsSp(c: Hart, i: Instr, voted: Req, mem: map<Cell, Word>)
    requires !Local(i) && !WritesSp(i)
    ensures SameSp(c, Finish(c, i, voted, mem))
  {
    hide Private, Aligned, Plus, Read, PrivateRead;
  }

  lemma StepKeepsSp(b: Board, i: Instr, f: nat)
    requires f < 3 && !WritesSp(i)
    ensures SameSp(b.core.At(f), Step(b, i).core.At(f))
  {
    hide Voted, SameSp, Finish, StepLocal;
    if Local(i) {
      LocalKeepsSp(b.core.At(f), i);
    } else {
      FinishKeepsSp(b.core.At(f), i, Voted(b, i), b.mem);
    }
  }

  lemma {:induction false} ExecKeepsSp(b: Board, p: seq<Instr>, f: nat)
    requires f < 3 && KeepsSp(p)
    ensures SameSp(b.core.At(f), Exec(b, p).core.At(f))
    decreases |p|
  {
    hide Step, WritesSp, X;
    if p != [] {
      var q := p[..|p| - 1];
      forall n | 0 <= n < |q|
        ensures !WritesSp(q[n])
      {
        assert q[n] == p[n];
      }
      ExecKeepsSp(b, q, f);
      StepKeepsSp(Exec(b, q), p[|p| - 1], f);
    }
  }

  lemma KeepsSpAppend(p: seq<Instr>, q: seq<Instr>)
    requires KeepsSp(p) && KeepsSp(q)
    ensures KeepsSp(p + q)
  {
    hide WritesSp;
  }

  lemma {:induction false} PushesKeepSp(n: nat, m: nat)
    requires n < 32 && m <= CSR_COUNT
    ensures KeepsSp(PushRegs(n)) && KeepsSp(PushCsrs(m)) && KeepsSp(PopCsrs(m))
    decreases n + m
  {
    hide Slot;
    if n > 0 { PushesKeepSp(n - 1, m); }
    if m > 0 { PushesKeepSp(n, m - 1); }
  }

  /** After its own reload, popping the other registers leaves the stack pointer alone. */
  lemma {:induction false} PopsKeepSp(b: Board, n: nat, f: nat)
    requires f < 3 && 2 <= n < 32
    ensures SameSp(Exec(b, PopRegs(2)).core.At(f), Exec(b, PopRegs(n)).core.At(f))
    decreases n
  {
    hide Step, Exec, Load, X;
    if n > 2 {
      PopsKeepSp(b, n - 1, f);
      OneMore(b, PopRegs(n - 1), Load(n, n + 3));
      assert !WritesSp(Load(n, n + 3)) by { LoadWrites(n, n + 3); }
      StepKeepsSp(Exec(b, PopRegs(n - 1)), Load(n, n + 3), f);
    }
  }

  lemma LoadWrites(r: nat, k: nat)
    requires k < FRAME
    ensures WritesSp(Load(r, k)) <==> r == SP
  {
  }

  lemma FirstPops()
    ensures KeepsSp(PopRegs(1)) && PopRegs(2) == PopRegs(1) + [Load(2, 5)]
  {
    hide Slot;
    assert PopRegs(1) == PopRegs(0) + [Load(1, 4)] == [Load(1, 4)];
  }

  predicate PrivateValue(v: Word, id: Word) {
    v == id || v == 0 || v == 1 || v == 0xFFFF_FFFF
  }

  /** The identifications wired to the three cores. */
  predicate CoreId(id: Word) {
    id == 1 || id == 2 || id == 4
  }

  /** A stack pointer that no private register can read as, once the frame is left. */
  predicate Proper(v: Word) {
    v & 3 == 0 && 24 <= v
  }

  lemma PrivateIsWrong(v: Word, id: Word, sp: Word)
    requires PrivateValue(v, id) && CoreId(id) && Proper(sp)
    ensures Sum(v, 16) != sp
  {
  }

  /** Out of step, or aligned with a private register's value for a stack pointer. */
  predicate Astray(c: Hart, id: Word, aligned: bool) {
    c.inStep ==> aligned && PrivateValue(X(c.x, SP), id)
  }

  /** A core whose saved stack pointer is not on the voted bus in one piece goes astray when it reloads it. */
  lemma ReloadAstray(c: Hart, voted: Req, mem: map<Cell, Word>)
    requires !Plain(At(X(c.x, SP), 5))
    ensures Astray(Finish(c, Load(SP, 5), voted, mem), c.id, Aligned(At(X(c.x, SP), 5)))
  {
    hide Private, Aligned, Slot, Sum;
  }

  lemma AstrayAfterPushPop(b: Board, f: nat)
    requires f < 3 && !Plain(At(SpOf(b, f), 5))
    ensures Astray(Exec(b, PUSH_POP).core.At(f), b.core.At(f).id, Aligned(At(SpOf(b, f), 5)))
  {
    hide Exec, PushRegs, PushCsrs, PopCsrs, PopRegs, Plain, At, Step, X, Finish, Voted, PrivateValue, Aligned;
    var pushes := PushRegs(31) + PushCsrs(5) + PopCsrs(5);
    PushesKeepSp(31, 5);
    KeepsSpAppend(PushRegs(31), PushCsrs(5));
    KeepsSpAppend(PushRegs(31) + PushCsrs(5), PopCsrs(5));
    assert KeepsSp(PopRegs(1)) && PopRegs(2) == PopRegs(1) + [Load(2, 5)] by { FirstPops(); }
    KeepsSpAppend(pushes, PopRegs(1));
    var c, d := Exec(b, pushes), Exec(b, pushes + PopRegs(1));
    ExecKeepsSp(b, pushes + PopRegs(1), f);
    ExecAppend(b, pushes, PopRegs(1));
    ExecAppend(b, pushes, PopRegs(31));
    OneMore(c, PopRegs(1), Load(SP, 5));
    ReloadStep(d, f);
    PopsKeepSp(c, 31, f);
  }

  lemma ReloadStep(b: Board, f: nat)
    requires f < 3 && !Plain(At(SpOf(b, f), 5))
    ensures Astray(Step(b, Load(SP, 5)).core.At(f), b.core.At(f).id, Aligned(At(SpOf(b, f), 5)))
  {
    hide Plain, At, X, Finish, Voted, Astray, Aligned;
    ReloadAstray(b.core.At(f), Voted(b, Load(SP, 5)), b.mem);
  }

  lemma AddiSp(b: Board, f: nat, d: Word)
    requires f < 3
    ensures var c, after := b.core.At(f), Step(b, Addi(SP, SP, d)).core.At(f);
            X(after.x, SP) == Sum(X(c.x, SP), d) && after.id == c.id && after.inStep == c.inStep
  {
    hide Sum;
  }

  lemma EndsKeepSp()
    ensures KeepsSp([Save(A4, 0)] + [Save(A5, 1)]) && KeepsSp(ACKNOWLEDGE)
    ensures KeepsSp([Li(A5, PRIVATE_BASE)] + [Sw(0, ACK_OFFSET, A5)] + [Load(A5, 1)])
  {
    hide Slot;
  }

  lemma PointerOnEntry(b: Board, f: nat)
    requires f < 3
    ensures var c := Exec(Exec(b, PROLOGUE), ACKNOWLEDGE).core.At(f);
            X(c.x, SP) == Lowered(b.core.At(f)) && c.id == b.core.At(f).id
  {
    hide Exec, Sum, Save, Load, Step, KeepsSp, X;
    var down := Addi(SP, SP, DOWN);
    var saves := [Save(A4, 0)] + [Save(A5, 1)];
    EndsKeepSp();
    Nothing(b);
    OneMore(b, [], down);
    assert [] + [down] == [down];
    ExecAppend(b, [down], saves);
    assert [down] + saves == PROLOGUE;
    AddiSp(b, f, DOWN);
    ExecKeepsSp(Exec(b, [down]), saves, f);
    ExecKeepsSp(Exec(b, PROLOGUE), ACKNOWLEDGE, f);
  }

  lemma PointerOnExit(b: Board, f: nat, id: Word, aligned: bool)
    requires f < 3 && Astray(b.core.At(f), id, aligned)
    ensures var c := Exec(b, EPILOGUE).core.At(f);
            c.inStep ==> aligned && exists v :: PrivateValue(v, id) && X(c.x, SP) == Sum(v, 16)
  {
    hide Exec, Sum, Save, Load, Step, KeepsSp, X, PrivateValue;
    var loads, up := [Li(A5, PRIVATE_BASE)] + [Sw(0, ACK_OFFSET, A5)] + [Load(A5, 1)], Addi(SP, SP, 16);
    EndsKeepSp();
    ExecKeepsSp(b, loads, f);
    OneMore(b, loads, up);
    AddiSp(Exec(b, loads), f, 16);
  }

  /**
   * Whatever the cores hold: a core that does not find its saved stack pointer leaves the handler out
   * of step or with a wrong one, and out of step for sure when its stack pointer was not aligned.
   */
  lemma LostPointer(b: Board, f: nat, v: Word)
    requires f < 3 && CoreId(b.core.At(f).id) && Proper(v) && !FindsPointer(b.core.At(f))
    ensures var c := Exec(b, HANDLER).core.At(f);
            !(c.inStep && X(c.x, SP) == v) && (c.inStep ==> Aligned(At(Lowered(b.core.At(f)), 5)))
  {
    hide Exec, Sum, X, At, Plain, PrivateValue, Astray, CoreId, Proper, Aligned;
    var b2, aligned := Exec(Exec(b, PROLOGUE), ACKNOWLEDGE), Aligned(At(Lowered(b.core.At(f)), 5));
    HandlerPhases(b);
    PointerOnEntry(b, f);
    AstrayAfterPushPop(b2, f);
    PointerOnExit(Exec(b2, PUSH_POP), f, b.core.At(f).id, aligned);
    var c := Exec(b, HANDLER).core.At(f);
    if c.inStep {
      var w :| PrivateValue(w, b.core.At(f).id) && X(c.x, SP) == Sum(w, 16);
      PrivateIsWrong(w, b.core.At(f).id, v);
    }
  }

  // ---- one faulty core ----

  lemma ReadyToo(b: Board, x: map<nat, Word>, csr: map<nat, Word>, f: nat, whole: bool)
    requires f < 3 && Ready(b, x, csr, One(f, whole), Those(f, false)) && Fit(b.core.At(f), One(f, whole))
    ensures Ready(b, x, csr, One(f, whole), Those(f, true))
  {
    hide X, RegsAgree, CsrsAgree, FramePublic, Sum, Fit;
  }

  /**
   * One core wrong in any way: it leaves in step with its stack pointer repaired, and then with x2 to
   * x31 repaired, exactly when it finds its saved stack pointer.
   */
  lemma StackPointerRepairedIff(b: Board, x: map<nat, Word>, csr: map<nat, Word>, f: nat)
    requires f < 3 && Ready(b, x, csr, One(f, false), Those(f, false)) && b.core.At(f).inStep
    requires CoreId(b.core.At(f).id) && Proper(X(x, SP))
    ensures var c := Exec(b, HANDLER).core.At(f);
            && (c.inStep && X(c.x, SP) == X(x, SP) <==> FindsPointer(b.core.At(f)))
            && (c.inStep && X(c.x, SP) == X(x, SP) ==> forall k :: 2 <= k < 32 ==> X(c.x, k) == X(x, k))
  {
    hide Exec, Ready, X, FindsPointer, Sum, CoreId, Proper, Released, SameBut, Csr, Fit;
    if FindsPointer(b.core.At(f)) {
      PointerFits(b.core.At(f), One(f, false));
      ReadyToo(b, x, csr, f, false);
      ScrubRepairs(b, x, csr, One(f, false), Those(f, true));
    } else {
      LostPointer(b, f, X(x, SP));
    }
  }

  /**
   * The same for the whole file, unless an edge of the private window divides the few words that
   * matter. The healthy cores are repaired in any case.
   */
  lemma FaultyCoreRepairedIff(b: Board, x: map<nat, Word>, csr: map<nat, Word>, f: nat)
    requires f < 3 && Ready(b, x, csr, One(f, true), Those(f, false)) && b.core.At(f).inStep
    requires CoreId(b.core.At(f).id) && Proper(X(x, SP)) && Undivided(b.core.At(f))
    ensures var after := Exec(b, HANDLER);
            && (Repaired(after.core.At(f), x, csr) <==> FindsPointer(b.core.At(f)))
            && forall i :: 0 <= i < 3 && i != f ==> Repaired(after.core.At(i), x, csr)
  {
    hide Exec, Ready, X, FindsPointer, FindsAll, Sum, CoreId, Proper, Released, SameBut, Csr, RepairedIn, Fit;
    var after, m := Exec(b, HANDLER), One(f, true);
    ScrubRepairs(b, x, csr, m, Those(f, false));
    forall i | 0 <= i < 3 && i != f
      ensures Repaired(after.core.At(i), x, csr)
    {
      RepairedWhole(after.core.At(i), x, csr, m);
    }
    if FindsPointer(b.core.At(f)) {
      PointerFits(b.core.At(f), m);
      ReadyToo(b, x, csr, f, true);
      ScrubRepairs(b, x, csr, m, Those(f, true));
      RepairedWhole(after.core.At(f), x, csr, m);
    } else {
      LostPointer(b, f, X(x, SP));
    }
  }

  // ---- faults spread over the cores ----

  /** No edge of the private window lies between the words the core must find. */
  ghost predicate Undivided(c: Hart) {
    FindsPointer(c) ==> FindsAll(c)
  }

  lemma MostlyDecided(b: Board, x: map<nat, Word>, csr: map<nat, Word>, c: Hart)
    requires MostlyRight(b, x, csr)
    ensures Decided(b, c) ==> Repaired(c, x, csr)
    ensures DecidedMost(b, c) ==> c.inStep && forall k :: 2 <= k < 32 ==> X(c.x, k) == X(x, k)
  {
    hide X, Csr, MajorityOf, TwoAgree;
    forall k | 1 <= k < 32
      ensures MajorityOf(Regs(b, k)) == X(x, k)
    {
      MajorityTwo(Regs(b, k), X(x, k));
    }
    forall j | 0 <= j < CSR_COUNT
      ensures MajorityOf(Csrs(b, j)) == Csr(csr, j)
    {
      MajorityTwo(Csrs(b, j), Csr(csr, j));
    }
  }

  /**
   * Each register and CSR, stack pointer included, wrong in at most one core, a different one each time
   * if need be. Core by core: it leaves in step with its stack pointer repaired, and then with x2 to x31
   * repaired, exactly when it finds its saved stack pointer; a core that finds all its words, so every
   * core whose stack pointer is right, is repaired as a whole, wherever the frame of another may lie.
   */
  lemma MajorityRepairs(b: Board, x: map<nat, Word>, csr: map<nat, Word>, i: nat)
    requires i < 3 && MostlyRight(b, x, csr) && FramePublic(Sum(X(x, SP), DOWN))
    requires Starts(b.core.c0) && Starts(b.core.c1) && Starts(b.core.c2)
    requires CoreId(b.core.At(i).id) && Proper(X(x, SP))
    ensures var was, c := b.core.At(i), Exec(b, HANDLER).core.At(i);
            && (c.inStep && X(c.x, SP) == X(x, SP) <==> FindsPointer(was))
            && (c.inStep && X(c.x, SP) == X(x, SP) ==> forall k :: 2 <= k < 32 ==> X(c.x, k) == X(x, k))
            && (FindsAll(was) ==> Repaired(c, x, csr))
            && (X(was.x, SP) == X(x, SP) ==> Repaired(c, x, csr))
  {
    assert TwoAgree(Regs(b, SP), X(x, SP));
    hide Exec, MostlyRight, X, FindsPointer, FindsAll, Sum, CoreId;
    hide Proper, Decided, DecidedMost, Repaired, FramePublic, Starts;
    MajorityDecides(b, X(x, SP), i);
    MostlyDecided(b, x, csr, Exec(b, HANDLER).core.At(i));
    if !FindsPointer(b.core.At(i)) { LostPointer(b, i, X(x, SP)); }
  }

  /** All three at once; stack pointers need not be aligned. The true frame is public, or its pointer's word is not. */
  lemma MajorityRepairsIff(b: Board, x: map<nat, Word>, csr: map<nat, Word>)
    requires MostlyRight(b, x, csr) && Proper(X(x, SP))
    requires Plain(At(Sum(X(x, SP), DOWN), 5)) ==> FramePublic(Sum(X(x, SP), DOWN))
    requires forall i :: 0 <= i < 3 ==> b.core.At(i).inStep && CoreId(b.core.At(i).id)
    ensures var after, found := Exec(b, HANDLER), forall i :: 0 <= i < 3 ==> FindsPointer(b.core.At(i));
            && ((forall i :: 0 <= i < 3 ==> after.core.At(i).inStep && SpOf(after, i) == X(x, SP)) <==> found)
            && ((forall i :: 0 <= i < 3 ==> Undivided(b.core.At(i))) ==>
                  ((forall i :: 0 <= i < 3 ==> Repaired(after.core.At(i), x, csr)) <==> found))
  {
    hide Exec, X, Csr, CoreId, Proper, FramePublic, Repaired, FindsAll, Sum, At, Plain, TwoAgree;
    var v := X(x, SP);
    if i :| 0 <= i < 3 && !FindsPointer(b.core.At(i)) {
      LostPointer(b, i, v);
      RepairedPointer(Exec(b, HANDLER).core.At(i), x, csr);
    } else {
      assert TwoAgree(Regs(b, SP), v);
      hide MostlyRight;
      forall i | 0 <= i < 3
        ensures Starts(b.core.At(i))
      {
        assert FindsPointer(b.core.At(i));
        FoundStarts(b.core.At(i));
      }
      assert Starts(b.core.At(0)) && Starts(b.core.At(1)) && Starts(b.core.At(2));
      TrueFrame(b, v);
      hide Starts;
      forall i | 0 <= i < 3
        ensures Exec(b, HANDLER).core.At(i).inStep && SpOf(Exec(b, HANDLER), i) == v
        ensures FindsAll(b.core.At(i)) ==> Repaired(Exec(b, HANDLER).core.At(i), x, csr)
      {
        assert FindsPointer(b.core.At(i));
        MajorityRepairs(b, x, csr, i);
      }
    }
  }

  lemma RepairedPointer(c: Hart, x: map<nat, Word>, csr: map<nat, Word>)
    ensures Repaired(c, x, csr) ==> c.inStep && X(c.x, SP) == X(x, SP)
  {
    hide X, Csr;
  }

  lemma FoundStarts(c: Hart)
    requires FindsPointer(c) && c.inStep
    ensures Starts(c)
  {
  }

  lemma TrueFrame(b: Board, v: Word)
    requires TwoAgree(Regs(b, SP), v) && forall i :: 0 <= i < 3 ==> FindsPointer(b.core.At(i))
    ensures Plain(At(Sum(v, DOWN), 5))
  {
    hide Plain, At, Sum, X;
    assert FindsPointer(b.core.At(0)) && FindsPointer(b.core.At(1)) && FindsPointer(b.core.At(2));
  }

  // ---- an input ----

  lemma InRam(sp: Word, c: bv6)
    requires sp == 0xF002_7F00
    ensures (sp + 0xFFFF_FFF0 + (12 - 4 * (c as Word))) & 0xFFFF_0003 == 0xF002_0000
    ensures ((sp ^ 0x0002_0000) + 0xFFFF_FFF0 + (12 - 4 * (c as Word))) & 0xFFFF_0003 == PRIVATE_BASE
  {
  }

  lemma Masks(a: Word, high: Word)
    requires high & 0xFFFF == 0 && a & 0xFFFF_0003 == high
    ensures a & 0xFFFF_0000 == high && a & 3 == 0
  {
  }

  ghost predicate FramePrivate(sp: Word) {
    forall k :: 0 <= k < FRAME ==> Private(At(sp, k))
  }

  /** One flipped bit is enough: a stack in the RAM, with bit 17 of the pointer wrong, is a private frame. */
  lemma OneFlippedBit()
    ensures FramePublic(Sum(0xF002_7F00, DOWN))
    ensures FramePrivate(Sum(0xF002_7F00 ^ 0x0002_0000, DOWN))
  {
    var good, bad := Sum(0xF002_7F00, DOWN), Sum(0xF002_7F00 ^ 0x0002_0000, DOWN);
    forall k | 0 <= k < FRAME
      ensures Plain(At(good, k)) && Private(At(bad, k))
    {
      SlotClosed(k);
      InRam(0xF002_7F00, Code(k));
      Masks(At(good, k).at, 0xF002_0000);
      Masks(At(bad, k).at, PRIVATE_BASE);
    }
  }
}
