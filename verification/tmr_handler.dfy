/** The cores follow the fault-free one through every phase of the scrubbing handler. */
module TmrHandler {
  import opened Obi
  import opened TmrVoter
  import opened Registers
  import opened TmrBoard
  import opened TmrSolo
  import opened TmrFollows

  lemma OneMore(b: Board, p: seq<Instr>, i: Instr)
    ensures Exec(b, p + [i]) == Step(Exec(b, p), i)
  {
    assert (p + [i])[..|p|] == p;
  }

  lemma Nothing(b: Board)
    ensures Exec(b, []) == b
  {
  }

  function UpTo(n: nat): (regs: set<nat>)
    ensures forall k :: k in regs <==> 1 <= k <= n
  {
    if n == 0 then {} else UpTo(n - 1) + {n}
  }

  function Below(n: nat): (csrs: set<nat>)
    ensures forall j :: j in csrs <==> 0 <= j < n
  {
    if n == 0 then {} else Below(n - 1) + {n - 1}
  }

  /** x1 and the CSRs are reloaded before the stack pointer. */
  predicate Whole(m: Mode) {
    m.whole
  }

  function Popped(n: nat, m: Mode): set<nat> {
    if Whole(m) then UpTo(n) else UpTo(n) - {1}
  }

  function PoppedCsrs(n: nat, m: Mode): set<nat> {
    if Whole(m) then Below(n) else {}
  }

  lemma Forget(b: Board, s: Solo, m: Mode, pub: Trio<bool>, regs: set<nat>, csrs: set<nat>)
    requires Follows(b, s, m, pub, regs, csrs)
    ensures Follows(b, s, m, pub, {}, csrs)
  {
    hide RegsAgree, CsrsAgree, FramePublic, FramePart, X, Csr;
  }

  lemma ForgetAll(b: Board, s: Solo, m: Mode, pub: Trio<bool>, regs: set<nat>, csrs: set<nat>)
    requires Follows(b, s, m, pub, regs, csrs)
    ensures Follows(b, s, m, pub, {}, {})
  {
    hide RegsAgree, CsrsAgree, FramePublic, FramePart, X, Csr;
  }

  // ---- core f stays steady while it keeps its stack pointer ----

  lemma SteadySet(b: Board, after: Board, m: Mode, r: nat, w: Word)
    requires Steady(b, m) && r != 0 && r != SP
    requires m.Spread? ==> RegSet(b.core.At(m.f), after.core.At(m.f), r, w) && after.core.At(m.f).inStep
    ensures Steady(after, m)
  {
    hide FrameAligned, X, Set;
    if m.Spread? { XSet(b.core.At(m.f).x, r, w, SP); }
  }

  lemma SteadyLocal(b: Board, m: Mode, r: nat, v: Word, j: nat)
    requires Steady(b, m) && r != 0 && r != SP
    ensures Steady(Step(b, Li(r, v)), m) && Steady(Step(b, Csrr(r, j)), m)
  {
    hide FrameAligned, X, Set, Csr;
    if m.Spread? {
      SteadySet(b, Step(b, Li(r, v)), m, r, v);
      SteadySet(b, Step(b, Csrr(r, j)), m, r, Csr(b.core.At(m.f).csr, j));
    }
  }

  lemma SteadyLoad(b: Board, m: Mode, r: nat, k: nat)
    requires Steady(b, m) && 1 <= r < 32 && r != SP && k < FRAME && Voted(b, Load(r, k)).req
    ensures Steady(Step(b, Load(r, k)), m)
  {
    hide FrameAligned, X, Set, Voted, Finish, At, Aligned, Loaded, Read;
    if m.Spread? {
      var c, v := b.core.At(m.f), Voted(b, Load(r, k));
      IsLoad(r, k);
      FrameAlignedAt(X(c.x, SP), k);
      LoadSets(c, r, k, v, b.mem);
      assert Step(b, Load(r, k)).core.At(m.f) == Finish(c, Load(r, k), v, b.mem);
      SteadySet(b, Step(b, Load(r, k)), m, r, Loaded(c, Load(r, k), Read(b.mem, Cell(v.addr))));
    }
  }

  lemma FollowsSteadyLoad(b: Board, s: Solo, m: Mode, pub: Trio<bool>, r: nat, k: nat)
    requires Follows(b, s, m, pub, {}, {}) && Steady(b, m) && 1 <= r < 32 && r != SP && k < FRAME
    ensures Follows(Step(b, Load(r, k)), StepSolo(s, Load(r, k)), m, pub, {}, {}) && Steady(Step(b, Load(r, k)), m)
  {
    hide Follows, Step, StepSolo, Steady, Voted, Load, At, X;
    IsLoad(r, k);
    FollowsLoad(b, s, m, pub, {}, {}, r, k);
    VotedIsTrue(b, s, m, pub, {}, {}, Load(r, k), r, k);
    SteadyLoad(b, m, r, k);
    ForgetAll(Step(b, Load(r, k)), StepSolo(s, Load(r, k)), m, pub, With({}, r, Reloads(k, m)), {});
  }

  // ---- pushes and pops ----

  lemma {:induction false} FollowsPushRegs(b: Board, s: Solo, m: Mode, pub: Trio<bool>, n: nat)
    requires Follows(b, s, m, pub, {}, {}) && Steady(b, m) && n < 32
    ensures Follows(Exec(b, PushRegs(n)), ExecSolo(s, PushRegs(n)), m, pub, {}, {}) && Steady(Exec(b, PushRegs(n)), m)
    decreases n
  {
    hide Follows, Step, StepSolo, Exec, ExecSolo, Save, Steady;
    Nothing(b);
    NothingSolo(s);
    if n > 0 {
      FollowsPushRegs(b, s, m, pub, n - 1);
      OneMore(b, PushRegs(n - 1), Save(n, n + 3));
      SoloOneMore(s, PushRegs(n - 1), Save(n, n + 3));
      FollowsSave(Exec(b, PushRegs(n - 1)), ExecSolo(s, PushRegs(n - 1)), m, pub, {}, {}, n, n + 3);
    }
  }

  lemma {:induction false} FollowsPushCsrs(b: Board, s: Solo, m: Mode, pub: Trio<bool>, n: nat)
    requires Follows(b, s, m, pub, {}, {}) && Steady(b, m) && n <= CSR_COUNT
    ensures Follows(Exec(b, PushCsrs(n)), ExecSolo(s, PushCsrs(n)), m, pub, {}, {})
    ensures Steady(Exec(b, PushCsrs(n)), m)
    decreases n
  {
    hide Follows, Step, StepSolo, Exec, ExecSolo, Save, Steady;
    Nothing(b);
    NothingSolo(s);
    if n > 0 {
      FollowsPushCsrs(b, s, m, pub, n - 1);
      var p := PushCsrs(n - 1);
      OneMore(b, p, Csrr(T6, n - 1));
      SoloOneMore(s, p, Csrr(T6, n - 1));
      OneMore(b, p + [Csrr(T6, n - 1)], Save(T6, 34 + n));
      SoloOneMore(s, p + [Csrr(T6, n - 1)], Save(T6, 34 + n));
      FollowsCsrr(Exec(b, p), ExecSolo(s, p), m, pub, {}, {}, T6, n - 1);
      SteadyLocal(Exec(b, p), m, T6, 0, n - 1);
      assert With({}, T6, false) == {};
      FollowsSave(Exec(b, p + [Csrr(T6, n - 1)]), ExecSolo(s, p + [Csrr(T6, n - 1)]), m, pub, {}, {}, T6, 34 + n);
    }
  }

  lemma {:induction false} FollowsPopCsrs(b: Board, s: Solo, m: Mode, pub: Trio<bool>, n: nat)
    requires Follows(b, s, m, pub, {}, {}) && n <= CSR_COUNT
    ensures Follows(Exec(b, PopCsrs(n)), ExecSolo(s, PopCsrs(n)), m, pub, {}, PoppedCsrs(n, m))
    decreases n
  {
    hide Follows, Step, StepSolo, Exec, ExecSolo, Load;
    Nothing(b);
    NothingSolo(s);
    if n > 0 {
      FollowsPopCsrs(b, s, m, pub, n - 1);
      var p, csrs, load, write := PopCsrs(n - 1), PoppedCsrs(n - 1, m), Load(T6, 34 + n), Csrw(n - 1, T6);
      OneMore(b, p, load);
      SoloOneMore(s, p, load);
      OneMore(b, p + [load], write);
      SoloOneMore(s, p + [load], write);
      var regs := With({}, T6, Whole(m));
      FollowsLoad(Exec(b, p), ExecSolo(s, p), m, pub, {}, csrs, T6, 34 + n);
      FollowsCsrw(Exec(b, p + [load]), ExecSolo(s, p + [load]), m, pub, regs, csrs, T6, n - 1);
      assert With(csrs, n - 1, T6 in regs) == PoppedCsrs(n, m);
      Forget(Exec(b, PopCsrs(n)), ExecSolo(s, PopCsrs(n)), m, pub, regs, PoppedCsrs(n, m));
    } else {
      assert PoppedCsrs(0, m) == {};
    }
  }

  lemma {:induction false} FollowsPopRegs(b: Board, s: Solo, m: Mode, pub: Trio<bool>, csrs: set<nat>,
                                          x: map<nat, Word>, n: nat)
    requires Follows(b, s, m, pub, {}, csrs) && n < 32
    requires HoldsRegs(s.mem, X(s.x, SP), x, 31) && X(x, SP) == X(s.x, SP)
    ensures Follows(Exec(b, PopRegs(n)), ExecSolo(s, PopRegs(n)), m, pub, Popped(n, m), csrs)
    decreases n
  {
    hide Follows, Step, StepSolo, Exec, ExecSolo, Load, At;
    Nothing(b);
    NothingSolo(s);
    if n > 0 {
      FollowsPopRegs(b, s, m, pub, csrs, x, n - 1);
      PopRegsSolo(s, x, n - 1);
      OneMore(b, PopRegs(n - 1), Load(n, n + 3));
      SoloOneMore(s, PopRegs(n - 1), Load(n, n + 3));
      var regs := Popped(n - 1, m);
      FollowsLoad(Exec(b, PopRegs(n - 1)), ExecSolo(s, PopRegs(n - 1)), m, pub, regs, csrs, n, n + 3);
      assert With(regs, n, Reloads(n + 3, m) || SP in regs) == Popped(n, m);
    } else {
      assert Popped(0, m) == {};
    }
  }

  lemma FollowsPushPop(b: Board, s: Solo, m: Mode, pub: Trio<bool>)
    requires Follows(b, s, m, pub, {}, {}) && Steady(b, m)
    ensures Follows(Exec(b, PUSH_POP), ExecSolo(s, PUSH_POP), m, pub, Popped(31, m), PoppedCsrs(5, m))
  {
    hide Follows, Exec, ExecSolo, PushRegs, PushCsrs, PopCsrs, PopRegs, At, Steady;
    var p, q, r := PushRegs(31), PushCsrs(5), PopCsrs(5);
    var a, b', c := ExecSolo(s, p), ExecSolo(ExecSolo(s, p), q), ExecSolo(ExecSolo(ExecSolo(s, p), q), r);
    FollowsPushRegs(b, s, m, pub, 31);
    FollowsPushCsrs(Exec(b, p), a, m, pub, 5);
    FollowsPopCsrs(Exec(Exec(b, p), q), b', m, pub, 5);
    PushRegsSolo(s, 31);
    PushCsrsSolo(a, 5);
    PopCsrsSolo(b', a.csr, 5);
    SlotsApart(X(s.x, SP));
    assert HoldsRegs(b'.mem, X(s.x, SP), s.x, 31);
    FollowsPopRegs(Exec(Exec(Exec(b, p), q), r), c, m, pub, PoppedCsrs(5, m), s.x, 31);
    ExecSoloAppend(s, p, q);
    ExecSoloAppend(s, p + q, r);
    ExecSoloAppend(s, p + q + r, PopRegs(31));
    ExecAppend(b, p, q);
    ExecAppend(b, p + q, r);
    ExecAppend(b, p + q + r, PopRegs(31));
  }

  // ---- entering ----

  const DOWN: Word := 0xFFFF_FFF0

  /** The stack pointer of a core while it is in the handler. */
  function Lowered(c: Hart): Word {
    Sum(X(c.x, SP), DOWN)
  }

  /** A core that is in step and finds what it must on the voted bus. */
  ghost predicate Fit(c: Hart, m: Mode) {
    c.inStep && FramePart(Lowered(c), m)
  }

  /** Before the handler: x and csr are what the voter makes of the cores. */
  ghost predicate Ready(b: Board, x: map<nat, Word>, csr: map<nat, Word>, m: Mode, pub: Trio<bool>) {
    && Sane(m) && RegsAgree(b, x, m) && CsrsAgree(b, csr, m) && Others(Regs(b, SP), X(x, SP), m.f)
    && FramePublic(Sum(X(x, SP), DOWN)) && Covers(pub, m)
    && (pub.c0 ==> Fit(b.core.c0, m)) && (pub.c1 ==> Fit(b.core.c1, m)) && (pub.c2 ==> Fit(b.core.c2, m))
    && (m.Spread? ==> b.core.At(m.f).inStep && FrameAligned(Lowered(b.core.At(m.f))))
  }

  function Entered(b: Board, x: map<nat, Word>, csr: map<nat, Word>): Solo {
    Solo(Set(x, SP, Sum(X(x, SP), DOWN)), csr, b.mem)
  }

  function Shifted(t: Trio<Word>, d: Word): Trio<Word> {
    Trio(Sum(t.c0, d), Sum(t.c1, d), Sum(t.c2, d))
  }

  lemma PointersShifted(t: Trio<Word>, v: Word, m: Mode, d: Word)
    requires Sane(m) && Others(t, v, m.f)
    ensures Others(Shifted(t, d), Sum(v, d), m.f) && Agree(Shifted(t, d), Sum(v, d), m)
  {
    hide Sum, Agree;
    OthersDecide(Shifted(t, d), Sum(v, d), m);
  }

  lemma EnterCore(c: Hart, s: Solo, m: Mode)
    ensures var after := StepLocal(c, Addi(SP, SP, DOWN));
            && after.csr == c.csr && after.inStep == c.inStep && after.x == Set(c.x, SP, Lowered(c))
            && X(after.x, SP) == Lowered(c) && (Fit(c, m) ==> OnFrame(after, s, m, {}, {}))
  {
    hide Sum, FramePart;
  }

  lemma FollowsEnter(b: Board, x: map<nat, Word>, csr: map<nat, Word>, m: Mode, pub: Trio<bool>)
    requires Ready(b, x, csr, m, pub)
    ensures Follows(Step(b, Addi(SP, SP, DOWN)), Entered(b, x, csr), m, pub, {}, {})
    ensures Steady(Step(b, Addi(SP, SP, DOWN)), m)
  {
    var after, s := Step(b, Addi(SP, SP, DOWN)), Entered(b, x, csr);
    var t, v := Regs(b, SP), X(x, SP);
    hide Agree, X, CsrsAgree, FramePublic, FramePart, FrameAligned, Set, Sum, RegsAgree, OnFrame, StepLocal, Fit;
    PointersShifted(t, v, m, DOWN);
    EnterCore(b.core.c0, s, m);
    EnterCore(b.core.c1, s, m);
    EnterCore(b.core.c2, s, m);
    RegsAgreeSet(b, after, x, m, SP, Shifted(t, DOWN), Sum(v, DOWN));
    AgreeKept(b, after, x, csr, m);
    XSet(x, SP, Sum(v, DOWN), SP);
  }

  function Stacked(b: Board, x: map<nat, Word>, csr: map<nat, Word>): Solo {
    var s := Entered(b, x, csr);
    var sp := X(s.x, SP);
    s.(mem := s.mem[At(sp, 0) := X(s.x, A4)][At(sp, 1) := X(s.x, A5)])
  }

  lemma FollowsPrologue(b: Board, x: map<nat, Word>, csr: map<nat, Word>, m: Mode, pub: Trio<bool>)
    requires Ready(b, x, csr, m, pub)
    ensures Follows(Exec(b, PROLOGUE), Stacked(b, x, csr), m, pub, {}, {}) && Steady(Exec(b, PROLOGUE), m)
  {
    hide Ready, Follows, Step, StepSolo, Exec, X, At, Sum, Save, Set, Steady;
    var p, s := [Addi(SP, SP, DOWN)], Entered(b, x, csr);
    Nothing(b);
    OneMore(b, [], Addi(SP, SP, DOWN));
    assert [] + p == p;
    OneMore(b, p, Save(A4, 0));
    OneMore(b, p + [Save(A4, 0)], Save(A5, 1));
    FollowsEnter(b, x, csr, m, pub);
    FollowsSave(Exec(b, p), s, m, pub, {}, {}, A4, 0);
    SaveSolo(s, A4, 0);
    FollowsSave(Exec(b, p + [Save(A4, 0)]), StepSolo(s, Save(A4, 0)), m, pub, {}, {}, A5, 1);
    SaveSolo(StepSolo(s, Save(A4, 0)), A5, 1);
  }

  // ---- acknowledging ----

  lemma FollowsLi(b: Board, s: Solo, m: Mode, pub: Trio<bool>, regs: set<nat>, csrs: set<nat>, r: nat, v: Word)
    requires Follows(b, s, m, pub, regs, csrs) && 1 <= r < 32 && r != SP
    ensures Follows(Step(b, Li(r, v)), s.(x := Set(s.x, r, v)), m, pub, regs + {r}, csrs)
    ensures Regs(Step(b, Li(r, v)), r) == Trio(v, v, v)
  {
    hide X, Agree, FramePart, FramePublic, RegsAgree, CsrsAgree, Holds;
    OthersDecide(Trio(v, v, v), v, m);
    InStepOnFrame(b.core.c0, s, m, regs, csrs);
    InStepOnFrame(b.core.c1, s, m, regs, csrs);
    InStepOnFrame(b.core.c2, s, m, regs, csrs);
    assert Gets(Trio(v, v, v), v, m, pub, true);
    assert (pub.c0 ==> b.core.c0.inStep) && (pub.c1 ==> b.core.c1.inStep) && (pub.c2 ==> b.core.c2.inStep);
    hide Follows, Gets;
    XSet(b.core.c0.x, r, v, r);
    XSet(b.core.c1.x, r, v, r);
    XSet(b.core.c2.x, r, v, r);
    FollowsSet(b, Step(b, Li(r, v)), s, m, pub, regs, csrs, r, Trio(v, v, v), v, true);
  }

  predicate Odd(v: Word) {
    v & 1 == 1
  }

  lemma AckCore(c: Hart, src: nat, voted: Req, mem: map<Cell, Word>)
    requires X(c.x, A5) == PRIVATE_BASE
    ensures var i := Sw(src, ACK_OFFSET, A5);
            var after := Finish(c, i, voted, mem);
            && (c.inStep ==> !Request(c, i).req)
            && after.x == c.x && after.csr == c.csr && after.ack == Odd(X(c.x, src)) && after.inStep == c.inStep
  {
  }

  lemma NobodyAsks(a: Req, b: Req, c: Req, f: nat)
    requires (f == 0 || !a.req) && (f == 1 || !b.req) && (f == 2 || !c.req)
    ensures !Vote(Trio(a, b, c)).req
  {
    hide Majority4, Majority32;
  }

  /** With the private base in a5, a store reaches no memory: each core writes its own acknowledge bit. */
  lemma FollowsAck(b: Board, s: Solo, m: Mode, pub: Trio<bool>, regs: set<nat>, csrs: set<nat>, src: nat)
    requires Follows(b, s, m, pub, regs, csrs) && Regs(b, A5) == Trio(PRIVATE_BASE, PRIVATE_BASE, PRIVATE_BASE)
    ensures var after := Step(b, Sw(src, ACK_OFFSET, A5));
            && Follows(after, s, m, pub, regs, csrs) && (Steady(b, m) ==> Steady(after, m))
            && after.core.c0.ack == Odd(Regs(b, src).c0)
            && after.core.c1.ack == Odd(Regs(b, src).c1)
            && after.core.c2.ack == Odd(Regs(b, src).c2)
  {
    var i := Sw(src, ACK_OFFSET, A5);
    AckCore(b.core.c0, src, Voted(b, i), b.mem);
    AckCore(b.core.c1, src, Voted(b, i), b.mem);
    AckCore(b.core.c2, src, Voted(b, i), b.mem);
    hide Finish, At, X, FramePublic, FramePart, FrameAligned, RegsAgree, CsrsAgree, Odd, Request, Vote, Holds;
    InStepOnFrame(b.core.c0, s, m, regs, csrs);
    InStepOnFrame(b.core.c1, s, m, regs, csrs);
    InStepOnFrame(b.core.c2, s, m, regs, csrs);
    NobodyAsks(Request(b.core.c0, i), Request(b.core.c1, i), Request(b.core.c2, i), m.f);
    FollowsMemory(b, Step(b, i), s, m, pub, regs, csrs, s.mem);
  }

  ghost predicate TopSlots(s: Solo) {
    Read(s.mem, At(X(s.x, SP), 0)) == X(s.x, A4) && Read(s.mem, At(X(s.x, SP), 1)) == X(s.x, A5)
  }

  ghost predicate SameFile(s: Solo, t: Solo) {
    t.mem == s.mem && t.csr == s.csr && forall k :: k != 0 ==> X(t.x, k) == X(s.x, k)
  }

  lemma FiveSteps(b: Board, i1: Instr, i2: Instr, i3: Instr, i4: Instr, i5: Instr)
    ensures Exec(b, [i1] + [i2] + [i3] + [i4] + [i5]) == Step(Step(Step(Step(Step(b, i1), i2), i3), i4), i5)
  {
    hide Step, Exec;
    Nothing(b);
    OneMore(b, [], i1);
    assert [] + [i1] == [i1];
    OneMore(b, [i1], i2);
    OneMore(b, [i1] + [i2], i3);
    OneMore(b, [i1] + [i2] + [i3], i4);
    OneMore(b, [i1] + [i2] + [i3] + [i4], i5);
  }

  /** a4 and a5 serve as scratch registers and are read back from the stack. */
  function Borrowed(s: Solo): Solo {
    s.(x := Set(Set(s.x, A4, 1), A5, PRIVATE_BASE))
  }

  function Returned(s: Solo): Solo {
    s.(x := Set(Set(Borrowed(s).x, A4, X(s.x, A4)), A5, X(s.x, A5)))
  }

  lemma ReturnedFile(s: Solo)
    ensures SameFile(s, Returned(s)) && X(Borrowed(s).x, SP) == X(s.x, SP)
    ensures X(Set(Borrowed(s).x, A4, X(s.x, A4)), SP) == X(s.x, SP)
  {
  }

  lemma FollowsAcknowledge(b: Board, s: Solo, m: Mode, pub: Trio<bool>)
    requires Follows(b, s, m, pub, {}, {}) && Steady(b, m) && TopSlots(s)
    ensures Follows(Exec(b, ACKNOWLEDGE), Returned(s), m, pub, {}, {}) && SameFile(s, Returned(s))
    ensures Steady(Exec(b, ACKNOWLEDGE), m)
  {
    hide Follows, Step, StepSolo, Exec, At, Read, Load, X, Set, SameFile, Steady;
    ReturnedFile(s);
    var i4, i5 := Load(A4, 0), Load(A5, 1);
    FiveSteps(b, Li(A4, 1), Li(A5, PRIVATE_BASE), Sw(A4, ACK_OFFSET, A5), i4, i5);
    var b1 := Step(b, Li(A4, 1));
    var b2 := Step(b1, Li(A5, PRIVATE_BASE));
    var b3 := Step(b2, Sw(A4, ACK_OFFSET, A5));
    var s1, s2 := s.(x := Set(s.x, A4, 1)), Borrowed(s);
    FollowsLi(b, s, m, pub, {}, {}, A4, 1);
    ForgetAll(b1, s1, m, pub, {} + {A4}, {});
    SteadyLocal(b, m, A4, 1, 0);
    FollowsLi(b1, s1, m, pub, {}, {}, A5, PRIVATE_BASE);
    ForgetAll(b2, s2, m, pub, {} + {A5}, {});
    SteadyLocal(b1, m, A5, PRIVATE_BASE, 0);
    FollowsAck(b2, s2, m, pub, {}, {}, A4);
    FollowsSteadyLoad(b3, s2, m, pub, A4, 0);
    SaveSolo(s2, A4, 0);
    var s4 := StepSolo(s2, i4);
    FollowsSteadyLoad(Step(b3, i4), s4, m, pub, A5, 1);
    SaveSolo(s4, A5, 1);
  }

  // ---- leaving ----

  /** What a core in pub holds when it leaves the handler: all of it, or all but x1 and the CSRs. */
  ghost predicate RepairedIn(c: Hart, x: map<nat, Word>, csr: map<nat, Word>, m: Mode) {
    && c.inStep
    && (forall k :: 1 <= k < 32 && (k == 1 ==> Whole(m)) ==> X(c.x, k) == X(x, k))
    && (Whole(m) ==> forall j :: 0 <= j < CSR_COUNT ==> Csr(c.csr, j) == Csr(csr, j))
  }

  /** A core in step has dropped its acknowledge bit. */
  predicate Released(c: Hart) {
    c.inStep ==> !c.ack
  }

  lemma FollowsEpilogue(b: Board, s: Solo, m: Mode, pub: Trio<bool>, x: map<nat, Word>)
    requires Follows(b, s, m, pub, Popped(31, m), PoppedCsrs(5, m)) && TopSlots(s)
    requires forall k :: 1 <= k < 32 ==> X(x, k) == if k == SP then Sum(X(s.x, SP), 16) else X(s.x, k)
    ensures var after := Exec(b, EPILOGUE);
            && (pub.c0 ==> RepairedIn(after.core.c0, x, s.csr, m))
            && (pub.c1 ==> RepairedIn(after.core.c1, x, s.csr, m))
            && (pub.c2 ==> RepairedIn(after.core.c2, x, s.csr, m))
            && after.mem == s.mem
            && Released(after.core.c0) && Released(after.core.c1) && Released(after.core.c2)
  {
    hide Follows, Step, StepSolo, Exec, At, Read, Load, Sum, X, RepairedIn;
    var regs, csrs := Popped(31, m), PoppedCsrs(5, m);
    var i1, i2, i3, i4 := Li(A5, PRIVATE_BASE), Sw(0, ACK_OFFSET, A5), Load(A5, 1), Addi(SP, SP, 16);
    Nothing(b);
    OneMore(b, [], i1);
    assert [] + [i1] == [i1];
    OneMore(b, [i1], i2);
    OneMore(b, [i1] + [i2], i3);
    OneMore(b, [i1] + [i2] + [i3], i4);
    var b1 := Step(b, i1);
    var b2 := Step(b1, i2);
    var b3 := Step(b2, i3);
    var s1 := s.(x := Set(s.x, A5, PRIVATE_BASE));
    FollowsLi(b, s, m, pub, regs, csrs, A5, PRIVATE_BASE);
    assert regs + {A5} == regs;
    FollowsAck(b1, s1, m, pub, regs, csrs, 0);
    XSet(s.x, A5, PRIVATE_BASE, SP);
    FollowsLoad(b2, s1, m, pub, regs, csrs, A5, 1);
    assert With(regs, A5, true) == regs && SP in regs;
    SaveSolo(s1, A5, 1);
    var s3 := StepSolo(s1, i3);
    forall k | 1 <= k < 32
      ensures X(s3.x, k) == X(s.x, k)
    {
      XSet(s.x, A5, PRIVATE_BASE, k);
      XSet(s1.x, A5, X(s.x, A5), k);
    }
    Leave(b3, s3, m, pub, x, s.csr);
    ZeroRegister(b1);
    AcksKept(b2, 1);
  }

  lemma ZeroRegister(b: Board)
    ensures Regs(b, 0) == Trio(0, 0, 0) && !Odd(0)
  {
  }

  lemma AckKept(c: Hart, k: nat, voted: Req, mem: map<Cell, Word>)
    requires k < FRAME && !c.ack
    ensures Released(StepLocal(Finish(c, Load(A5, k), voted, mem), Addi(SP, SP, 16)))
  {
    hide Private, Aligned, Plus, Sum, X, Set, Read, PrivateRead;
  }

  lemma AcksKept(b: Board, k: nat)
    requires k < FRAME && !b.core.c0.ack && !b.core.c1.ack && !b.core.c2.ack
    ensures var after := Step(Step(b, Load(A5, k)), Addi(SP, SP, 16));
            Released(after.core.c0) && Released(after.core.c1) && Released(after.core.c2)
  {
    hide Voted, Finish, StepLocal, Released;
    var v := Voted(b, Load(A5, k));
    AckKept(b.core.c0, k, v, b.mem);
    AckKept(b.core.c1, k, v, b.mem);
    AckKept(b.core.c2, k, v, b.mem);
  }

  lemma Leave(b: Board, s: Solo, m: Mode, pub: Trio<bool>, x: map<nat, Word>, csr: map<nat, Word>)
    requires Follows(b, s, m, pub, Popped(31, m), PoppedCsrs(5, m)) && s.csr == csr
    requires forall k :: 1 <= k < 32 ==> X(x, k) == if k == SP then Sum(X(s.x, SP), 16) else X(s.x, k)
    ensures var after := Step(b, Addi(SP, SP, 16));
            && (pub.c0 ==> RepairedIn(after.core.c0, x, csr, m))
            && (pub.c1 ==> RepairedIn(after.core.c1, x, csr, m))
            && (pub.c2 ==> RepairedIn(after.core.c2, x, csr, m))
            && after.mem == s.mem
  {
    hide RegsAgree, CsrsAgree, FramePublic, FramePart, Sum, X, RepairedIn, Holds, StepLocal;
    if pub.c0 { LeaveCore(b.core.c0, s, x, m); }
    if pub.c1 { LeaveCore(b.core.c1, s, x, m); }
    if pub.c2 { LeaveCore(b.core.c2, s, x, m); }
  }

  lemma AddiKeeps(c: Hart)
    ensures var after := StepLocal(c, Addi(SP, SP, 16));
            after.x == Set(c.x, SP, Sum(X(c.x, SP), 16)) && after.csr == c.csr && after.inStep == c.inStep
  {
    hide Sum, X, Set;
  }

  lemma LeaveCore(c: Hart, s: Solo, x: map<nat, Word>, m: Mode)
    requires c.inStep && Holds(c, s, Popped(31, m), PoppedCsrs(5, m))
    requires forall k :: 1 <= k < 32 ==> X(x, k) == if k == SP then Sum(X(s.x, SP), 16) else X(s.x, k)
    ensures RepairedIn(StepLocal(c, Addi(SP, SP, 16)), x, s.csr, m)
  {
    hide Sum, X, Csr, Set, StepLocal;
    AddiKeeps(c);
    forall k | 1 <= k < 32 && (k == 1 ==> Whole(m))
      ensures X(Set(c.x, SP, Sum(X(c.x, SP), 16)), k) == X(x, k)
    {
      assert k in Popped(31, m) && SP in Popped(31, m);
      XSet(c.x, SP, Sum(X(c.x, SP), 16), k);
    }
    if Whole(m) {
      forall j | 0 <= j < CSR_COUNT
        ensures Csr(c.csr, j) == Csr(s.csr, j)
      {
        assert j in PoppedCsrs(5, m);
      }
    }
  }

  // ---- the whole handler ----

  lemma HandlerPhases(b: Board)
    ensures Exec(b, HANDLER) == Exec(Exec(Exec(Exec(b, PROLOGUE), ACKNOWLEDGE), PUSH_POP), EPILOGUE)
  {
    hide Exec;
    ExecAppend(b, PROLOGUE, ACKNOWLEDGE);
    ExecAppend(b, PROLOGUE + ACKNOWLEDGE, PUSH_POP);
    ExecAppend(b, PROLOGUE + ACKNOWLEDGE + PUSH_POP, EPILOGUE);
  }

  lemma StackedFile(b: Board, x: map<nat, Word>, csr: map<nat, Word>)
    ensures var s, sp := Stacked(b, x, csr), Sum(X(x, SP), DOWN);
            && TopSlots(s) && s.csr == csr && X(s.x, SP) == sp
            && (forall k :: 1 <= k < 32 && k != SP ==> X(s.x, k) == X(x, k))
            && SameBut(b.mem, s.mem, sp, 0, 2)
  {
    hide Sum, At;
    SlotsApart(Sum(X(x, SP), DOWN));
  }

  lemma UpAgain(v: Word)
    ensures Sum(Sum(v, DOWN), 16) == v
  {
  }

  lemma TopKept(s: Solo, t: Solo, e: Solo, sp: Word)
    requires TopSlots(s) && SameFile(s, t) && X(s.x, SP) == sp
    requires forall k :: 1 <= k < 32 ==> X(e.x, k) == X(t.x, k)
    requires SameBut(t.mem, e.mem, sp, 4, FRAME)
    ensures TopSlots(e)
  {
    hide At, X;
    SlotsApart(sp);
    assert At(sp, 0) != At(sp, 5) && At(sp, 1) != At(sp, 5);
    assert Read(e.mem, At(sp, 0)) == Read(t.mem, At(sp, 0));
    assert Read(e.mem, At(sp, 1)) == Read(t.mem, At(sp, 1));
  }

  lemma SameButTwice(m0: map<Cell, Word>, m1: map<Cell, Word>, m2: map<Cell, Word>, sp: Word)
    requires SameBut(m0, m1, sp, 0, 2) && SameBut(m1, m2, sp, 4, FRAME)
    ensures SameBut(m0, m2, sp, 0, FRAME)
  {
    hide At;
  }

  /**
   * Every core that finds its words on the voted bus leaves the handler in step and with what the
   * voter made of the three copies, stack pointer included. Memory changes only in the frame, and
   * every hart in step has dropped its acknowledge bit.
   */
  lemma ScrubRepairs(b: Board, x: map<nat, Word>, csr: map<nat, Word>, m: Mode, pub: Trio<bool>)
    requires Ready(b, x, csr, m, pub)
    ensures var after := Exec(b, HANDLER);
            && (pub.c0 ==> RepairedIn(after.core.c0, x, csr, m))
            && (pub.c1 ==> RepairedIn(after.core.c1, x, csr, m))
            && (pub.c2 ==> RepairedIn(after.core.c2, x, csr, m))
            && SameBut(b.mem, after.mem, Sum(X(x, SP), DOWN), 0, FRAME)
            && Released(after.core.c0) && Released(after.core.c1) && Released(after.core.c2)
  {
    hide Exec, ExecSolo, Follows, Sum, X, At, SameBut, TopSlots;
    hide Stacked, Returned, Ready, Csr, Steady, Released, RepairedIn;
    var sp := Sum(X(x, SP), DOWN);
    var s := Stacked(b, x, csr);
    var b1 := Exec(b, PROLOGUE);
    HandlerPhases(b);
    FollowsPrologue(b, x, csr, m, pub);
    StackedFile(b, x, csr);
    FollowsAcknowledge(b1, s, m, pub);
    var t, b2 := Returned(s), Exec(b1, ACKNOWLEDGE);
    FollowsPushPop(b2, t, m, pub);
    PushPopSolo(t);
    var e, b3 := ExecSolo(t, PUSH_POP), Exec(b2, PUSH_POP);
    TopKept(s, t, e, sp);
    UpAgain(X(x, SP));
    FollowsEpilogue(b3, e, m, pub, x);
    SameButTwice(b.mem, s.mem, e.mem, sp);
    var after := Exec(b3, EPILOGUE);
    SameValues(after.core.c0, x, e.csr, csr, m);
    SameValues(after.core.c1, x, e.csr, csr, m);
    SameValues(after.core.c2, x, e.csr, csr, m);
  }

  lemma SameValues(c: Hart, x: map<nat, Word>, one: map<nat, Word>, two: map<nat, Word>, m: Mode)
    requires forall j :: 0 <= j < CSR_COUNT ==> Csr(one, j) == Csr(two, j)
    ensures RepairedIn(c, x, one, m) ==> RepairedIn(c, x, two, m)
  {
    hide X, Csr;
  }
}
