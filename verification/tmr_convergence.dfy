/** What scrubbing does without any majority: the cores leave it with equal registers. */
module TmrConvergence {
  import opened Obi
  import opened TmrVoter
  import opened Registers
  import opened TmrBoard
  import opened TmrSolo
  import opened TmrFollows
  import opened TmrHandler
  import opened TmrRecovery

  /** A load that all three cores, in step, put on the voted bus. */
  ghost predicate PublicLoad(b: Board, i: Instr)
    requires i.Lw?
  {
    OnBus(b.core.c0, i) && OnBus(b.core.c1, i) && OnBus(b.core.c2, i)
  }

  predicate OnBus(c: Hart, i: Instr)
    requires i.Lw?
  {
    c.inStep && Plain(Address(c, i))
  }

  ghost predicate LoadsPublic(b: Board, p: seq<Instr>) {
    p == [] ||
    var q, i := p[..|p| - 1], p[|p| - 1];
    LoadsPublic(b, q) && (i.Lw? ==> PublicLoad(Exec(b, q), i))
  }

  lemma {:induction false} LoadsPublicAfter(b: Board, p: seq<Instr>, q: seq<Instr>)
    requires LoadsPublic(b, p + q)
    ensures LoadsPublic(b, p) && LoadsPublic(Exec(b, p), q)
    decreases |q|
  {
    hide PublicLoad, Exec;
    if q == [] {
      assert p + q == p;
    } else {
      var r := q[..|q| - 1];
      assert (p + q)[..|p + q| - 1] == p + r;
      LoadsPublicAfter(b, p, r);
      ExecAppend(b, p, r);
    }
  }

  predicate Equal(t: Trio<Word>) {
    t.c0 == t.c1 == t.c2
  }

  /** The three cores hold the same in the given registers and CSRs. */
  ghost predicate Same(b: Board, regs: set<nat>, csrs: set<nat>) {
    (forall k :: k in regs ==> Equal(Regs(b, k))) && (forall j :: j in csrs ==> Equal(Csrs(b, j)))
  }

  lemma LoadRequest(c: Hart, i: Instr)
    requires i.Lw? && OnBus(c, i)
    ensures Request(c, i).req
  {
    hide Private, Aligned, Plus;
  }

  lemma VotedAnswers(a: Req, b: Req, c: Req)
    requires a.req && b.req && c.req
    ensures Vote(Trio(a, b, c)).req
  {
    hide Majority4, Majority32;
  }

  lemma SameAfterLoad(b: Board, regs: set<nat>, csrs: set<nat>, r: nat, k: nat)
    requires Same(b, regs, csrs) && 1 <= r < 32 && k < FRAME && IsPublicLoad(b, r, k)
    ensures Same(Step(b, Load(r, k)), regs + {r}, csrs)
  {
    hide Private, Aligned, Plus, Read, PrivateRead, Slot, X, Csr, Vote, Request, Set;
    var i, after := Load(r, k), Step(b, Load(r, k));
    LoadRequest(b.core.c0, i);
    LoadRequest(b.core.c1, i);
    LoadRequest(b.core.c2, i);
    VotedAnswers(Request(b.core.c0, i), Request(b.core.c1, i), Request(b.core.c2, i));
    var v := Read(b.mem, Cell(Voted(b, i).addr));
    RegsSet(b, after, r, Trio(v, v, v));
  }

  ghost predicate IsPublicLoad(b: Board, r: nat, k: nat)
    requires k < FRAME
  {
    PublicLoad(b, Load(r, k))
  }

  lemma RegsSet(b: Board, after: Board, r: nat, w: Trio<Word>)
    requires r != 0 && RegSet(b.core.c0, after.core.c0, r, w.c0)
    requires RegSet(b.core.c1, after.core.c1, r, w.c1) && RegSet(b.core.c2, after.core.c2, r, w.c2)
    ensures forall k :: Regs(after, k) == if k == r then w else Regs(b, k)
    ensures forall j :: Csrs(after, j) == Csrs(b, j)
  {
    hide X, Set;
    forall k
      ensures Regs(after, k) == if k == r then w else Regs(b, k)
    {
      XSet(b.core.c0.x, r, w.c0, k);
      XSet(b.core.c1.x, r, w.c1, k);
      XSet(b.core.c2.x, r, w.c2, k);
    }
  }

  lemma SameAfterCsrw(b: Board, regs: set<nat>, csrs: set<nat>, r: nat, j: nat)
    requires Same(b, regs, csrs) && r in regs
    ensures Same(Step(b, Csrw(j, r)), regs, csrs + {j})
  {
    hide X;
    var after := Step(b, Csrw(j, r));
    assert forall k :: Regs(after, k) == Regs(b, k);
    assert forall k :: Csrs(after, k) == if k == j then Regs(b, r) else Csrs(b, k);
  }

  lemma {:induction false} SameAfterPopCsrs(b: Board, n: nat)
    requires n <= CSR_COUNT && LoadsPublic(b, PopCsrs(n))
    ensures Same(Exec(b, PopCsrs(n)), if n == 0 then {} else {T6}, Below(n))
    decreases n
  {
    hide Same, Step, Exec, Load, PublicLoad, LoadsPublic;
    Nothing(b);
    if n == 0 {
      assert Same(b, {}, {}) by { NoneSame(b); }
      assert Below(0) == {};
    } else {
      var p, regs := PopCsrs(n - 1), if n - 1 == 0 then {} else {T6};
      var load, write := Load(T6, 34 + n), Csrw(n - 1, T6);
      LoadsPublicAfter(b, p + [load], [write]);
      LoadsPublicAfter(b, p, [load]);
      LastPublic(Exec(b, p), T6, 34 + n);
      SameAfterPopCsrs(b, n - 1);
      OneMore(b, p, load);
      OneMore(b, p + [load], write);
      SameAfterLoad(Exec(b, p), regs, Below(n - 1), T6, 34 + n);
      assert regs + {T6} == {T6};
      SameAfterCsrw(Exec(b, p + [load]), {T6}, Below(n - 1), T6, n - 1);
      assert Below(n - 1) + {n - 1} == Below(n);
    }
  }

  lemma NoneSame(b: Board)
    ensures Same(b, {}, {})
  {
  }

  lemma LastPublic(b: Board, r: nat, k: nat)
    requires k < FRAME && LoadsPublic(b, [Load(r, k)])
    ensures IsPublicLoad(b, r, k)
  {
    hide Address, Plain, Slot;
    assert [Load(r, k)][..0] == [];
  }

  lemma {:induction false} SameAfterPopRegs(b: Board, regs: set<nat>, csrs: set<nat>, n: nat)
    requires n < 32 && LoadsPublic(b, PopRegs(n)) && Same(b, regs, csrs)
    ensures Same(Exec(b, PopRegs(n)), regs + UpTo(n), csrs)
    decreases n
  {
    hide Same, Step, Exec, Load, PublicLoad, LoadsPublic;
    Nothing(b);
    if n == 0 {
      assert regs + UpTo(0) == regs;
    } else {
      var p, load := PopRegs(n - 1), Load(n, n + 3);
      LoadsPublicAfter(b, p, [load]);
      LastPublic(Exec(b, p), n, n + 3);
      SameAfterPopRegs(b, regs, csrs, n - 1);
      OneMore(b, p, load);
      SameAfterLoad(Exec(b, p), regs + UpTo(n - 1), csrs, n, n + 3);
      assert regs + UpTo(n - 1) + {n} == regs + UpTo(n);
    }
  }

  lemma SameAfterLi(b: Board, regs: set<nat>, csrs: set<nat>, r: nat, v: Word)
    requires Same(b, regs, csrs) && r in regs && r != 0
    ensures Same(Step(b, Li(r, v)), regs, csrs)
  {
    hide X, Csr, Set;
    RegsSet(b, Step(b, Li(r, v)), r, Trio(v, v, v));
  }

  lemma StoreKeeps(c: Hart, i: Instr, voted: Req, mem: map<Cell, Word>)
    requires i.Sw?
    ensures Finish(c, i, voted, mem).x == c.x && Finish(c, i, voted, mem).csr == c.csr
  {
    hide Private, Aligned, Plus;
  }

  lemma SameAfterSw(b: Board, regs: set<nat>, csrs: set<nat>, i: Instr)
    requires Same(b, regs, csrs) && i.Sw?
    ensures Same(Step(b, i), regs, csrs)
  {
    hide X, Csr, Finish, Voted;
    var v := Voted(b, i);
    StoreKeeps(b.core.c0, i, v, b.mem);
    StoreKeeps(b.core.c1, i, v, b.mem);
    StoreKeeps(b.core.c2, i, v, b.mem);
    assert forall k :: Regs(Step(b, i), k) == Regs(b, k);
    assert forall j :: Csrs(Step(b, i), j) == Csrs(b, j);
  }

  lemma SameAfterAddi(b: Board, regs: set<nat>, csrs: set<nat>, d: Word)
    requires Same(b, regs, csrs) && SP in regs
    ensures Same(Step(b, Addi(SP, SP, d)), regs, csrs)
  {
    hide X, Csr, Set, Sum;
    RegsSet(b, Step(b, Addi(SP, SP, d)), SP, Shifted(Regs(b, SP), d));
  }

  lemma SameAfterEpilogue(b: Board, regs: set<nat>, csrs: set<nat>)
    requires Same(b, regs, csrs) && SP in regs && A5 in regs && LoadsPublic(b, EPILOGUE)
    ensures Same(Exec(b, EPILOGUE), regs, csrs)
  {
    hide Same, Step, Exec, PublicLoad, LoadsPublic, Load;
    var i1, i2, i3, i4 := Li(A5, PRIVATE_BASE), Sw(0, ACK_OFFSET, A5), Load(A5, 1), Addi(SP, SP, 16);
    LoadsPublicAfter(b, [i1] + [i2] + [i3], [i4]);
    LoadsPublicAfter(b, [i1] + [i2], [i3]);
    Nothing(b);
    OneMore(b, [], i1);
    assert [] + [i1] == [i1];
    OneMore(b, [i1], i2);
    OneMore(b, [i1] + [i2], i3);
    OneMore(b, [i1] + [i2] + [i3], i4);
    SameAfterLi(b, regs, csrs, A5, PRIVATE_BASE);
    SameAfterSw(Exec(b, [i1]), regs, csrs, i2);
    LastPublic(Exec(b, [i1] + [i2]), A5, 1);
    SameAfterLoad(Exec(b, [i1] + [i2]), regs, csrs, A5, 1);
    assert regs + {A5} == regs;
    SameAfterAddi(Exec(b, [i1] + [i2] + [i3]), regs, csrs, 16);
  }

  /** If every load of the handler goes to the voted bus, all registers and CSRs are reloaded by broadcast. */
  lemma LoadsMakeEqual(b: Board)
    requires LoadsPublic(b, HANDLER)
    ensures var after := Exec(b, HANDLER);
            && (forall k :: 1 <= k < 32 ==> Equal(Regs(after, k)))
            && (forall j :: 0 <= j < CSR_COUNT ==> Equal(Csrs(after, j)))
  {
    hide Exec, LoadsPublic, PushRegs, PushCsrs, PopCsrs, PopRegs, Equal, Regs, Csrs;
    var start := PROLOGUE + ACKNOWLEDGE + (PushRegs(31) + PushCsrs(5));
    assert HANDLER == start + PopCsrs(5) + PopRegs(31) + EPILOGUE;
    var p := start + PopCsrs(5);
    LoadsPublicAfter(b, p + PopRegs(31), EPILOGUE);
    LoadsPublicAfter(b, p, PopRegs(31));
    LoadsPublicAfter(b, start, PopCsrs(5));
    ExecAppend(b, p + PopRegs(31), EPILOGUE);
    ExecAppend(b, p, PopRegs(31));
    ExecAppend(b, start, PopCsrs(5));
    SameAfterPopCsrs(Exec(b, start), 5);
    SameAfterPopRegs(Exec(b, p), {T6}, Below(5), 31);
    assert {T6} + UpTo(31) == UpTo(31);
    SameAfterEpilogue(Exec(b, p + PopRegs(31)), UpTo(31), Below(5));
    assert forall k :: 1 <= k < 32 ==> k in UpTo(31);
    assert forall j :: 0 <= j < CSR_COUNT ==> j in Below(5);
  }

  // ---- when all loads are public ----

  /** A core in step with its whole frame on the voted bus. */
  ghost predicate Owns(c: Hart) {
    c.inStep && FramePublic(X(c.x, SP))
  }

  ghost predicate AllOwn(b: Board) {
    Owns(b.core.c0) && Owns(b.core.c1) && Owns(b.core.c2)
  }

  lemma OwnRequest(c: Hart, i: Instr, r: nat, k: nat)
    requires Owns(c) && FrameAccess(i, r, k)
    ensures !Local(i) && Plain(Address(c, i)) && Request(c, i).req && Aligned(At(X(c.x, SP), k))
  {
    hide Private, Aligned, At, X, Request, Address, FrameAccess;
    FrameAccessMeans(i, r, k);
    ShownRequest(c, i, r, k);
    assert Plain(At(X(c.x, SP), k));
  }

  lemma OwnVoted(b: Board, i: Instr, r: nat, k: nat)
    requires AllOwn(b) && FrameAccess(i, r, k)
    ensures !Local(i) && Voted(b, i).req
  {
    hide Plain, Aligned, At, X, Request, Address, Vote, Owns, FrameAccess;
    OwnRequest(b.core.c0, i, r, k);
    OwnRequest(b.core.c1, i, r, k);
    OwnRequest(b.core.c2, i, r, k);
    VotedAnswers(Request(b.core.c0, i), Request(b.core.c1, i), Request(b.core.c2, i));
  }

  lemma OwnFinish(c: Hart, i: Instr, r: nat, k: nat, voted: Req, mem: map<Cell, Word>)
    requires Owns(c) && FrameAccess(i, r, k) && voted.req
    ensures var after := Finish(c, i, voted, mem);
            && after.inStep && (!WritesSp(i) ==> Owns(after))
            && (i == Load(r, k) ==> after.x == Set(c.x, r, Read(mem, Cell(voted.addr))))
  {
    hide Private, Aligned, At, X, Address, FramePublic, Read, PrivateRead, Set, Slot;
    OwnRequest(c, i, r, k);
    if !WritesSp(i) { FinishKeepsSp(c, i, voted, mem); }
  }

  lemma OwnStep(b: Board, i: Instr, r: nat, k: nat)
    requires AllOwn(b) && FrameAccess(i, r, k) && !WritesSp(i)
    ensures AllOwn(Step(b, i)) && (i.Lw? ==> PublicLoad(b, i))
  {
    hide Plain, At, X, Finish, Voted, Request, Address, FrameAccess, Aligned, FramePublic;
    OwnVoted(b, i, r, k);
    OwnRequest(b.core.c0, i, r, k);
    OwnRequest(b.core.c1, i, r, k);
    OwnRequest(b.core.c2, i, r, k);
    OwnFinish(b.core.c0, i, r, k, Voted(b, i), b.mem);
    OwnFinish(b.core.c1, i, r, k, Voted(b, i), b.mem);
    OwnFinish(b.core.c2, i, r, k, Voted(b, i), b.mem);
  }

  lemma OwnLocal(b: Board, i: Instr)
    requires AllOwn(b) && Local(i) && !WritesSp(i)
    ensures AllOwn(Step(b, i))
  {
    hide FramePublic, X, Csr, Sum, Set;
    LocalKeepsSp(b.core.c0, i);
    LocalKeepsSp(b.core.c1, i);
    LocalKeepsSp(b.core.c2, i);
  }

  lemma OwnAck(b: Board, src: nat)
    requires AllOwn(b) && Regs(b, A5) == Trio(PRIVATE_BASE, PRIVATE_BASE, PRIVATE_BASE)
    ensures AllOwn(Step(b, Sw(src, ACK_OFFSET, A5)))
  {
    hide FramePublic, X, Finish, Voted, Request, Odd;
    var i := Sw(src, ACK_OFFSET, A5);
    AckCore(b.core.c0, src, Voted(b, i), b.mem);
    AckCore(b.core.c1, src, Voted(b, i), b.mem);
    AckCore(b.core.c2, src, Voted(b, i), b.mem);
  }

  /** An instruction that leaves every core its stack pointer and its frame. */
  predicate Tame(i: Instr) {
    !WritesSp(i) && (Local(i) || exists k :: 0 <= k < FRAME && TameAccess(i, k))
  }

  predicate TameAccess(i: Instr, k: nat)
    requires k < FRAME
  {
    (i.Sw? && FrameAccess(i, i.src, k)) || (i.Lw? && FrameAccess(i, i.rd, k))
  }

  predicate AllTame(p: seq<Instr>) {
    forall n :: 0 <= n < |p| ==> Tame(p[n])
  }

  lemma {:induction false} OwnExec(b: Board, p: seq<Instr>)
    requires AllOwn(b) && AllTame(p)
    ensures LoadsPublic(b, p) && AllOwn(Exec(b, p))
    decreases |p|
  {
    hide AllOwn, Step, PublicLoad, WritesSp, TameAccess;
    if p != [] {
      var q, i := p[..|p| - 1], p[|p| - 1];
      forall n | 0 <= n < |q|
        ensures Tame(q[n])
      {
        assert q[n] == p[n];
      }
      OwnExec(b, q);
      if Local(i) {
        OwnLocal(Exec(b, q), i);
      } else {
        var k :| 0 <= k < FRAME && TameAccess(i, k);
        OwnTame(Exec(b, q), i, k);
      }
    }
  }

  lemma OwnTame(b: Board, i: Instr, k: nat)
    requires AllOwn(b) && k < FRAME && TameAccess(i, k) && !WritesSp(i)
    ensures AllOwn(Step(b, i)) && (i.Lw? ==> PublicLoad(b, i))
  {
    hide AllOwn, Step, PublicLoad, WritesSp, FrameAccess;
    OwnStep(b, i, if i.Sw? then i.src else i.rd, k);
  }

  lemma TameSave(r: nat, k: nat)
    requires 1 <= r < 32 && k < FRAME
    ensures Tame(Save(r, k)) && (r != SP ==> Tame(Load(r, k)))
  {
    hide Slot;
    assert TameAccess(Save(r, k), k) && TameAccess(Load(r, k), k);
  }

  lemma {:induction false} PushesTame(n: nat, m: nat)
    requires n < 32 && m <= CSR_COUNT
    ensures AllTame(PushRegs(n)) && AllTame(PushCsrs(m)) && AllTame(PopCsrs(m))
    decreases n + m
  {
    hide TameAccess, Save, Load;
    if n > 0 {
      PushesTame(n - 1, m);
      TameSave(n, n + 3);
    }
    if m > 0 {
      PushesTame(n, m - 1);
      TameSave(T6, 34 + m);
    }
  }

  lemma {:induction false} LoadsPublicJoin(b: Board, p: seq<Instr>, q: seq<Instr>)
    requires LoadsPublic(b, p) && LoadsPublic(Exec(b, p), q)
    ensures LoadsPublic(b, p + q)
    decreases |q|
  {
    hide PublicLoad, Exec;
    if q == [] {
      assert p + q == p;
    } else {
      var r := q[..|q| - 1];
      assert (p + q)[..|p + q| - 1] == p + r;
      LoadsPublicJoin(b, p, r);
      ExecAppend(b, p, r);
    }
  }

  lemma PublicOne(b: Board, i: Instr)
    requires i.Lw? ==> PublicLoad(b, i)
    ensures LoadsPublic(b, [i]) && Exec(b, [i]) == Step(b, i)
  {
    hide PublicLoad, Step;
    assert [i][..0] == [];
  }

  // ---- phase by phase ----

  lemma OwnEnter(b: Board)
    requires Reaches(b.core.c0) && Reaches(b.core.c1) && Reaches(b.core.c2)
    ensures LoadsPublic(b, PROLOGUE) && AllOwn(Exec(b, PROLOGUE))
  {
    hide Exec, LoadsPublic, Save, FramePublic, Sum, X, Step;
    var down, saves := Addi(SP, SP, DOWN), [Save(A4, 0)] + [Save(A5, 1)];
    PublicOne(b, down);
    OwnDown(b);
    TameSave(A4, 0);
    TameSave(A5, 1);
    OwnExec(Exec(b, [down]), saves);
    assert PROLOGUE == [down] + saves;
    LoadsPublicJoin(b, [down], saves);
    ExecAppend(b, [down], saves);
  }

  lemma OwnDown(b: Board)
    requires Reaches(b.core.c0) && Reaches(b.core.c1) && Reaches(b.core.c2)
    ensures AllOwn(Step(b, Addi(SP, SP, DOWN)))
  {
    hide FramePublic, Sum;
  }

  lemma LiHolds(b: Board, r: nat, v: Word, q: nat, w: Word)
    requires r != 0 && q != 0
    ensures Regs(Step(Step(b, Li(q, w)), Li(r, v)), r) == Trio(v, v, v)
  {
  }

  lemma OwnAcknowledge(b: Board)
    requires AllOwn(b)
    ensures LoadsPublic(b, ACKNOWLEDGE) && AllOwn(Exec(b, ACKNOWLEDGE))
  {
    hide Exec, LoadsPublic, Load, FramePublic, Step, AllOwn, Regs;
    var p, i, q := [Li(A4, 1)] + [Li(A5, PRIVATE_BASE)], Sw(A4, ACK_OFFSET, A5), [Load(A4, 0)] + [Load(A5, 1)];
    OwnExec(b, p);
    PublicOne(b, Li(A4, 1));
    OneMore(b, [Li(A4, 1)], Li(A5, PRIVATE_BASE));
    LiHolds(b, A5, PRIVATE_BASE, A4, 1);
    PublicOne(Exec(b, p), i);
    OwnAck(Exec(b, p), A4);
    LoadsPublicJoin(b, p, [i]);
    OneMore(b, p, i);
    TameSave(A4, 0);
    TameSave(A5, 1);
    OwnExec(Exec(b, p + [i]), q);
    LoadsPublicJoin(b, p + [i], q);
    ExecAppend(b, p + [i], q);
    assert ACKNOWLEDGE == p + [i] + q;
  }

  lemma OwnEpilogue(b: Board)
    requires AllOwn(b)
    ensures LoadsPublic(b, EPILOGUE)
    ensures Exec(b, EPILOGUE).core.c0.inStep && Exec(b, EPILOGUE).core.c1.inStep && Exec(b, EPILOGUE).core.c2.inStep
  {
    hide Exec, LoadsPublic, Load, FramePublic, Step, AllOwn, Regs;
    var li, i, load, up := Li(A5, PRIVATE_BASE), Sw(0, ACK_OFFSET, A5), Load(A5, 1), Addi(SP, SP, 16);
    OwnExec(b, [li]);
    PublicOne(b, li);
    assert Regs(Exec(b, [li]), A5) == Trio(PRIVATE_BASE, PRIVATE_BASE, PRIVATE_BASE) by { LiOne(b, A5, PRIVATE_BASE); }
    PublicOne(Exec(b, [li]), i);
    OwnAck(Exec(b, [li]), 0);
    LoadsPublicJoin(b, [li], [i]);
    OneMore(b, [li], i);
    TameSave(A5, 1);
    var three := [li] + [i] + [load];
    OwnExec(Exec(b, [li] + [i]), [load]);
    LoadsPublicJoin(b, [li] + [i], [load]);
    ExecAppend(b, [li] + [i], [load]);
    PublicOne(Exec(b, three), up);
    LoadsPublicJoin(b, three, [up]);
    OneMore(b, three, up);
    StillInStep(Exec(b, three));
  }

  lemma LiOne(b: Board, r: nat, v: Word)
    requires r != 0
    ensures Regs(Step(b, Li(r, v)), r) == Trio(v, v, v)
  {
  }

  lemma StillInStep(b: Board)
    requires AllOwn(b)
    ensures var after := Step(b, Addi(SP, SP, 16));
            after.core.c0.inStep && after.core.c1.inStep && after.core.c2.inStep
  {
    hide FramePublic, Sum, X, Set;
  }

  const UP_TO_SP := PushRegs(31) + PushCsrs(5) + PopCsrs(5) + PopRegs(1)

  lemma OwnUpToSp(b: Board)
    requires AllOwn(b)
    ensures LoadsPublic(b, UP_TO_SP) && AllOwn(Exec(b, UP_TO_SP))
  {
    hide Exec, LoadsPublic, PushRegs, PushCsrs, PopCsrs, Load, AllOwn, Tame;
    PushesTame(31, 5);
    TameSave(1, 4);
    assert AllTame(PopRegs(1)) by {
      assert PopRegs(1) == PopRegs(0) + [Load(1, 4)] == [Load(1, 4)];
    }
    OwnExec(b, UP_TO_SP);
  }

  /** The stack pointer that all three cores reload, from the word they vote for. */
  function Reloaded(b: Board): Word {
    X(Exec(Exec(Exec(b, PROLOGUE), ACKNOWLEDGE), UP_TO_SP + [Load(SP, 5)]).core.c0.x, SP)
  }

  lemma OwnReload(b: Board)
    requires AllOwn(b) && FramePublic(X(Step(b, Load(SP, 5)).core.c0.x, SP))
    ensures LoadsPublic(b, [Load(SP, 5)]) && AllOwn(Step(b, Load(SP, 5)))
  {
    hide Plain, At, X, Finish, Voted, Request, Address, Aligned, FramePublic, Read, Set, LoadsPublic;
    var i := Load(SP, 5);
    IsLoad(SP, 5);
    OwnVoted(b, i, SP, 5);
    OwnRequest(b.core.c0, i, SP, 5);
    OwnRequest(b.core.c1, i, SP, 5);
    OwnRequest(b.core.c2, i, SP, 5);
    var v := Voted(b, i);
    OwnFinish(b.core.c0, i, SP, 5, v, b.mem);
    OwnFinish(b.core.c1, i, SP, 5, v, b.mem);
    OwnFinish(b.core.c2, i, SP, 5, v, b.mem);
    var w := Read(b.mem, Cell(v.addr));
    XSet(b.core.c0.x, SP, w, SP);
    XSet(b.core.c1.x, SP, w, SP);
    XSet(b.core.c2.x, SP, w, SP);
    PublicOne(b, i);
  }

  lemma {:induction false} OwnPops(b: Board, n: nat)
    requires 2 <= n < 32 && LoadsPublic(b, PopRegs(2)) && AllOwn(Exec(b, PopRegs(2)))
    ensures LoadsPublic(b, PopRegs(n)) && AllOwn(Exec(b, PopRegs(n)))
    decreases n
  {
    hide Exec, LoadsPublic, Load, AllOwn, Tame;
    if n > 2 {
      OwnPops(b, n - 1);
      TameSave(n, n + 3);
      OwnExec(Exec(b, PopRegs(n - 1)), [Load(n, n + 3)]);
      LoadsPublicJoin(b, PopRegs(n - 1), [Load(n, n + 3)]);
      ExecAppend(b, PopRegs(n - 1), [Load(n, n + 3)]);
    }
  }

  lemma OwnPushPop(b: Board)
    requires AllOwn(b) && FramePublic(X(Exec(b, UP_TO_SP + [Load(SP, 5)]).core.c0.x, SP))
    ensures LoadsPublic(b, PUSH_POP) && AllOwn(Exec(b, PUSH_POP))
  {
    hide Exec, LoadsPublic, PushRegs, PushCsrs, PopCsrs, PopRegs, Load, AllOwn, FramePublic, X;
    var pushes, load := PushRegs(31) + PushCsrs(5) + PopCsrs(5), Load(SP, 5);
    var c := Exec(b, pushes);
    OwnUpToSp(b);
    OneMore(b, UP_TO_SP, load);
    OwnReload(Exec(b, UP_TO_SP));
    LoadsPublicJoin(b, UP_TO_SP, [load]);
    assert PopRegs(2) == PopRegs(1) + [load] by { FirstPops(); }
    assert UP_TO_SP + [load] == pushes + PopRegs(2);
    LoadsPublicAfter(b, pushes, PopRegs(2));
    ExecAppend(b, pushes, PopRegs(2));
    OwnPops(c, 31);
    LoadsPublicJoin(b, pushes, PopRegs(31));
    ExecAppend(b, pushes, PopRegs(31));
  }

  // ---- the results ----

  /** The three cores are in step and hold the same in every register and CSR. */
  ghost predicate AllEqual(b: Board) {
    && b.core.c0.inStep && b.core.c1.inStep && b.core.c2.inStep
    && (forall k :: 1 <= k < 32 ==> Equal(Regs(b, k)))
    && (forall j :: 0 <= j < CSR_COUNT ==> Equal(Csrs(b, j)))
  }

  /**
   * With no majority anywhere, not even of stack pointers: if every core finds its own frame on the
   * voted bus, and the frame of the one stack pointer they all reload is there as well, the cores leave
   * with equal registers and CSRs.
   */
  lemma ScrubConverges(b: Board)
    requires Reaches(b.core.c0) && Reaches(b.core.c1) && Reaches(b.core.c2) && FramePublic(Reloaded(b))
    ensures AllEqual(Exec(b, HANDLER))
  {
    hide Exec, LoadsPublic, AllOwn, FramePublic, Reaches, X, Equal, Regs, Csrs;
    var b1 := Exec(b, PROLOGUE);
    var b2 := Exec(b1, ACKNOWLEDGE);
    OwnEnter(b);
    OwnAcknowledge(b1);
    OwnPushPop(b2);
    OwnEpilogue(Exec(b2, PUSH_POP));
    ExecAppend(b, PROLOGUE, ACKNOWLEDGE);
    ExecAppend(b, PROLOGUE + ACKNOWLEDGE, PUSH_POP);
    LoadsPublicJoin(b, PROLOGUE, ACKNOWLEDGE);
    LoadsPublicJoin(b, PROLOGUE + ACKNOWLEDGE, PUSH_POP);
    LoadsPublicJoin(b, PROLOGUE + ACKNOWLEDGE + PUSH_POP, EPILOGUE);
    LoadsMakeEqual(b);
    HandlerPhases(b);
  }

  lemma EqualPointers(b: Board, v: Word, i: nat)
    requires AllEqual(b) && i < 3 && SpOf(b, i) == v
    ensures forall j :: 0 <= j < 3 ==> b.core.At(j).inStep && SpOf(b, j) == v
  {
    hide X, Csr;
    assert Equal(Regs(b, SP));
  }

  lemma DecidedEqual(b: Board, after: Board)
    requires Decided(b, after.core.c0) && Decided(b, after.core.c1) && Decided(b, after.core.c2)
    ensures AllEqual(after)
  {
    hide X, Csr, MajorityOf;
    forall k | 1 <= k < 32
      ensures Equal(Regs(after, k))
    {
      assert X(after.core.c0.x, k) == MajorityOf(Regs(b, k));
    }
    forall j | 0 <= j < CSR_COUNT
      ensures Equal(Csrs(after, j))
    {
      assert Csr(after.core.c0.csr, j) == MajorityOf(Csrs(b, j));
    }
  }

  /** With two equal stack pointers, some core has one of them and keeps it. */
  lemma SomeoneKeeps(b: Board, v: Word) returns (i: nat)
    requires TwoAgree(Regs(b, SP), v) && FramePublic(Sum(v, DOWN))
    requires Starts(b.core.c0) && Starts(b.core.c1) && Starts(b.core.c2)
    ensures i < 3 && SpOf(Exec(b, HANDLER), i) == v
  {
    hide Exec, FramePublic, Sum, At, MajorityOf, FindsAll, FindsPointer, X, Starts;
    i := if X(b.core.c0.x, SP) == v then 0 else 1;
    MajorityTwo(Regs(b, SP), v);
    MajorityDecides(b, v, i);
  }

  /**
   * Two equal stack pointers with a public frame, everything else arbitrary: the three cores leave in
   * step and equal exactly when each finds its saved stack pointer, and then with the bitwise majority.
   */
  lemma ConvergesIff(b: Board, v: Word)
    requires TwoAgree(Regs(b, SP), v) && FramePublic(Sum(v, DOWN)) && Proper(v)
    requires forall i :: 0 <= i < 3 ==>
               b.core.At(i).inStep && CoreId(b.core.At(i).id) && Undivided(b.core.At(i))
    ensures var after := Exec(b, HANDLER);
            && (AllEqual(after) <==> forall i :: 0 <= i < 3 ==> FindsPointer(b.core.At(i)))
            && (AllEqual(after) ==> forall i :: 0 <= i < 3 ==> Decided(b, after.core.At(i)))
  {
    hide Exec, FramePublic, Sum, At, X, CoreId, Proper;
    hide Decided, DecidedMost, AllEqual, FindsAll, Plain, TwoAgree, Aligned;
    var after := Exec(b, HANDLER);
    if i :| 0 <= i < 3 && !FindsPointer(b.core.At(i)) {
      LostPointer(b, i, v);
      if AllEqual(after) {
        StartFromEnd(b, v);
        var j := SomeoneKeeps(b, v);
        EqualPointers(after, v, j);
      }
    } else {
      assert FindsPointer(b.core.At(0)) && FindsPointer(b.core.At(1)) && FindsPointer(b.core.At(2));
      assert b.core.At(0).inStep && b.core.At(1).inStep && b.core.At(2).inStep;
      FoundStarts(b.core.At(0));
      FoundStarts(b.core.At(1));
      FoundStarts(b.core.At(2));
      forall i | 0 <= i < 3
        ensures Decided(b, after.core.At(i))
      {
        assert Undivided(b.core.At(i)) && FindsPointer(b.core.At(i));
        MajorityDecides(b, v, i);
      }
      assert Decided(b, after.core.At(0)) && Decided(b, after.core.At(1)) && Decided(b, after.core.At(2));
      DecidedEqual(b, after);
    }
  }

  /** Cores that leave in step had aligned stack pointers. */
  lemma StartFromEnd(b: Board, v: Word)
    requires Proper(v) && AllEqual(Exec(b, HANDLER))
    requires forall i :: 0 <= i < 3 ==> b.core.At(i).inStep && CoreId(b.core.At(i).id)
    ensures Starts(b.core.c0) && Starts(b.core.c1) && Starts(b.core.c2)
  {
    hide Exec, Sum, At, X, CoreId, Proper, Regs, Csrs, Equal;
    forall i | 0 <= i < 3
      ensures Starts(b.core.At(i))
    {
      assert b.core.At(i).inStep && CoreId(b.core.At(i).id);
      if !FindsPointer(b.core.At(i)) { LostPointer(b, i, v); }
    }
    assert Starts(b.core.At(0)) && Starts(b.core.At(1)) && Starts(b.core.At(2));
  }
}
