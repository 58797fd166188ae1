/** Three partly wrong cores follow one fault-free core through the scrubbing handler. */
module TmrFollows {
  import opened Obi
  import opened TmrVoter
  import opened Registers
  import opened TmrBoard
  import opened TmrSolo

  // ---- which cores may be wrong ----

  /**
   * One: core f may be anything, the others are right everywhere.
   * Spread: each bit of a register is decided by its three copies; only core f may have a stack
   * pointer of its own, and it is in step as long as it keeps that.
   * If core f is to be repaired, the word it reloads its stack pointer from must lie outside the
   * private window, and with `whole` also those of x1 and the CSRs, which it reloads earlier.
   */
  datatype Mode = One(f: nat, whole: bool) | Spread(f: nat, whole: bool)

  predicate Sane(m: Mode) {
    m.f < 3
  }

  predicate TwoAgree(t: Trio<Word>, v: Word) {
    (t.c0 == v && t.c1 == v) || (t.c1 == v && t.c2 == v) || (t.c0 == v && t.c2 == v)
  }

  predicate Others(t: Trio<Word>, v: Word, f: nat) {
    (f == 0 || t.c0 == v) && (f == 1 || t.c1 == v) && (f == 2 || t.c2 == v)
  }

  function MajorityOf(t: Trio<Word>): Word {
    Majority32(t.c0, t.c1, t.c2)
  }

  /** v is what the voter makes of the three copies. */
  predicate Agree(t: Trio<Word>, v: Word, m: Mode) {
    if m.One? then Others(t, v, m.f) else MajorityOf(t) == v
  }

  lemma MajorityTwo(t: Trio<Word>, v: Word)
    requires TwoAgree(t, v)
    ensures MajorityOf(t) == v
  {
    hide Majority32;
    MajorityOfPair(v, t.c0);
    MajorityOfPair(v, t.c1);
    MajorityOfPair(v, t.c2);
  }

  lemma OthersDecide(t: Trio<Word>, v: Word, m: Mode)
    requires Sane(m) && Others(t, v, m.f)
    ensures Agree(t, v, m)
  {
    hide MajorityOf;
    if m.Spread? { MajorityTwo(t, v); }
  }

  function Regs(b: Board, k: nat): Trio<Word> {
    Trio(X(b.core.c0.x, k), X(b.core.c1.x, k), X(b.core.c2.x, k))
  }

  function Csrs(b: Board, j: nat): Trio<Word> {
    Trio(Csr(b.core.c0.csr, j), Csr(b.core.c1.csr, j), Csr(b.core.c2.csr, j))
  }

  ghost predicate RegsAgree(b: Board, x: map<nat, Word>, m: Mode) {
    forall k :: 1 <= k < 32 ==> Agree(Regs(b, k), X(x, k), m)
  }

  ghost predicate CsrsAgree(b: Board, csr: map<nat, Word>, m: Mode) {
    forall j :: 0 <= j < CSR_COUNT ==> Agree(Csrs(b, j), Csr(csr, j), m)
  }

  predicate SameRegs(b: Board, after: Board) {
    after.core.c0.x == b.core.c0.x && after.core.c1.x == b.core.c1.x && after.core.c2.x == b.core.c2.x
  }

  predicate SameCsrs(b: Board, after: Board) {
    after.core.c0.csr == b.core.c0.csr && after.core.c1.csr == b.core.c1.csr && after.core.c2.csr == b.core.c2.csr
  }

  lemma AgreeKept(b: Board, after: Board, x: map<nat, Word>, csr: map<nat, Word>, m: Mode)
    ensures SameRegs(b, after) && RegsAgree(b, x, m) ==> RegsAgree(after, x, m)
    ensures SameCsrs(b, after) && CsrsAgree(b, csr, m) ==> CsrsAgree(after, csr, m)
  {
    hide Agree, X, Csr;
    assert forall k :: SameRegs(b, after) ==> Regs(after, k) == Regs(b, k);
    assert forall j :: SameCsrs(b, after) ==> Csrs(after, j) == Csrs(b, j);
  }

  lemma XSet(x: map<nat, Word>, r: nat, v: Word, k: nat)
    requires r != 0
    ensures X(Set(x, r, v), k) == if k == r then v else X(x, k)
  {
  }

  lemma CsrSet(csr: map<nat, Word>, r: nat, v: Word, k: nat)
    ensures Csr(csr[r := v], k) == if k == r then v else Csr(csr, k)
  {
  }

  lemma RegsAgreeSet(b: Board, after: Board, x: map<nat, Word>, m: Mode, r: nat, w: Trio<Word>, v: Word)
    requires RegsAgree(b, x, m) && Agree(w, v, m) && r != 0
    requires after.core.c0.x == Set(b.core.c0.x, r, w.c0)
    requires after.core.c1.x == Set(b.core.c1.x, r, w.c1) && after.core.c2.x == Set(b.core.c2.x, r, w.c2)
    ensures RegsAgree(after, Set(x, r, v), m)
    ensures forall k :: Regs(after, k) == if k == r then w else Regs(b, k)
  {
    hide Agree, X, Set;
    forall k
      ensures Regs(after, k) == if k == r then w else Regs(b, k)
    {
      XSet(b.core.c0.x, r, w.c0, k);
      XSet(b.core.c1.x, r, w.c1, k);
      XSet(b.core.c2.x, r, w.c2, k);
    }
    forall k | 1 <= k < 32
      ensures Agree(Regs(after, k), X(Set(x, r, v), k), m)
    {
      assert Agree(Regs(b, k), X(x, k), m);
      XSet(x, r, v, k);
    }
  }

  lemma CsrsAgreeSet(b: Board, after: Board, csr: map<nat, Word>, m: Mode, r: nat, w: Trio<Word>, v: Word)
    requires CsrsAgree(b, csr, m) && Agree(w, v, m)
    requires after.core.c0.csr == b.core.c0.csr[r := w.c0]
    requires after.core.c1.csr == b.core.c1.csr[r := w.c1] && after.core.c2.csr == b.core.c2.csr[r := w.c2]
    ensures CsrsAgree(after, csr[r := v], m)
  {
    hide Agree, Csr;
    forall k | 0 <= k < CSR_COUNT
      ensures Agree(Csrs(after, k), Csr(csr[r := v], k), m)
    {
      assert Agree(Csrs(b, k), Csr(csr, k), m);
      CsrSet(csr, r, v, k);
      CsrSet(b.core.c0.csr, r, w.c0, k);
      CsrSet(b.core.c1.csr, r, w.c1, k);
      CsrSet(b.core.c2.csr, r, w.c2, k);
      assert Csrs(after, k) == if k == r then w else Csrs(b, k);
    }
  }

  // ---- frames ----

  /** An access that the core makes in one piece and on the voted bus. */
  predicate Plain(a: Cell) {
    !Private(a) && Aligned(a)
  }

  ghost predicate FramePublic(sp: Word) {
    forall k :: 0 <= k < FRAME ==> Plain(At(sp, k))
  }

  ghost predicate FrameAligned(sp: Word) {
    forall k :: 0 <= k < FRAME ==> Aligned(At(sp, k))
  }

  /** The words of the frame that a core must find on the voted bus. */
  predicate Reloads(k: nat, m: Mode) {
    k == 5 || (m.whole && (k == 4 || 35 <= k))
  }

  ghost predicate FramePart(sp: Word, m: Mode) {
    forall k :: 0 <= k < FRAME ==> Aligned(At(sp, k)) && (Reloads(k, m) ==> !Private(At(sp, k)))
  }

  /** Core c holds the true values of the given registers and CSRs. */
  ghost predicate Holds(c: Hart, s: Solo, regs: set<nat>, csrs: set<nat>) {
    && (forall k :: k in regs ==> X(c.x, k) == X(s.x, k))
    && (forall j :: j in csrs ==> Csr(c.csr, j) == Csr(s.csr, j))
  }

  ghost predicate OnFrame(c: Hart, s: Solo, m: Mode, regs: set<nat>, csrs: set<nat>) {
    c.inStep && FramePart(X(c.x, SP), m) && Holds(c, s, regs, csrs)
  }

  /** The cores that will be repaired include all but f. */
  predicate Covers(pub: Trio<bool>, m: Mode) {
    (m.f == 0 || pub.c0) && (m.f == 1 || pub.c1) && (m.f == 2 || pub.c2)
  }

  /**
   * The board follows the fault-free core s: s holds what the voter makes of the three copies, and
   * the cores in pub are in step and already right in the given registers and CSRs.
   */
  ghost predicate Follows(b: Board, s: Solo, m: Mode, pub: Trio<bool>, regs: set<nat>, csrs: set<nat>) {
    && Sane(m)
    && b.mem == s.mem
    && FramePublic(X(s.x, SP))
    && RegsAgree(b, s.x, m)
    && CsrsAgree(b, s.csr, m)
    && Others(Regs(b, SP), X(s.x, SP), m.f)
    && Covers(pub, m)
    && (pub.c0 ==> OnFrame(b.core.c0, s, m, regs, csrs))
    && (pub.c1 ==> OnFrame(b.core.c1, s, m, regs, csrs))
    && (pub.c2 ==> OnFrame(b.core.c2, s, m, regs, csrs))
  }

  /** Until it reloads its stack pointer, core f makes every access in one piece. */
  ghost predicate Steady(b: Board, m: Mode) {
    m.Spread? ==> m.f < 3 && b.core.At(m.f).inStep && FrameAligned(X(b.core.At(m.f).x, SP))
  }

  // ---- voting ----

  predicate FrameAccess(i: Instr, r: nat, k: nat) {
    1 <= r < 32 && k < FRAME && (i == Save(r, k) || i == Load(r, k))
  }

  lemma FrameAccessMeans(i: Instr, r: nat, k: nat)
    requires FrameAccess(i, r, k)
    ensures 1 <= r < 32 && k < FRAME && !Local(i)
  {
  }

  function TrueRequest(x: map<nat, Word>, i: Instr, r: nat, k: nat): Req {
    Req(true, i.Sw?, 0xF, At(X(x, SP), k).at, if i.Sw? then X(x, r) else 0)
  }

  lemma ShownRequest(c: Hart, i: Instr, r: nat, k: nat)
    requires FrameAccess(i, r, k)
    ensures var a := At(X(c.x, SP), k);
            && Address(c, i) == a
            && (c.inStep && Aligned(a) ==> Request(c, i) == TrueRequest(c.x, i, r, k).(req := !Private(a)))
  {
    hide Private, Aligned, Plus, Slot;
    assert Address(c, i) == At(X(c.x, SP), k);
  }

  function Store(req: bool, a: Word, d: Word): Req {
    Req(req, true, 0xF, a, d)
  }

  /** Two equal addresses carry the vote; the data of all three cores counts, also that of a private store. */
  lemma VoteOfStores(req: bool, a: Word, other: Word, d: Trio<Word>)
    ensures Vote(Trio(Store(req, other, d.c0), Store(true, a, d.c1), Store(true, a, d.c2)))
        == Store(true, a, MajorityOf(d))
    ensures Vote(Trio(Store(true, a, d.c0), Store(req, other, d.c1), Store(true, a, d.c2)))
        == Store(true, a, MajorityOf(d))
    ensures Vote(Trio(Store(true, a, d.c0), Store(true, a, d.c1), Store(req, other, d.c2)))
        == Store(true, a, MajorityOf(d))
  {
    hide Majority32;
    MajorityTwo(Trio(other, a, a), a);
    MajorityTwo(Trio(a, other, a), a);
    MajorityTwo(Trio(a, a, other), a);
  }

  lemma AllButOne(a: Req, b: Req, c: Req, f: nat, r: Req)
    requires (f == 0 || a == r) && (f == 1 || b == r) && (f == 2 || c == r) && f < 3
    ensures Vote(Trio(a, b, c)) == r
  {
    hide Vote;
    VoteMasks(Trio(a, b, c), f, r);
  }

  lemma SameRequest(x: map<nat, Word>, y: map<nat, Word>, i: Instr, r: nat, k: nat)
    requires X(x, SP) == X(y, SP) && (i.Sw? ==> X(x, r) == X(y, r))
    ensures TrueRequest(x, i, r, k) == TrueRequest(y, i, r, k)
  {
    hide X, At;
  }

  /** A core other than f. */
  lemma OtherRequest(c: Hart, s: Solo, i: Instr, r: nat, k: nat)
    requires FrameAccess(i, r, k) && c.inStep && X(c.x, SP) == X(s.x, SP) && FramePublic(X(s.x, SP))
    ensures Request(c, i) == TrueRequest(c.x, i, r, k)
  {
    hide Request, X, At, Private, Aligned, Address;
    ShownRequest(c, i, r, k);
    assert Plain(At(X(s.x, SP), k));
  }

  /** Wherever the frame is voted, the fault-free access wins. */
  lemma VotedIsTrue(b: Board, s: Solo, m: Mode, pub: Trio<bool>, regs: set<nat>, csrs: set<nat>, i: Instr, r: nat,
                    k: nat)
    requires Follows(b, s, m, pub, regs, csrs) && FrameAccess(i, r, k) && (i.Sw? ==> Steady(b, m))
    ensures Voted(b, i) == TrueRequest(s.x, i, r, k)
  {
    var c0, c1, c2 := b.core.c0, b.core.c1, b.core.c2;
    hide Vote, Request, X, At, FramePublic, FrameAligned, TrueRequest, MajorityOf, CsrsAgree, Holds, FrameAccess;
    hide FramePart, Address, Private, Aligned;
    FrameAccessMeans(i, r, k);
    assert Agree(Regs(b, r), X(s.x, r), m);
    hide RegsAgree;
    if m.f != 0 { OtherRequest(c0, s, i, r, k); }
    if m.f != 1 { OtherRequest(c1, s, i, r, k); }
    if m.f != 2 { OtherRequest(c2, s, i, r, k); }
    if m.One? || i.Lw? {
      if m.f != 0 { SameRequest(c0.x, s.x, i, r, k); }
      if m.f != 1 { SameRequest(c1.x, s.x, i, r, k); }
      if m.f != 2 { SameRequest(c2.x, s.x, i, r, k); }
      AllButOne(Request(c0, i), Request(c1, i), Request(c2, i), m.f, TrueRequest(s.x, i, r, k));
    } else {
      SteadyRequest(b.core.At(m.f), i, r, k);
      SpreadRequests(c0, c1, c2, s.x, m.f, i, r, k);
    }
  }

  lemma SteadyRequest(c: Hart, i: Instr, r: nat, k: nat)
    requires FrameAccess(i, r, k) && c.inStep && FrameAligned(X(c.x, SP))
    ensures exists req :: Request(c, i) == TrueRequest(c.x, i, r, k).(req := req)
  {
    hide Request, X, At, Private, Aligned, TrueRequest, Address;
    ShownRequest(c, i, r, k);
  }

  lemma SpreadRequests(c0: Hart, c1: Hart, c2: Hart, truth: map<nat, Word>, f: nat, i: Instr, r: nat, k: nat)
    requires f < 3 && i.Sw?
    requires var c := Trio(c0, c1, c2).At(f);
             exists req :: Request(c, i) == TrueRequest(c.x, i, r, k).(req := req)
    requires f != 0 ==> Request(c0, i) == TrueRequest(c0.x, i, r, k) && X(c0.x, SP) == X(truth, SP)
    requires f != 1 ==> Request(c1, i) == TrueRequest(c1.x, i, r, k) && X(c1.x, SP) == X(truth, SP)
    requires f != 2 ==> Request(c2, i) == TrueRequest(c2.x, i, r, k) && X(c2.x, SP) == X(truth, SP)
    requires MajorityOf(Trio(X(c0.x, r), X(c1.x, r), X(c2.x, r))) == X(truth, r)
    ensures Vote(Trio(Request(c0, i), Request(c1, i), Request(c2, i))) == TrueRequest(truth, i, r, k)
  {
    hide Vote, X, At, MajorityOf, Request;
    var c := Trio(c0, c1, c2).At(f);
    var req :| Request(c, i) == TrueRequest(c.x, i, r, k).(req := req);
    VoteOfStores(req, At(X(truth, SP), k).at, At(X(c.x, SP), k).at, Trio(X(c0.x, r), X(c1.x, r), X(c2.x, r)));
  }

  // ---- single steps ----

  /** Steps that change no register. */
  lemma FollowsMemory(b: Board, after: Board, s: Solo, m: Mode, pub: Trio<bool>, regs: set<nat>, csrs: set<nat>,
                      mem: map<Cell, Word>)
    requires Follows(b, s, m, pub, regs, csrs) && SameRegs(b, after) && SameCsrs(b, after) && after.mem == mem
    requires (pub.c0 ==> after.core.c0.inStep) && (pub.c1 ==> after.core.c1.inStep) && (pub.c2 ==> after.core.c2.inStep)
    ensures Follows(after, s.(mem := mem), m, pub, regs, csrs)
  {
    hide X, Csr, FramePublic, FramePart, RegsAgree, CsrsAgree;
    AgreeKept(b, after, s.x, s.csr, m);
  }

  lemma OnFrameSaves(c: Hart, s: Solo, m: Mode, regs: set<nat>, csrs: set<nat>, r: nat, k: nat, voted: Req,
                     mem: map<Cell, Word>)
    requires OnFrame(c, s, m, regs, csrs) && voted.req && k < FRAME
    ensures Finish(c, Save(r, k), voted, mem).inStep
  {
    hide Finish, Aligned, At, X, Holds, Save, FramePart;
    PartAligned(X(c.x, SP), m, k);
    SaveKeeps(c, r, k, voted, mem);
  }

  lemma SteadySave(b: Board, m: Mode, r: nat, k: nat)
    requires Steady(b, m) && k < FRAME && Voted(b, Save(r, k)).req
    ensures Steady(Step(b, Save(r, k)), m)
  {
    hide Voted, Finish, At, X, Aligned, FrameAligned;
    if m.Spread? {
      FrameAlignedAt(X(b.core.At(m.f).x, SP), k);
      SaveKeeps(b.core.At(m.f), r, k, Voted(b, Save(r, k)), b.mem);
    }
  }

  lemma SaveStep(b: Board, r: nat, k: nat)
    requires k < FRAME
    ensures var i := Save(r, k);
            var after, v := Step(b, i), Voted(b, i);
            && SameRegs(b, after) && SameCsrs(b, after)
            && after.core == Trio(Finish(b.core.c0, i, v, b.mem), Finish(b.core.c1, i, v, b.mem),
                                  Finish(b.core.c2, i, v, b.mem))
            && after.mem == if v.req && v.we then b.mem[Cell(v.addr) := v.wdata] else b.mem
  {
    hide Voted, Finish, At, X, Aligned;
    SaveKeeps(b.core.c0, r, k, Voted(b, Save(r, k)), b.mem);
    SaveKeeps(b.core.c1, r, k, Voted(b, Save(r, k)), b.mem);
    SaveKeeps(b.core.c2, r, k, Voted(b, Save(r, k)), b.mem);
  }

  lemma FollowsSave(b: Board, s: Solo, m: Mode, pub: Trio<bool>, regs: set<nat>, csrs: set<nat>, r: nat, k: nat)
    requires Follows(b, s, m, pub, regs, csrs) && Steady(b, m) && 1 <= r < 32 && k < FRAME
    ensures Follows(Step(b, Save(r, k)), StepSolo(s, Save(r, k)), m, pub, regs, csrs)
    ensures Steady(Step(b, Save(r, k)), m)
  {
    var i := Save(r, k);
    hide Voted, Finish, At, X, FramePublic, StepSolo, RegsAgree, CsrsAgree, OnFrame, Step, SameRegs, SameCsrs, Steady;
    VotedIsTrue(b, s, m, pub, regs, csrs, i, r, k);
    SaveStep(b, r, k);
    SaveSolo(s, r, k);
    SteadySave(b, m, r, k);
    if pub.c0 { OnFrameSaves(b.core.c0, s, m, regs, csrs, r, k, Voted(b, i), b.mem); }
    if pub.c1 { OnFrameSaves(b.core.c1, s, m, regs, csrs, r, k, Voted(b, i), b.mem); }
    if pub.c2 { OnFrameSaves(b.core.c2, s, m, regs, csrs, r, k, Voted(b, i), b.mem); }
    FollowsMemory(b, Step(b, i), s, m, pub, regs, csrs, StepSolo(s, i).mem);
  }

  lemma PartAligned(sp: Word, m: Mode, k: nat)
    requires FramePart(sp, m) && k < FRAME
    ensures Aligned(At(sp, k))
  {
    hide At, Aligned, Private;
  }

  lemma FrameAlignedAt(sp: Word, k: nat)
    requires FrameAligned(sp) && k < FRAME
    ensures Aligned(At(sp, k))
  {
    hide At, Aligned;
  }

  lemma SaveKeeps(c: Hart, r: nat, k: nat, voted: Req, mem: map<Cell, Word>)
    requires k < FRAME
    ensures var after := Finish(c, Save(r, k), voted, mem);
            && after.x == c.x && after.csr == c.csr
            && (c.inStep && voted.req && Aligned(At(X(c.x, SP), k)) ==> after.inStep)
  {
    hide Private, Plus, Aligned, Slot;
  }

  function With(regs: set<nat>, r: nat, good: bool): set<nat> {
    if good then regs + {r} else regs - {r}
  }

  /** w holds what each core gets where the fault-free one gets v; good says that the public cores get it right. */
  ghost predicate Gets(w: Trio<Word>, v: Word, m: Mode, pub: Trio<bool>, good: bool) {
    && Agree(w, v, m)
    && (good && pub.c0 ==> w.c0 == v) && (good && pub.c1 ==> w.c1 == v) && (good && pub.c2 ==> w.c2 == v)
  }

  ghost predicate RegSet(c: Hart, after: Hart, r: nat, w: Word) {
    after.x == Set(c.x, r, w) && after.csr == c.csr
  }

  lemma OnFrameSet(c: Hart, after: Hart, s: Solo, m: Mode, r: nat, w: Word, v: Word, good: bool, regs: set<nat>,
                   csrs: set<nat>)
    requires OnFrame(c, s, m, regs, csrs) && RegSet(c, after, r, w) && after.inStep && 1 <= r < 32 && (good ==> w == v)
    requires r == SP ==> good && v == X(s.x, SP) && FramePart(v, m)
    ensures OnFrame(after, s.(x := Set(s.x, r, v)), m, With(regs, r, good), csrs)
  {
    hide FramePart, Csr, X, Set;
    XSet(c.x, r, w, SP);
    forall k | k in With(regs, r, good)
      ensures X(after.x, k) == X(Set(s.x, r, v), k)
    {
      XSet(c.x, r, w, k);
      XSet(s.x, r, v, k);
    }
  }

  lemma WholePart(sp: Word, m: Mode)
    requires FramePublic(sp)
    ensures FramePart(sp, m)
  {
    hide Private, Aligned, At;
    forall k | 0 <= k < FRAME
      ensures Aligned(At(sp, k)) && !Private(At(sp, k))
    {
      assert Plain(At(sp, k));
    }
  }

  lemma FollowsSet(b: Board, after: Board, s: Solo, m: Mode, pub: Trio<bool>, regs: set<nat>, csrs: set<nat>,
                   r: nat, w: Trio<Word>, v: Word, good: bool)
    requires Follows(b, s, m, pub, regs, csrs) && 1 <= r < 32 && Gets(w, v, m, pub, good)
    requires r == SP ==> good && v == X(s.x, SP)
    requires after.mem == b.mem && RegSet(b.core.c0, after.core.c0, r, w.c0)
    requires RegSet(b.core.c1, after.core.c1, r, w.c1) && RegSet(b.core.c2, after.core.c2, r, w.c2)
    requires (pub.c0 ==> after.core.c0.inStep) && (pub.c1 ==> after.core.c1.inStep) && (pub.c2 ==> after.core.c2.inStep)
    ensures Follows(after, s.(x := Set(s.x, r, v)), m, pub, With(regs, r, good), csrs)
  {
    hide FramePublic, FramePart, OnFrame, Agree, Csr, RegsAgree, CsrsAgree, X;
    WholePart(X(s.x, SP), m);
    if pub.c0 { OnFrameSet(b.core.c0, after.core.c0, s, m, r, w.c0, v, good, regs, csrs); }
    if pub.c1 { OnFrameSet(b.core.c1, after.core.c1, s, m, r, w.c1, v, good, regs, csrs); }
    if pub.c2 { OnFrameSet(b.core.c2, after.core.c2, s, m, r, w.c2, v, good, regs, csrs); }
    RegsAgreeSet(b, after, s.x, m, r, w, v);
    XSet(s.x, r, v, SP);
    AgreeKept(b, after, s.x, s.csr, m);
  }

  function Loaded(c: Hart, i: Instr, v: Word): Word
    requires i.Lw?
  {
    if Private(Address(c, i)) then PrivateRead(c, Address(c, i)) else v
  }

  lemma LoadSets(c: Hart, r: nat, k: nat, voted: Req, mem: map<Cell, Word>)
    requires k < FRAME
    ensures var after := Finish(c, Load(r, k), voted, mem);
            && RegSet(c, after, r, Loaded(c, Load(r, k), Read(mem, Cell(voted.addr))))
            && (c.inStep && voted.req && Aligned(At(X(c.x, SP), k)) ==> after.inStep)
  {
    hide Private, Plus, Read, PrivateRead, Slot, Aligned;
  }

  /** A core in pub gets the loaded word right when it must find it on the bus, or has its stack pointer back. */
  lemma LoadedRight(c: Hart, s: Solo, m: Mode, regs: set<nat>, csrs: set<nat>, r: nat, k: nat, v: Word)
    requires OnFrame(c, s, m, regs, csrs) && FramePublic(X(s.x, SP)) && 1 <= r < 32 && k < FRAME
    ensures Reloads(k, m) || SP in regs ==> Loaded(c, Load(r, k), v) == v
    ensures Aligned(At(X(c.x, SP), k))
  {
    hide Request, X, At, Private, Aligned, PrivateRead, Address;
    ShownRequest(c, Load(r, k), r, k);
    if SP in regs {
      assert Plain(At(X(s.x, SP), k));
    }
  }

  lemma OtherLoads(c: Hart, s: Solo, r: nat, k: nat, v: Word)
    requires X(c.x, SP) == X(s.x, SP) && FramePublic(X(s.x, SP)) && 1 <= r < 32 && k < FRAME
    ensures Loaded(c, Load(r, k), v) == v
  {
    hide Request, X, At, Private, Aligned, PrivateRead, Address;
    ShownRequest(c, Load(r, k), r, k);
    assert Plain(At(X(s.x, SP), k));
  }

  lemma LoadsGet(b: Board, s: Solo, m: Mode, pub: Trio<bool>, regs: set<nat>, csrs: set<nat>, r: nat, k: nat, v: Word)
    requires Follows(b, s, m, pub, regs, csrs) && 1 <= r < 32 && k < FRAME
    ensures var i, c := Load(r, k), b.core;
            && Gets(Trio(Loaded(c.c0, i, v), Loaded(c.c1, i, v), Loaded(c.c2, i, v)), v, m, pub,
                    Reloads(k, m) || SP in regs)
            && (pub.c0 ==> c.c0.inStep && Aligned(At(X(c.c0.x, SP), k)))
            && (pub.c1 ==> c.c1.inStep && Aligned(At(X(c.c1.x, SP), k)))
            && (pub.c2 ==> c.c2.inStep && Aligned(At(X(c.c2.x, SP), k)))
    ensures b.mem == s.mem
  {
    hide At, X, FramePublic, Loaded, Load, RegsAgree, CsrsAgree, OnFrame, Agree, Aligned, Reloads;
    var i, c0, c1, c2 := Load(r, k), b.core.c0, b.core.c1, b.core.c2;
    IsLoad(r, k);
    InStepOnFrame(c0, s, m, regs, csrs);
    InStepOnFrame(c1, s, m, regs, csrs);
    InStepOnFrame(c2, s, m, regs, csrs);
    if pub.c0 { LoadedRight(c0, s, m, regs, csrs, r, k, v); }
    if pub.c1 { LoadedRight(c1, s, m, regs, csrs, r, k, v); }
    if pub.c2 { LoadedRight(c2, s, m, regs, csrs, r, k, v); }
    if m.f != 0 { OtherLoads(c0, s, r, k, v); }
    if m.f != 1 { OtherLoads(c1, s, r, k, v); }
    if m.f != 2 { OtherLoads(c2, s, r, k, v); }
    OthersDecide(Trio(Loaded(c0, i, v), Loaded(c1, i, v), Loaded(c2, i, v)), v, m);
  }

  lemma FollowsLoad(b: Board, s: Solo, m: Mode, pub: Trio<bool>, regs: set<nat>, csrs: set<nat>, r: nat, k: nat)
    requires Follows(b, s, m, pub, regs, csrs) && 1 <= r < 32 && k < FRAME
    requires r == SP ==> k == 5 && Read(s.mem, At(X(s.x, SP), k)) == X(s.x, SP)
    ensures Follows(Step(b, Load(r, k)), StepSolo(s, Load(r, k)), m, pub,
                    With(regs, r, Reloads(k, m) || SP in regs), csrs)
  {
    hide Follows, Read, At, X, Finish, Loaded, RegSet, Voted, Load, StepSolo, Agree, Aligned, Gets;
    var i, v := Load(r, k), Read(s.mem, At(X(s.x, SP), k));
    IsLoad(r, k);
    VotedIsTrue(b, s, m, pub, regs, csrs, i, r, k);
    LoadsGet(b, s, m, pub, regs, csrs, r, k, v);
    SaveSolo(s, r, k);
    var c0, c1, c2 := b.core.c0, b.core.c1, b.core.c2;
    LoadSets(c0, r, k, Voted(b, i), b.mem);
    LoadSets(c1, r, k, Voted(b, i), b.mem);
    LoadSets(c2, r, k, Voted(b, i), b.mem);
    var w := Trio(Loaded(c0, i, v), Loaded(c1, i, v), Loaded(c2, i, v));
    assert r == SP ==> Reloads(k, m);
    hide Reloads;
    FollowsSet(b, Step(b, i), s, m, pub, regs, csrs, r, w, v, Reloads(k, m) || SP in regs);
  }

  lemma InStepOnFrame(c: Hart, s: Solo, m: Mode, regs: set<nat>, csrs: set<nat>)
    ensures OnFrame(c, s, m, regs, csrs) ==> c.inStep
  {
  }

  lemma IsLoad(r: nat, k: nat)
    requires k < FRAME && 1 <= r < 32
    ensures Load(r, k).Lw? && FrameAccess(Load(r, k), r, k)
  {
  }

  lemma FollowsCsrr(b: Board, s: Solo, m: Mode, pub: Trio<bool>, regs: set<nat>, csrs: set<nat>, r: nat, j: nat)
    requires Follows(b, s, m, pub, regs, csrs) && 1 <= r < 32 && r != SP && j < CSR_COUNT
    ensures Follows(Step(b, Csrr(r, j)), StepSolo(s, Csrr(r, j)), m, pub, With(regs, r, j in csrs), csrs)
  {
    hide FramePart, FramePublic, X, Csr, Agree;
    assert Gets(Csrs(b, j), Csr(s.csr, j), m, pub, j in csrs);
    InStepOnFrame(b.core.c0, s, m, regs, csrs);
    InStepOnFrame(b.core.c1, s, m, regs, csrs);
    InStepOnFrame(b.core.c2, s, m, regs, csrs);
    assert (pub.c0 ==> b.core.c0.inStep) && (pub.c1 ==> b.core.c1.inStep) && (pub.c2 ==> b.core.c2.inStep);
    hide Follows;
    CsrSolo(s, r, j);
    FollowsSet(b, Step(b, Csrr(r, j)), s, m, pub, regs, csrs, r, Csrs(b, j), Csr(s.csr, j), j in csrs);
  }

  lemma FollowsCsrw(b: Board, s: Solo, m: Mode, pub: Trio<bool>, regs: set<nat>, csrs: set<nat>, r: nat, j: nat)
    requires Follows(b, s, m, pub, regs, csrs) && 1 <= r < 32 && j < CSR_COUNT
    ensures Follows(Step(b, Csrw(j, r)), StepSolo(s, Csrw(j, r)), m, pub, regs, With(csrs, j, r in regs))
  {
    assert Agree(Regs(b, r), X(s.x, r), m);
    hide FramePublic, OnFrame, Agree, X, RegsAgree, CsrsAgree;
    var after := Step(b, Csrw(j, r));
    CsrSolo(s, r, j);
    AgreeKept(b, after, s.x, s.csr, m);
    CsrsAgreeSet(b, after, s.csr, m, j, Regs(b, r), X(s.x, r));
    if pub.c0 { OnFrameCsr(b.core.c0, after.core.c0, s, m, r, j, regs, csrs); }
    if pub.c1 { OnFrameCsr(b.core.c1, after.core.c1, s, m, r, j, regs, csrs); }
    if pub.c2 { OnFrameCsr(b.core.c2, after.core.c2, s, m, r, j, regs, csrs); }
  }

  lemma OnFrameCsr(c: Hart, after: Hart, s: Solo, m: Mode, r: nat, j: nat, regs: set<nat>, csrs: set<nat>)
    requires OnFrame(c, s, m, regs, csrs) && after.inStep && after.x == c.x && after.csr == c.csr[j := X(c.x, r)]
    ensures OnFrame(after, s.(csr := s.csr[j := X(s.x, r)]), m, regs, With(csrs, j, r in regs))
  {
    hide FramePart, X;
  }
}
