/** The acknowledge bits that the scrubbing handler shows to the mode controller, instruction by instruction. */
module TmrAcknowledge {
  import opened Obi
  import opened TmrVoter
  import opened Registers
  import opened TmrBoard
  import opened TmrSolo
  import opened TmrFollows
  import opened TmrHandler
  import opened TmrRecovery
  import opened TmrConvergence
  import Control = SafeFsm

  // ---- the handler by what it does to the acknowledge bit ----

  const LOWER := [Addi(SP, SP, DOWN)]
  const BORROW := [Save(A4, 0)] + [Save(A5, 1)] + [Li(A4, 1)] + [Li(A5, PRIVATE_BASE)]
  const RAISE := [Sw(A4, ACK_OFFSET, A5)]
  const SAVING := [Load(A4, 0)] + [Load(A5, 1)] + PushRegs(31) + PushCsrs(5)
  const RELOADING := PopCsrs(5) + PopRegs(31) + [Li(A5, PRIVATE_BASE)]
  const DROP := [Sw(0, ACK_OFFSET, A5)]
  const LEAVING := [Load(A5, 1)] + [Addi(SP, SP, 16)]

  /** The acknowledge bit is up from after this many instructions until after that many. */
  const RAISED: nat := 6
  const DROPPED: nat := 92

  lemma HandlerParts()
    ensures HANDLER == LOWER + (BORROW + (RAISE + (SAVING + (RELOADING + (DROP + LEAVING)))))
    ensures |LOWER| == |RAISE| == |DROP| == 1 && |BORROW| == 4 && |SAVING| == 43 && |RELOADING| == 42
    ensures |LEAVING| == 2 && |HANDLER| == 94
  {
    hide Load, Save, PushRegs, PushCsrs, PopCsrs, PopRegs;
    Lengths(31, 5);
    var a, c, d, e, f := PushRegs(31), PushCsrs(5), PopCsrs(5), PopRegs(31), [Li(A5, PRIVATE_BASE)];
    assert HANDLER == LOWER + BORROW + RAISE + ([Load(A4, 0)] + [Load(A5, 1)] + a + c) + (d + e + f) + DROP + LEAVING;
  }

  lemma {:induction false} Lengths(n: nat, m: nat)
    requires n < 32 && m <= CSR_COUNT
    ensures |PushRegs(n)| == |PopRegs(n)| == n && |PushCsrs(m)| == |PopCsrs(m)| == 2 * m
    decreases n + m
  {
    hide Load, Save;
    if n > 0 { Lengths(n - 1, m); }
    if m > 0 { Lengths(n, m - 1); }
  }

  // ---- one core ----

  /** Core i after a program. */
  function CoreAfter(b: Board, p: seq<Instr>, i: nat): TmrBoard.Hart
    requires i < 3
  {
    Exec(b, p).core.At(i)
  }

  function CoreStep(b: Board, q: Instr, i: nat): TmrBoard.Hart
    requires i < 3
  {
    if Local(q) then StepLocal(b.core.At(i), q) else Finish(b.core.At(i), q, Voted(b, q), b.mem)
  }

  lemma StepAt(b: Board, q: Instr, i: nat)
    requires i < 3
    ensures Step(b, q).core.At(i) == CoreStep(b, q, i)
  {
    hide StepLocal, Finish, Voted;
  }

  lemma LocalKeepsAck(c: TmrBoard.Hart, q: Instr)
    requires Local(q)
    ensures StepLocal(c, q).ack == c.ack && (StepLocal(c, q).inStep <==> c.inStep)
  {
  }

  lemma LoadKeepsAck(c: TmrBoard.Hart, q: Instr, v: Req, mem: map<Cell, Word>)
    requires q.Lw?
    ensures Finish(c, q, v, mem).ack == c.ack
  {
    hide Private, Aligned, Plus, X, Set, Read, PrivateRead;
  }

  lemma FinishStays(c: TmrBoard.Hart, q: Instr, v: Req, mem: map<Cell, Word>)
    requires !Local(q)
    ensures Finish(c, q, v, mem).inStep ==> c.inStep
  {
    hide Private, Aligned, Plus, X, Set, Read, PrivateRead;
  }

  lemma SaveKeepsAck(c: TmrBoard.Hart, q: Instr, r: nat, k: nat, v: Req, mem: map<Cell, Word>)
    requires FrameAccess(q, r, k) && q.Sw? && FramePublic(X(c.x, SP))
    ensures Finish(c, q, v, mem).ack == c.ack
  {
    hide Aligned, Set, Read, PrivateRead, PrivateWrite, Slot, At;
    assert Plain(At(X(c.x, SP), k));
    assert Address(c, q) == At(X(c.x, SP), k) by { ThatAddress(c, r, k); }
  }

  lemma ThatAddress(c: TmrBoard.Hart, r: nat, k: nat)
    requires k < FRAME
    ensures Address(c, Save(r, k)) == At(X(c.x, SP), k)
  {
  }

  lemma TameStep(b: Board, q: Instr, i: nat)
    requires i < 3 && Tame(q) && FramePublic(X(b.core.At(i).x, SP))
    ensures var c := Step(b, q).core.At(i);
            c.ack == b.core.At(i).ack && X(c.x, SP) == X(b.core.At(i).x, SP)
  {
    hide Private, Aligned, Set, Read, PrivateRead, Slot, At, X, FramePublic, FrameAccess, Finish, StepLocal, Voted;
    var c := b.core.At(i);
    StepAt(b, q, i);
    if Local(q) {
      LocalKeepsAck(c, q);
      LocalKeepsSp(c, q);
    } else {
      var k :| 0 <= k < FRAME && TameAccess(q, k);
      FinishKeepsSp(c, q, Voted(b, q), b.mem);
      if q.Sw? {
        SaveKeepsAck(c, q, q.src, k, Voted(b, q), b.mem);
      } else {
        LoadKeepsAck(c, q, Voted(b, q), b.mem);
      }
    }
  }

  /** While a core saves into a public frame its acknowledge bit stays as it is. */
  lemma {:induction false} TameKeepsAck(b: Board, p: seq<Instr>, i: nat)
    requires i < 3 && AllTame(p) && FramePublic(X(b.core.At(i).x, SP))
    ensures CoreAfter(b, p, i).ack == b.core.At(i).ack && X(CoreAfter(b, p, i).x, SP) == X(b.core.At(i).x, SP)
    decreases |p|
  {
    hide Step, Tame, X, FramePublic;
    if p != [] {
      var q := p[..|p| - 1];
      assert forall n :: 0 <= n < |q| ==> q[n] == p[n];
      assert Tame(p[|p| - 1]);
      TameKeepsAck(b, q, i);
      TameStep(Exec(b, q), p[|p| - 1], i);
    }
  }

  predicate NoStores(p: seq<Instr>) {
    forall n :: 0 <= n < |p| ==> !p[n].Sw?
  }

  /** And so it does where nothing is stored, wherever the stack pointer points by then. */
  lemma {:induction false} QuietKeepsAck(b: Board, p: seq<Instr>, i: nat)
    requires i < 3 && NoStores(p)
    ensures CoreAfter(b, p, i).ack == b.core.At(i).ack
    decreases |p|
  {
    hide Step, Finish, StepLocal, Voted;
    if p != [] {
      var q, last := p[..|p| - 1], p[|p| - 1];
      assert forall n :: 0 <= n < |q| ==> q[n] == p[n];
      QuietKeepsAck(b, q, i);
      var now := Exec(b, q);
      StepAt(now, last, i);
      if Local(last) {
        LocalKeepsAck(now.core.At(i), last);
      } else {
        LoadKeepsAck(now.core.At(i), last, Voted(now, last), now.mem);
      }
    }
  }

  lemma {:induction false} PopsQuiet(n: nat, m: nat)
    requires n < 32 && m <= CSR_COUNT
    ensures NoStores(PopRegs(n)) && NoStores(PopCsrs(m))
    decreases n + m
  {
    if n > 0 { PopsQuiet(n - 1, m); }
    if m > 0 { PopsQuiet(n, m - 1); }
  }

  lemma PartsTame()
    ensures AllTame(BORROW) && AllTame(SAVING) && NoStores(RELOADING) && NoStores(LEAVING)
  {
    hide Load, Save, PushRegs, PushCsrs, PopCsrs, PopRegs, TameAccess;
    PushesTame(31, 5);
    TameSave(A4, 0);
    TameSave(A5, 1);
    PopsQuiet(31, 5);
    LoadIsNoStore(A5, 1);
  }

  lemma LoadIsNoStore(r: nat, k: nat)
    requires k < FRAME
    ensures !Load(r, k).Sw?
  {
  }

  /** The store to the private base sets or clears the bit of every core that knows where it is. */
  lemma AckStep(b: Board, src: nat, i: nat)
    requires i < 3 && X(b.core.At(i).x, A5) == PRIVATE_BASE
    ensures Step(b, Sw(src, ACK_OFFSET, A5)).core.At(i).ack == Odd(X(b.core.At(i).x, src))
  {
    hide X, Odd, Finish, Voted;
    var q := Sw(src, ACK_OFFSET, A5);
    StepAt(b, q, i);
    AckCore(b.core.At(i), src, Voted(b, q), b.mem);
  }

  lemma LiSets(b: Board, r: nat, v: Word, i: nat)
    requires i < 3 && r != 0
    ensures forall k :: X(Step(b, Li(r, v)).core.At(i).x, k) == if k == r then v else X(b.core.At(i).x, k)
  {
    hide X, Set;
    StepAt(b, Li(r, v), i);
    forall k
      ensures X(Set(b.core.At(i).x, r, v), k) == if k == r then v else X(b.core.At(i).x, k)
    {
      XSet(b.core.At(i).x, r, v, k);
    }
  }

  lemma OddOne()
    ensures Odd(1) && !Odd(0)
  {
  }

  // ---- the phases ----

  /** After the borrowing of a4 and a5: the bit as before, its address and a one at hand. */
  lemma Borrowing(b: Board, i: nat)
    requires i < 3 && FramePublic(Lowered(b.core.At(i)))
    ensures var c := CoreAfter(b, LOWER + BORROW, i);
            X(c.x, A4) == 1 && X(c.x, A5) == PRIVATE_BASE && X(c.x, SP) == Lowered(b.core.At(i))
  {
    hide Step, Exec, FramePublic, X, Sum, Tame, Save;
    LowersSp(b, i);
    PartsTame();
    TameKeepsAck(Exec(b, LOWER), BORROW, i);
    ExecAppend(b, LOWER, BORROW);
    var saves := [Save(A4, 0)] + [Save(A5, 1)];
    assert LOWER + BORROW == LOWER + saves + [Li(A4, 1)] + [Li(A5, PRIVATE_BASE)];
    OneMore(b, LOWER + saves + [Li(A4, 1)], Li(A5, PRIVATE_BASE));
    OneMore(b, LOWER + saves, Li(A4, 1));
    LiSets(Exec(b, LOWER + saves), A4, 1, i);
    LiSets(Exec(b, LOWER + saves + [Li(A4, 1)]), A5, PRIVATE_BASE, i);
  }

  lemma LowersSp(b: Board, i: nat)
    requires i < 3
    ensures var c := CoreAfter(b, LOWER, i); X(c.x, SP) == Lowered(b.core.At(i)) && c.ack == b.core.At(i).ack
  {
    hide Step, Sum, X, Set;
    Nothing(b);
    assert LOWER[..0] == [];
    assert Exec(b, LOWER) == Step(b, Addi(SP, SP, DOWN));
    StepAt(b, Addi(SP, SP, DOWN), i);
    XSet(b.core.At(i).x, SP, Lowered(b.core.At(i)), SP);
  }

  lemma Raising(b: Board, i: nat)
    requires i < 3 && FramePublic(Lowered(b.core.At(i)))
    ensures var c := CoreAfter(b, LOWER + BORROW + RAISE, i);
            c.ack && X(c.x, SP) == Lowered(b.core.At(i))
  {
    hide Step, Exec, FramePublic, X, Sum, Odd, Finish, Voted;
    var now := Exec(b, LOWER + BORROW);
    Borrowing(b, i);
    OneMore(b, LOWER + BORROW, Sw(A4, ACK_OFFSET, A5));
    AckStep(now, A4, i);
    OddOne();
    StepAt(now, Sw(A4, ACK_OFFSET, A5), i);
    StoreKeeps(now.core.At(i), Sw(A4, ACK_OFFSET, A5), Voted(now, Sw(A4, ACK_OFFSET, A5)), now.mem);
  }

  lemma Dropping(b: Board, p: seq<Instr>, i: nat)
    requires i < 3
    ensures !CoreAfter(b, p + RELOADING + DROP, i).ack
  {
    hide Step, Exec, X, Odd, PopCsrs, PopRegs;
    var before := p + (PopCsrs(5) + PopRegs(31));
    assert p + RELOADING == before + [Li(A5, PRIVATE_BASE)];
    OneMore(b, before, Li(A5, PRIVATE_BASE));
    LiSets(Exec(b, before), A5, PRIVATE_BASE, i);
    OneMore(b, p + RELOADING, Sw(0, ACK_OFFSET, A5));
    AckStep(Exec(b, p + RELOADING), 0, i);
    OddOne();
    ZeroIsZero(CoreAfter(b, p + RELOADING, i).x);
  }

  lemma ZeroIsZero(x: map<nat, Word>)
    ensures X(x, 0) == 0
  {
  }

  lemma PrefixOf(whole: seq<Instr>, head: seq<Instr>, part: seq<Instr>, tail: seq<Instr>, n: nat)
    requires whole == head + part + tail && |head| <= n <= |head| + |part|
    ensures whole[..n] == head + part[..n - |head|]
  {
  }

  lemma TamePrefix(p: seq<Instr>, n: nat)
    requires n <= |p|
    ensures AllTame(p) ==> AllTame(p[..n])
    ensures NoStores(p) ==> NoStores(p[..n])
  {
    hide Tame;
  }

  lemma HeldWhileSaving(b: Board, n: nat, i: nat)
    requires i < 3 && n <= |SAVING| && FramePublic(Lowered(b.core.At(i)))
    ensures CoreAfter(b, LOWER + BORROW + RAISE + SAVING[..n], i).ack
  {
    hide Step, Exec, FramePublic, X, Sum, Tame, PushRegs, PushCsrs, Load, Save;
    Raising(b, i);
    PartsTame();
    TamePrefix(SAVING, n);
    TameKeepsAck(Exec(b, LOWER + BORROW + RAISE), SAVING[..n], i);
    ExecAppend(b, LOWER + BORROW + RAISE, SAVING[..n]);
  }

  lemma HeldWhileReloading(b: Board, n: nat, i: nat)
    requires i < 3 && n <= |RELOADING| && FramePublic(Lowered(b.core.At(i)))
    ensures CoreAfter(b, LOWER + BORROW + RAISE + SAVING + RELOADING[..n], i).ack
  {
    hide Step, Exec, FramePublic, X, Sum, Tame, PushRegs, PushCsrs, PopRegs, PopCsrs, Load, Save;
    HeldWhileSaving(b, |SAVING|, i);
    assert SAVING[..|SAVING|] == SAVING;
    PartsTame();
    TamePrefix(RELOADING, n);
    QuietKeepsAck(Exec(b, LOWER + BORROW + RAISE + SAVING), RELOADING[..n], i);
    ExecAppend(b, LOWER + BORROW + RAISE + SAVING, RELOADING[..n]);
  }

  lemma DownWhileLeaving(b: Board, p: seq<Instr>, n: nat, i: nat)
    requires i < 3 && n <= |LEAVING|
    ensures !CoreAfter(b, p + RELOADING + DROP + LEAVING[..n], i).ack
  {
    hide Step, Exec, X, Tame, PopRegs, PopCsrs, Load, Save;
    Dropping(b, p, i);
    PartsTame();
    TamePrefix(LEAVING, n);
    QuietKeepsAck(Exec(b, p + RELOADING + DROP), LEAVING[..n], i);
    ExecAppend(b, p + RELOADING + DROP, LEAVING[..n]);
  }

  lemma AsBeforeWhileBorrowing(b: Board, n: nat, i: nat)
    requires i < 3 && n <= |BORROW| && FramePublic(Lowered(b.core.At(i)))
    ensures CoreAfter(b, LOWER + BORROW[..n], i).ack == b.core.At(i).ack
  {
    hide Step, Exec, FramePublic, X, Sum, Tame, Load, Save;
    LowersSp(b, i);
    PartsTame();
    TamePrefix(BORROW, n);
    TameKeepsAck(Exec(b, LOWER), BORROW[..n], i);
    ExecAppend(b, LOWER, BORROW[..n]);
  }

  /**
   * A core with a public frame raises its acknowledge bit before it pushes the first register, keeps it until it
   * has popped the last one, and drops it then: the bit is known after every single instruction.
   */
  lemma AcknowledgeHeld(b: Board, n: nat, i: nat)
    requires i < 3 && n <= |HANDLER| && FramePublic(Lowered(b.core.At(i)))
    ensures CoreAfter(b, HANDLER[..n], i).ack == if n < RAISED then b.core.At(i).ack else n < DROPPED
  {
    HandlerParts();
    hide HANDLER, LOWER, BORROW, RAISE, SAVING, RELOADING, DROP, LEAVING, CoreAfter, FramePublic;
    var up := LOWER + BORROW + RAISE;
    if n == 0 {
      assert HANDLER[..0] == [];
      NothingYet(b, i);
    } else if n < RAISED {
      PrefixOf(HANDLER, LOWER, BORROW, RAISE + (SAVING + (RELOADING + (DROP + LEAVING))), n);
      AsBeforeWhileBorrowing(b, n - |LOWER|, i);
    } else if n <= RAISED + |SAVING| {
      PrefixOf(HANDLER, up, SAVING, RELOADING + (DROP + LEAVING), n);
      HeldWhileSaving(b, n - |up|, i);
    } else if n < DROPPED {
      PrefixOf(HANDLER, up + SAVING, RELOADING, DROP + LEAVING, n);
      HeldWhileReloading(b, n - |up + SAVING|, i);
    } else {
      PrefixOf(HANDLER, up + SAVING + RELOADING + DROP, LEAVING, [], n);
      DownWhileLeaving(b, up + SAVING, n - DROPPED, i);
    }
  }

  lemma NothingYet(b: Board, i: nat)
    requires i < 3
    ensures CoreAfter(b, [], i) == b.core.At(i)
  {
  }

  // ---- in step all along ----

  lemma StepStays(b: Board, q: Instr, i: nat)
    requires i < 3
    ensures Step(b, q).core.At(i).inStep ==> b.core.At(i).inStep
  {
    hide Finish, StepLocal, Voted;
    StepAt(b, q, i);
    if Local(q) {
      LocalKeepsAck(b.core.At(i), q);
    } else {
      FinishStays(b.core.At(i), q, Voted(b, q), b.mem);
    }
  }

  /** A core that is in step at the end has been in step after every instruction. */
  lemma {:induction false} InStepBefore(b: Board, p: seq<Instr>, n: nat, i: nat)
    requires i < 3 && n <= |p| && CoreAfter(b, p, i).inStep
    ensures CoreAfter(b, p[..n], i).inStep
    decreases |p|
  {
    hide Step;
    if n == |p| {
      assert p[..n] == p;
    } else {
      var q := p[..|p| - 1];
      StepStays(Exec(b, q), p[|p| - 1], i);
      InStepBefore(b, q, n, i);
      assert q[..n] == p[..n];
    }
  }

  // ---- the handshake with the mode controller ----

  /** The first n instructions of the handler. */
  function Done(n: nat): seq<Instr> {
    if n < |HANDLER| then HANDLER[..n] else HANDLER
  }

  /** The bits the three cores show after n instructions. */
  function Acks(b: Board, n: nat): Trio<bool> {
    Trio(CoreAfter(b, Done(n), 0).ack, CoreAfter(b, Done(n), 1).ack, CoreAfter(b, Done(n), 2).ack)
  }

  /** After n instructions all three cores are still executing the same one. */
  predicate AllInStep(b: Board, n: nat) {
    CoreAfter(b, Done(n), 0).inStep && CoreAfter(b, Done(n), 1).inStep && CoreAfter(b, Done(n), 2).inStep
  }

  /** How many instructions of the handler have been completed by each cycle: at most one more in a cycle. */
  ghost predicate Progress(pace: seq<nat>) {
    pace != [] && pace[0] == 0 && forall k :: 0 < k < |pace| ==> pace[k - 1] <= pace[k] <= pace[k - 1] + 1
  }

  /** In each cycle the controller sees the bits as they stand. */
  ghost predicate ShowsAcks(b: Board, pace: seq<nat>, run: seq<Control.In>)
    requires Progress(pace)
  {
    |run| == |pace| && forall k :: 0 <= k < |run| ==> run[k].intcAck == Acks(b, pace[k])
  }

  ghost predicate AllPublic(b: Board) {
    FramePublic(Lowered(b.core.c0)) && FramePublic(Lowered(b.core.c1)) && FramePublic(Lowered(b.core.c2))
  }

  lemma AckAfter(b: Board, n: nat, i: nat)
    requires i < 3 && FramePublic(Lowered(b.core.At(i)))
    ensures CoreAfter(b, Done(n), i).ack == if n < RAISED then b.core.At(i).ack else n < DROPPED
  {
    HandlerParts();
    hide HANDLER, FramePublic, CoreAfter;
    if n < |HANDLER| {
      AcknowledgeHeld(b, n, i);
    } else {
      AcknowledgeHeld(b, |HANDLER|, i);
      assert HANDLER[..|HANDLER|] == HANDLER;
    }
  }

  lemma AcksAt(b: Board, n: nat)
    requires AllPublic(b)
    ensures n >= RAISED ==> Acks(b, n) == Trio(n < DROPPED, n < DROPPED, n < DROPPED)
    ensures n < RAISED ==> Acks(b, n) == Acks(b, 0)
  {
    hide HANDLER, FramePublic, CoreAfter, Done;
    assert forall i :: 0 <= i < 3 ==> FramePublic(Lowered(b.core.At(i)));
    forall i | 0 <= i < 3
      ensures CoreAfter(b, Done(n), i).ack == if n < RAISED then b.core.At(i).ack else n < DROPPED
      ensures CoreAfter(b, Done(0), i).ack == b.core.At(i).ack
    {
      AckAfter(b, n, i);
      AckAfter(b, 0, i);
    }
  }

  lemma {:induction false} Reached(pace: seq<nat>, j: nat, n: nat) returns (i: nat)
    requires Progress(pace) && j < |pace| && n <= pace[j]
    ensures i <= j && pace[i] == n
    decreases j
  {
    if pace[j] == n { i := j; } else { i := Reached(pace, j - 1, n); }
  }

  lemma {:induction false} Onward(pace: seq<nat>, i: nat, j: nat)
    requires Progress(pace) && i <= j < |pace|
    ensures pace[i] <= pace[j]
    decreases j - i
  {
    if i < j { Onward(pace, i, j - 1); }
  }

  /** The controller has been served exactly when the last bit has been dropped. */
  lemma ServedIff(b: Board, pace: seq<nat>, run: seq<Control.In>, k: nat)
    requires AllPublic(b) && Progress(pace) && ShowsAcks(b, pace, run) && k <= |run|
    ensures Control.Served(run[..k]) <==> k > 0 && pace[k - 1] >= DROPPED
  {
    hide Acks, AllPublic, HANDLER;
    if k > 0 && pace[k - 1] >= DROPPED {
      var i := Reached(pace, k - 1, RAISED);
      AcksAt(b, pace[i]);
      AcksAt(b, pace[k - 1]);
      assert Control.All(run[..k][i].intcAck) && Control.None(run[..k][k - 1].intcAck);
    }
    if i, j :| 0 <= i < j < k && Control.All(run[..k][i].intcAck) && Control.None(run[..k][j].intcAck) {
      AcksAt(b, pace[i]);
      AcksAt(b, pace[j]);
      Onward(pace, i, j);
      Onward(pace, j, k - 1);
    }
  }

  /**
   * The whole recovery, handler and controller together: with three public frames and a public reloaded one,
   * the resync interrupt is held through the entire handler and released in the very cycle after the harts
   * have dropped their bits, with voting resumed; all three harts are in step all along, and equal at the end.
   */
  lemma RecoveryHandshake(b: Board, s: Control.State, pace: seq<nat>, run: seq<Control.In>, k: nat)
    requires Reaches(b.core.c0) && Reaches(b.core.c1) && Reaches(b.core.c2) && FramePublic(Reloaded(b))
    requires Control.Together(s, Control.TmrSyncIntc) && Progress(pace) && ShowsAcks(b, pace, run)
    requires k <= |run| && (k >= 2 ==> pace[k - 2] < DROPPED)
    ensures var now, dropped := Control.After(s, run[..k]), k > 0 && pace[k - 1] >= DROPPED;
            && Control.Resync(now) == (if dropped then Control.NOBODY else Control.UNANIMOUS)
            && (dropped <==> Control.Together(now, Control.TmrSync))
    ensures k < |run| ==> AllInStep(b, pace[k])
    ensures AllEqual(Exec(b, HANDLER))
  {
    hide HANDLER, FramePublic, Acks, Reloaded, Exec, X, Sum, ShowsAcks, AllInStep, AllEqual;
    hide Control.Served, Control.After, Control.Together, Control.Resync;
    ScrubConverges(b);
    assert AllPublic(b);
    ServedIff(b, pace, run, k);
    if k > 0 {
      ServedIff(b, pace, run, k - 1);
      assert run[..k][..|run[..k]| - 1] == run[..k - 1];
    }
    ShownLength(b, pace, run);
    assert run[..k] != [] ==> k > 0;
    Control.ResyncIsHeld(s, run[..k]);
    if k < |run| {
      StillInStepAt(b, pace[k]);
    }
  }

  lemma StillInStepAt(b: Board, n: nat)
    requires AllEqual(Exec(b, HANDLER))
    ensures AllInStep(b, n)
  {
    hide HANDLER, Exec, Equal, Regs, Csrs;
    if n < |HANDLER| {
      InStepBefore(b, HANDLER, n, 0);
      InStepBefore(b, HANDLER, n, 1);
      InStepBefore(b, HANDLER, n, 2);
    }
  }

  lemma ShownLength(b: Board, pace: seq<nat>, run: seq<Control.In>)
    requires Progress(pace) && ShowsAcks(b, pace, run)
    ensures |run| == |pace|
  {
    hide Acks;
  }
}
