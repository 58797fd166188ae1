/**
 * Whole runs of the mode controller along its paths: from reset into each mode, through any number of
 * recoveries, and from mode to mode. Each path is a sequence of rungs; the inputs alone say when it moves on.
 */
module SafePaths {
  import opened TmrVoter
  import opened SafeFsm

  type Hart = i: nat | i < 3

  datatype Path =
    | TripleLife                                // from reset, then one recovery after the other
    | DualLife(mask: Trio<bool>, config: bv2)   // from reset, then one rollback after the other
    | SingleLife                                // from reset to a stop from outside
    | ToTriple(m: Hart)                         // single mode on hart m, then triple mode
    | ToDual(m: Hart, k: Hart, config: bv2)     // single mode on hart m, then dual mode with k
    | FromTriple(m: Hart)                       // triple mode, then single mode on hart m
    | FromDual(m: Hart, k: Hart)                // dual mode, then single mode on hart m

  predicate WellFormed(p: Path) {
    match p
    case DualLife(mask, config) => mask != NOBODY && (config == 2 || config == 3)
    case ToDual(m, k, config) => m != k && (config == 2 || config == 3)
    case FromDual(m, k) => m != k
    case _ => true
  }

  // ---- inputs ----

  function Hot(m: Hart): Trio<bool> {
    Trio(m == 0, m == 1, m == 2)
  }

  function Pair(m: Hart, k: Hart): Trio<bool> {
    Trio(m == 0 || k == 0, m == 1 || k == 1, m == 2 || k == 2)
  }

  /** Every hart of the mask shows v. */
  predicate MaskedShow(mask: Trio<bool>, t: Trio<bool>, v: bool) {
    (mask.c0 ==> t.c0 == v) && (mask.c1 ==> t.c1 == v) && (mask.c2 ==> t.c2 == v)
  }

  predicate Alike(mask: Trio<bool>, t: Trio<bool>) {
    MaskedShow(mask, t, true) || MaskedShow(mask, t, false)
  }

  // ---- rungs ----

  /** The states of all the machines. */
  datatype Rung = Rung(safe: Safe, single: Single, tmr: Trio<Tmr>, dmr: Trio<Dmr>)

  function Same<T>(v: T): Trio<T> {
    Trio(v, v, v)
  }

  function Where<T>(mask: Trio<bool>, v: T, other: T): Trio<T> {
    Trio(if mask.c0 then v else other, if mask.c1 then v else other, if mask.c2 then v else other)
  }

  const NO_TMR: Trio<Tmr> := Same(TmrIdle)
  const NO_DMR: Trio<Dmr> := Same(DmrIdle)

  /** The first rungs of every path from reset, up to the mode that was configured. */
  function Waking(n: nat, mode: Safe): Rung
    requires n < 4
  {
    if n == 0 then Rung(Reset, SingleReset, Same(TmrReset), Same(DmrReset))
    else Rung(if n == 1 then Boot else if n == 2 then Idle else mode, SingleIdle, NO_TMR, NO_DMR)
  }

  function TripleRung(n: nat): Rung {
    if n < 4 then Waking(n, TmrMode) else Rung(TmrMode, SingleIdle, Same(TripleState(n)), NO_DMR)
  }

  function TripleState(n: nat): Tmr
    requires 4 <= n
  {
    if n == 4 then TmrStart else if n == 5 then TmrBoot
    else if n % 3 == 0 then TmrSync else if n % 3 == 1 then TmrSyncIntc else TmrSwSync
  }

  function DualRung(mask: Trio<bool>, n: nat): Rung {
    if n < 4 then Waking(n, DmrMode) else Rung(DmrMode, SingleIdle, NO_TMR, Where(mask, DualState(n), DmrIdle))
  }

  function DualState(n: nat): Dmr
    requires 4 <= n
  {
    if n == 4 then DmrStart else if n == 5 then DmrBoot
    else if n % 4 == 2 then DmrSync else if n % 4 == 3 then DmrStop
    else if n % 4 == 0 then DmrIntcRecovery else DmrRecovery
  }

  function SingleRung(n: nat): Rung {
    if n < 4 then Waking(n, SingleMode)
    else Rung(if n == 8 then Idle else SingleMode,
              if n == 4 then SingleStart else if n == 5 then SingleRun else if n == 6 then SingleSyncOff
              else SingleIdle, NO_TMR, NO_DMR)
  }

  function ToTripleRung(m: Hart, n: nat): Rung {
    if n == 0 then Rung(SingleMode, SingleRun, NO_TMR, NO_DMR)
    else Rung(TmrMode, if n < 4 then SingleToTmr else SingleIdle,
              if n == 1 then NO_TMR else if n == 2 then Where(Hot(m), TmrShHalt, TmrIdle)
              else Same(if n == 3 then TmrShHalt else if n == 4 then TmrWaitSh else if n == 5 then TmrMsIntrSync
                        else TmrSync),
              NO_DMR)
  }

  function ToDualRung(m: Hart, k: Hart, n: nat): Rung {
    if n == 0 then Rung(SingleMode, SingleRun, NO_TMR, NO_DMR)
    else Rung(DmrMode, if n < 4 then SingleToDmr else SingleIdle, NO_TMR,
              if n == 1 then NO_DMR else if n == 2 then Where(Hot(m), DmrShHalt, DmrIdle)
              else Where(Pair(m, k), if n == 3 then DmrShHalt else if n == 4 then DmrWaitSh
                                     else if n == 5 then DmrMsIntrSync else DmrSync, DmrIdle))
  }

  function FromTripleRung(m: Hart, n: nat): Rung {
    Rung(if n < 2 then TmrMode else SingleMode, if n < 3 then SingleIdle else SingleRun,
         if n == 0 then Same(TmrSync) else if n == 1 then Same(TmrEndSync)
         else if n < 4 then Where(Hot(m), TmrEndSync, TmrIdle) else NO_TMR, NO_DMR)
  }

  function FromDualRung(m: Hart, k: Hart, n: nat): Rung {
    Rung(if n < 2 then DmrMode else SingleMode, if n < 3 then SingleIdle else SingleRun, NO_TMR,
         if n == 0 then Where(Pair(m, k), DmrSync, DmrIdle) else if n == 1 then Where(Pair(m, k), DmrEndSync, DmrIdle)
         else if n < 4 then Where(Hot(m), DmrEndSync, DmrIdle) else NO_DMR)
  }

  function RungOf(p: Path, n: nat): Rung {
    match p
    case TripleLife => TripleRung(n)
    case DualLife(mask, _) => DualRung(mask, n)
    case SingleLife => SingleRung(n)
    case ToTriple(m) => ToTripleRung(m, n)
    case ToDual(m, k, _) => ToDualRung(m, k, n)
    case FromTriple(m) => FromTripleRung(m, n)
    case FromDual(m, k) => FromDualRung(m, k, n)
  }

  /** The two flip-flops beside the machines. */
  predicate FlopsAt(p: Path, n: nat, s: State) {
    match p
    case TripleLife => n >= 6 && n % 3 == 0 ==> !s.latch
    case DualLife(_, config) => DelayAt(config, n < 4, n >= 5, s)
    case ToTriple(_) => n == 6 ==> !s.latch
    case ToDual(_, _, config) => DelayAt(config, n < 5, n >= 6, s)
    case FromTriple(_) => n == 0 ==> !s.latch
    case _ => true
  }

  /** The delay flip-flop: clear before dual mode asks for the delay, and set in the cycle after if it does. */
  predicate DelayAt(config: bv2, before: bool, after: bool, s: State) {
    (before ==> !s.delay) && (s.delay ==> config == 3) && (after ==> s.delay == (config == 3))
  }

  /** In the last rung of a switch the single machine has seen both sides halt, one cycle after entering it. */
  predicate Switching(p: Path, n: nat) {
    n == 3 && (p.ToTriple? || p.ToDual?)
  }

  predicate AtRung(p: Path, n: nat, s: State) {
    var r := RungOf(p, n);
    && s.safe == r.safe && s.tmr == r.tmr && s.dmr == r.dmr
    && (s.single == r.single || (Switching(p, n) && s.single.SingleIdle?))
    && FlopsAt(p, n, s)
  }

  // ---- when a path moves on, and what it takes for granted meanwhile ----

  predicate Leaves(p: Path, n: nat, x: In) {
    match p
    case TripleLife => LeavesTriple(n, x)
    case DualLife(mask, _) => LeavesDual(mask, n, x)
    case SingleLife => LeavesSingle(n, x)
    case ToTriple(m) => LeavesToTriple(m, n, x)
    case ToDual(m, k, config) => LeavesToDual(m, k, config, n, x)
    case FromTriple(m) => LeavesFromTriple(m, n, x)
    case FromDual(m, _) => LeavesFromDual(m, n, x)
  }

  predicate LeavesWaking(n: nat, x: In) {
    (n == 1 ==> All(x.wfi)) && (n == 2 ==> x.start)
  }

  predicate LeavesTriple(n: nat, x: In) {
    if n < 4 then LeavesWaking(n, x)
    else if n == 4 then All(x.haltAck)
    else if n == 5 then None(x.haltAck)
    else if n % 3 == 0 then x.tmrError
    else if n % 3 == 1 then All(x.intcAck)
    else None(x.intcAck)
  }

  predicate LeavesDual(mask: Trio<bool>, n: nat, x: In) {
    if n < 4 then LeavesWaking(n, x)
    else if n == 4 then MaskedShow(mask, x.haltAck, true)
    else if n == 5 then MaskedShow(mask, x.haltAck, false)
    else if n % 4 == 2 then DmrErrorSeen(x)
    else if n % 4 == 3 then All(x.wfi)
    else MaskedShow(mask, x.haltAck, n % 4 == 0)
  }

  predicate LeavesSingle(n: nat, x: In) {
    if n < 4 then LeavesWaking(n, x)
    else if n == 4 then x.haltAck == x.master
    else if n == 5 then !x.start
    else if n == 6 then None(x.wfi)
    else true
  }

  predicate LeavesToTriple(m: Hart, n: nat, x: In) {
    if n == 0 then x.config == 1
    else if n == 1 then x.wfi.At(m) && x.initialSync
    else if n == 2 then true
    else if n == 3 then MaskedShow(Others(m), x.haltAck, true)
    else if n == 4 then All(x.wfi)
    else All(x.intcAck)
  }

  predicate LeavesToDual(m: Hart, k: Hart, config: bv2, n: nat, x: In) {
    if n == 0 then x.config == config
    else if n == 1 then x.wfi.At(m) && x.initialSync
    else if n == 2 then true
    else if n == 3 then x.haltAck.At(k)
    else if n == 4 then All(x.wfi)
    else MaskedShow(Pair(m, k), x.intcAck, true)
  }

  predicate LeavesFromTriple(m: Hart, n: nat, x: In) {
    (n == 0 ==> All(x.wfi) && x.config == 0) && (n == 3 ==> x.intcAck.At(m))
  }

  predicate LeavesFromDual(m: Hart, n: nat, x: In) {
    (n == 0 ==> All(x.wfi)) && (n == 3 ==> x.intcAck.At(m))
  }

  /** The two harts besides m. */
  function Others(m: Hart): Trio<bool> {
    Trio(m != 0, m != 1, m != 2)
  }

  predicate Allowed(p: Path, n: nat, x: In) {
    match p
    case TripleLife => AllowedTriple(n, x)
    case DualLife(mask, config) => AllowedDual(mask, config, n, x)
    case SingleLife => AllowedSingle(n, x)
    case ToTriple(m) => AllowedToTriple(m, n, x)
    case ToDual(m, k, config) => AllowedToDual(m, k, config, n, x)
    case FromTriple(m) => AllowedFromTriple(m, n, x)
    case FromDual(m, k) => AllowedFromDual(m, k, n, x)
  }

  /** The start signal stays up for the cycle in which the mode has been entered. */
  predicate AllowedWaking(config: bool, n: nat, x: In) {
    (n == 2 ==> config) && (n == 3 ==> x.start)
  }

  predicate AllowedTriple(n: nat, x: In) {
    && AllowedWaking(x.config == 1, n, x)
    && (n == 4 || n == 5 ==> Alike(UNANIMOUS, x.haltAck))
    && (n >= 6 && n % 3 == 0 ==> !x.critical && !(All(x.wfi) && (x.endRoutine || x.config != 1)))
  }

  predicate AllowedDual(mask: Trio<bool>, config: bv2, n: nat, x: In) {
    && AllowedWaking(true, n, x)
    && (n >= 2 ==> x.config == config) && (n >= 3 ==> x.dmrMask == mask)
    && (n == 4 || n == 5 || (n >= 6 && n % 4 < 2) ==> Alike(mask, x.haltAck))
    && (n >= 6 && n % 4 == 2 ==> !All(x.wfi))
  }

  predicate AllowedSingle(n: nat, x: In) {
    && n < 8 && AllowedWaking(x.config == 0, n, x)
    && (n >= 3 ==> x.config == 0) && (n == 3 ==> !x.endRoutine)
    && (n == 5 ==> !(x.endRoutine && All(x.wfi)) && (x.start || (None(x.haltAck) && !x.endRoutine)))
    && (n == 6 || n == 7 ==> !x.start)
  }

  predicate AllowedToTriple(m: Hart, n: nat, x: In) {
    && n < 6 && (1 <= n <= 3 ==> x.master == Hot(m)) && (n < 3 ==> x.start)
    && (n == 0 ==> (x.config == 0 || (x.config == 1 && None(x.haltAck))) && !(x.endRoutine && All(x.wfi)))
    && (n == 2 ==> None(x.haltAck))
    && (n == 3 ==> Alike(Others(m), x.haltAck))
  }

  predicate AllowedToDual(m: Hart, k: Hart, config: bv2, n: nat, x: In) {
    && n < 6 && (n >= 1 ==> x.dmrMask == Pair(m, k)) && (1 <= n <= 3 ==> x.master == Hot(m)) && (n < 3 ==> x.start)
    && (n == 0 ==> (x.config == 0 || (x.config == config && None(x.haltAck))) && !(x.endRoutine && All(x.wfi)))
    && (n == 2 ==> None(x.haltAck))
    && (n == 3 ==> x.haltAck == Hot(k) || None(x.haltAck))
    && (n == 5 ==> x.config == config && Alike(Pair(m, k), x.intcAck))
  }

  predicate AllowedFromTriple(m: Hart, n: nat, x: In) {
    && n < 4
    && (n == 0 ==> !x.endRoutine && !x.tmrError && (x.config == 0 || x.config == 1))
    && AllowedHandover(m, Others(m), n, x)
  }

  predicate AllowedFromDual(m: Hart, k: Hart, n: nat, x: In) {
    && n < 4 && x.dmrMask == Pair(m, k)
    && (n == 0 ==> !x.endRoutine && (All(x.wfi) || !DmrErrorSeen(x)))
    && AllowedHandover(m, Hot(k), n, x)
  }

  /** Hart m stays; the others sleep; the acknowledgement of m comes after the single machine has started. */
  predicate AllowedHandover(m: Hart, others: Trio<bool>, n: nat, x: In) {
    && (n >= 1 ==> x.master == Hot(m)) && (n == 1 ==> MaskedShow(others, x.wfi, true))
    && (n == 1 || n == 2 ==> !x.intcAck.At(m))
    && (n >= 2 ==> x.start && x.config == 0 && !x.endRoutine)
  }

  /** The error that counts is the one of the master's comparator. */
  lemma MastersErrorCounts(m: Hart, x: In)
    requires x.master == Hot(m)
    ensures DmrErrorSeen(x) == x.dmrError.At(m)
  {
  }

  // ---- climbing ----

  /** The rung a run starting on rung `from` reaches. */
  function Met(p: Path, from: nat, run: seq<In>): nat {
    if run == [] then from
    else
      var n := Met(p, from, run[..|run| - 1]);
      if Leaves(p, n, run[|run| - 1]) then n + 1 else n
  }

  ghost predicate Follows(p: Path, from: nat, run: seq<In>) {
    forall k :: 0 <= k < |run| ==> Allowed(p, Met(p, from, run[..k]), run[k])
  }

  /** In the cycles listed, one after the other, the inputs ask to leave rung after rung. */
  ghost predicate InOrder(p: Path, from: nat, run: seq<In>, at: seq<nat>) {
    && (forall i :: 0 <= i < |at| ==> at[i] < |run| && Leaves(p, from + i, run[at[i]]))
    && (forall i :: 0 < i < |at| ==> at[i - 1] < at[i])
  }

  lemma OneMoreInOrder(p: Path, from: nat, run: seq<In>, at: seq<nat>)
    requires run != [] && InOrder(p, from, run[..|run| - 1], at)
    ensures InOrder(p, from, run, at)
    ensures Leaves(p, from + |at|, run[|run| - 1]) ==> InOrder(p, from, run, at + [|run| - 1])
  {
    hide Leaves;
  }

  lemma {:induction false} MetInOrder(p: Path, from: nat, run: seq<In>) returns (at: seq<nat>)
    ensures from + |at| == Met(p, from, run) && InOrder(p, from, run, at)
    decreases |run|
  {
    if run == [] {
      at := [];
    } else {
      hide Leaves, InOrder;
      var n := |run| - 1;
      at := MetInOrder(p, from, run[..n]);
      OneMoreInOrder(p, from, run, at);
      if Leaves(p, from + |at|, run[n]) {
        at := at + [n];
      }
    }
  }

  /** Without its last cycle a run serves all of the list but perhaps the last entry. */
  lemma OneLessInOrder(p: Path, from: nat, run: seq<In>, at: seq<nat>)
    requires at != [] && InOrder(p, from, run, at)
    ensures at[|at| - 1] < |run|
    ensures if at[|at| - 1] == |run| - 1 then
              InOrder(p, from, run[..|run| - 1], at[..|at| - 1]) && Leaves(p, from + |at| - 1, run[|run| - 1])
            else InOrder(p, from, run[..|run| - 1], at)
  {
    hide Leaves;
    Increases(p, from, run, at);
    assert at[|at| - 1] < |run|;
  }

  lemma {:induction false} InOrderMet(p: Path, from: nat, run: seq<In>, at: seq<nat>)
    requires InOrder(p, from, run, at)
    ensures from + |at| <= Met(p, from, run)
    decreases |run|
  {
    hide Leaves, InOrder;
    if at == [] {
      MetGrows(p, from, run);
    } else {
      OneLessInOrder(p, from, run, at);
      var n, l := |run| - 1, |at| - 1;
      InOrderMet(p, from, run[..n], if at[l] == n then at[..l] else at);
    }
  }

  lemma {:induction false} MetGrows(p: Path, from: nat, run: seq<In>)
    ensures from <= Met(p, from, run)
    decreases |run|
  {
    hide Leaves;
    if run != [] {
      MetGrows(p, from, run[..|run| - 1]);
    }
  }

  lemma {:induction false} Increases(p: Path, from: nat, run: seq<In>, at: seq<nat>)
    requires InOrder(p, from, run, at)
    ensures forall i :: 0 <= i < |at| - 1 ==> at[i] < at[|at| - 1]
    decreases |at|
  {
    hide Leaves;
    if |at| > 1 {
      Increases(p, from, run, at[..|at| - 1]);
    }
  }

  /** A run reaches a rung exactly when the conditions for leaving the ones before occur in it in order. */
  lemma MetIff(p: Path, from: nat, run: seq<In>, n: nat)
    ensures from + n <= Met(p, from, run) <==> exists at: seq<nat> :: |at| == n && InOrder(p, from, run, at)
  {
    hide Leaves;
    if from + n <= Met(p, from, run) {
      var at := MetInOrder(p, from, run);
      assert InOrder(p, from, run, at[..n]);
    }
    if at: seq<nat> :| |at| == n && InOrder(p, from, run, at) {
      InOrderMet(p, from, run, at);
    }
  }

  // ---- one step on each path ----

  lemma StepWaking(n: nat, mode: Safe, s: State, x: In)
    requires n < 3 && AllowedWaking(mode == ModeFor(x.config), n, x)
    requires var r := Waking(n, mode); s.safe == r.safe && s.single == r.single && s.tmr == r.tmr && s.dmr == r.dmr
    ensures var r, t := Waking(if LeavesWaking(n, x) then n + 1 else n, mode), Step(s, x);
            t.safe == r.safe && t.single == r.single && t.tmr == r.tmr && t.dmr == r.dmr
    ensures !Step(s, x).latch && (!s.delay ==> !Step(s, x).delay)
  {
  }

  /** The mode a configuration stands for. */
  function ModeFor(config: bv2): Safe {
    if config == 0 then SingleMode else if config == 1 then TmrMode else DmrMode
  }

  lemma StepTriple(n: nat, s: State, x: In)
    requires 3 <= n && AtRung(TripleLife, n, s) && AllowedTriple(n, x)
    ensures AtRung(TripleLife, if LeavesTriple(n, x) then n + 1 else n, Step(s, x))
  {
  }

  lemma StepDualBoots(mask: Trio<bool>, config: bv2, n: nat, s: State, x: In)
    requires WellFormed(DualLife(mask, config))
    requires 3 <= n && AtRung(DualLife(mask, config), n, s) && AllowedDual(mask, config, n, x)
    requires n < 6
    ensures AtRung(DualLife(mask, config), if LeavesDual(mask, n, x) then n + 1 else n, Step(s, x))
  {
  }

  lemma StepDualRolls(mask: Trio<bool>, config: bv2, n: nat, s: State, x: In)
    requires WellFormed(DualLife(mask, config))
    requires 3 <= n && AtRung(DualLife(mask, config), n, s) && AllowedDual(mask, config, n, x)
    requires n >= 6
    ensures AtRung(DualLife(mask, config), if LeavesDual(mask, n, x) then n + 1 else n, Step(s, x))
  {
  }

  lemma StepDual(mask: Trio<bool>, config: bv2, n: nat, s: State, x: In)
    requires WellFormed(DualLife(mask, config))
    requires 3 <= n && AtRung(DualLife(mask, config), n, s) && AllowedDual(mask, config, n, x)
    ensures AtRung(DualLife(mask, config), if LeavesDual(mask, n, x) then n + 1 else n, Step(s, x))
  {
    hide AtRung, Step;
    if n < 6 {
      StepDualBoots(mask, config, n, s, x);
    } else {
      StepDualRolls(mask, config, n, s, x);
    }
  }

  lemma StepSingle(n: nat, s: State, x: In)
    requires 3 <= n && AtRung(SingleLife, n, s) && AllowedSingle(n, x)
    ensures AtRung(SingleLife, if LeavesSingle(n, x) then n + 1 else n, Step(s, x))
  {
  }

  lemma StepToTripleHalting(m: Hart, n: nat, s: State, x: In)
    requires AtRung(ToTriple(m), n, s) && AllowedToTriple(m, n, x)
    requires n < 3
    ensures AtRung(ToTriple(m), if LeavesToTriple(m, n, x) then n + 1 else n, Step(s, x))
  {
  }

  lemma StepToTripleJoining(m: Hart, n: nat, s: State, x: In)
    requires AtRung(ToTriple(m), n, s) && AllowedToTriple(m, n, x)
    requires n >= 3
    ensures AtRung(ToTriple(m), if LeavesToTriple(m, n, x) then n + 1 else n, Step(s, x))
  {
  }

  lemma StepToTriple(m: Hart, n: nat, s: State, x: In)
    requires AtRung(ToTriple(m), n, s) && AllowedToTriple(m, n, x)
    ensures AtRung(ToTriple(m), if LeavesToTriple(m, n, x) then n + 1 else n, Step(s, x))
  {
    hide AtRung, Step;
    if n < 3 {
      StepToTripleHalting(m, n, s, x);
    } else {
      StepToTripleJoining(m, n, s, x);
    }
  }

  lemma StepToDualHalting(m: Hart, k: Hart, config: bv2, n: nat, s: State, x: In)
    requires WellFormed(ToDual(m, k, config))
    requires AtRung(ToDual(m, k, config), n, s) && AllowedToDual(m, k, config, n, x)
    requires n < 2
    ensures AtRung(ToDual(m, k, config), if LeavesToDual(m, k, config, n, x) then n + 1 else n, Step(s, x))
  {
  }

  lemma StepToDualCalling(m: Hart, k: Hart, config: bv2, n: nat, s: State, x: In)
    requires WellFormed(ToDual(m, k, config))
    requires AtRung(ToDual(m, k, config), n, s) && AllowedToDual(m, k, config, n, x)
    requires n == 2
    ensures AtRung(ToDual(m, k, config), if LeavesToDual(m, k, config, n, x) then n + 1 else n, Step(s, x))
  {
  }

  lemma StepToDualAnswering(m: Hart, k: Hart, config: bv2, n: nat, s: State, x: In)
    requires WellFormed(ToDual(m, k, config))
    requires AtRung(ToDual(m, k, config), n, s) && AllowedToDual(m, k, config, n, x)
    requires n == 3
    ensures AtRung(ToDual(m, k, config), if LeavesToDual(m, k, config, n, x) then n + 1 else n, Step(s, x))
  {
  }

  lemma StepToDualJoining(m: Hart, k: Hart, config: bv2, n: nat, s: State, x: In)
    requires WellFormed(ToDual(m, k, config))
    requires AtRung(ToDual(m, k, config), n, s) && AllowedToDual(m, k, config, n, x)
    requires n >= 4
    ensures AtRung(ToDual(m, k, config), if LeavesToDual(m, k, config, n, x) then n + 1 else n, Step(s, x))
  {
  }

  lemma StepToDual(m: Hart, k: Hart, config: bv2, n: nat, s: State, x: In)
    requires WellFormed(ToDual(m, k, config))
    requires AtRung(ToDual(m, k, config), n, s) && AllowedToDual(m, k, config, n, x)
    ensures AtRung(ToDual(m, k, config), if LeavesToDual(m, k, config, n, x) then n + 1 else n, Step(s, x))
  {
    hide AtRung, Step;
    if n < 2 {
      StepToDualHalting(m, k, config, n, s, x);
    } else if n == 2 {
      StepToDualCalling(m, k, config, n, s, x);
    } else if n == 3 {
      StepToDualAnswering(m, k, config, n, s, x);
    } else {
      StepToDualJoining(m, k, config, n, s, x);
    }
  }

  lemma StepFromTripleEnding(m: Hart, n: nat, s: State, x: In)
    requires AtRung(FromTriple(m), n, s) && AllowedFromTriple(m, n, x)
    requires n < 2
    ensures AtRung(FromTriple(m), if LeavesFromTriple(m, n, x) then n + 1 else n, Step(s, x))
  {
  }

  lemma StepFromTripleHanding(m: Hart, n: nat, s: State, x: In)
    requires AtRung(FromTriple(m), n, s) && AllowedFromTriple(m, n, x)
    requires n >= 2
    ensures AtRung(FromTriple(m), if LeavesFromTriple(m, n, x) then n + 1 else n, Step(s, x))
  {
  }

  lemma StepFromTriple(m: Hart, n: nat, s: State, x: In)
    requires AtRung(FromTriple(m), n, s) && AllowedFromTriple(m, n, x)
    ensures AtRung(FromTriple(m), if LeavesFromTriple(m, n, x) then n + 1 else n, Step(s, x))
  {
    hide AtRung, Step;
    if n < 2 {
      StepFromTripleEnding(m, n, s, x);
    } else {
      StepFromTripleHanding(m, n, s, x);
    }
  }

  lemma StepFromDual(m: Hart, k: Hart, n: nat, s: State, x: In)
    requires WellFormed(FromDual(m, k))
    requires AtRung(FromDual(m, k), n, s) && AllowedFromDual(m, k, n, x)
    ensures AtRung(FromDual(m, k), if LeavesFromDual(m, n, x) then n + 1 else n, Step(s, x))
  {
  }

  lemma StepClimbs(p: Path, n: nat, s: State, x: In)
    requires WellFormed(p) && AtRung(p, n, s) && Allowed(p, n, x)
    ensures AtRung(p, if Leaves(p, n, x) then n + 1 else n, Step(s, x))
  {
    hide Step;
    if n < 3 && (p.TripleLife? || p.DualLife? || p.SingleLife?) {
      StepWaking(n, RungOf(p, 3).safe, s, x);
    } else {
      hide AtRung;
      match p
      case TripleLife => StepTriple(n, s, x);
      case DualLife(mask, config) => StepDual(mask, config, n, s, x);
      case SingleLife => StepSingle(n, s, x);
      case ToTriple(m) => StepToTriple(m, n, s, x);
      case ToDual(m, k, config) => StepToDual(m, k, config, n, s, x);
      case FromTriple(m) => StepFromTriple(m, n, s, x);
      case FromDual(m, k) => StepFromDual(m, k, n, s, x);
    }
  }

  /** Over every run that a path allows, the machines stand where the inputs have brought them. */
  lemma {:induction false} Climbs(p: Path, from: nat, s: State, run: seq<In>)
    requires WellFormed(p) && AtRung(p, from, s) && Follows(p, from, run)
    ensures AtRung(p, Met(p, from, run), After(s, run))
    decreases |run|
  {
    hide Step, AtRung, Allowed, Leaves, WellFormed;
    if run != [] {
      var before := run[..|run| - 1];
      assert forall k :: 0 <= k < |before| ==> before[..k] == run[..k];
      Climbs(p, from, s, before);
      StepClimbs(p, Met(p, from, before), After(s, before), run[|run| - 1]);
    }
  }

  // ---- what the outputs are on the way ----

  lemma TripleRouting(n: nat, s: State)
    requires AtRung(TripleLife, n, s)
    ensures VoterEnabled(s) == SharedBus(s) == (n == 1 || n >= 4) && !ComparatorEnabled(s)
    ensures BootOutput(s) == (n == 4 || n == 5)
  {
  }

  lemma TripleOutputs(n: nat, s: State, x: In)
    requires AtRung(TripleLife, n, s)
    ensures HaltOutput(s, x) == Same(n == 4) && Resync(s) == Same(n >= 7 && n % 3 != 0)
    ensures SyncOutput(s, x) == IsolatedHarts(s) == NOBODY && !RecoveryFlag(s)
  {
  }

  lemma DualRouting(mask: Trio<bool>, config: bv2, n: nat, s: State)
    requires WellFormed(DualLife(mask, config)) && AtRung(DualLife(mask, config), n, s) && n >= 4
    ensures ComparatorEnabled(s) && SharedBus(s) && !VoterEnabled(s)
  {
  }

  lemma DualPairing(mask: Trio<bool>, config: bv2, n: nat, s: State, x: In)
    requires WellFormed(DualLife(mask, config)) && AtRung(DualLife(mask, config), n, s) && n >= 4
    ensures PairConfig(s) == mask && BootOutput(s) == (n < 6)
    ensures x.config == config ==> DelayOutput(s, x) == (config == 3)
  {
  }

  lemma DualOutputs(mask: Trio<bool>, config: bv2, n: nat, s: State, x: In)
    requires WellFormed(DualLife(mask, config)) && AtRung(DualLife(mask, config), n, s) && n >= 4
    ensures Resync(s) == SyncOutput(s, x) == NOBODY
    ensures IsolatedHarts(s) == (if n >= 6 && n % 4 == 3 then mask else NOBODY)
    ensures HaltOutput(s, x) == (if n == 4 || (n >= 6 && n % 4 == 0) then mask else NOBODY)
    ensures RecoveryFlag(s) == (n >= 6 && n % 4 < 2)
  {
  }

  lemma ToTripleOutputs(m: Hart, n: nat, s: State, x: In)
    requires AtRung(ToTriple(m), n, s) && n <= 6
    ensures VoterEnabled(s) == (n >= 2) && SyncOutput(s, x) == Same(n == 5) && BootOutput(s) == (n == 0)
    ensures x.master == Hot(m) ==> HaltOutput(s, x) == (if n == 3 then Others(m) else NOBODY)
  {
  }

  lemma ToDualRouting(m: Hart, k: Hart, config: bv2, n: nat, s: State, x: In)
    requires WellFormed(ToDual(m, k, config)) && AtRung(ToDual(m, k, config), n, s) && n <= 6
    ensures ComparatorEnabled(s) == (n >= 5) && BootOutput(s) == (n == 0)
    ensures PairConfig(s) == (if n < 2 then NOBODY else if n == 2 then Hot(m) else Pair(m, k))
    ensures x.config == config ==> DelayOutput(s, x) == (n >= 5 && config == 3)
  {
  }

  lemma ToDualOutputs(m: Hart, k: Hart, config: bv2, n: nat, s: State, x: In)
    requires WellFormed(ToDual(m, k, config)) && AtRung(ToDual(m, k, config), n, s) && n <= 6
    ensures SyncOutput(s, x) == (if n == 5 then Pair(m, k) else NOBODY)
    ensures x.master == Hot(m) ==> HaltOutput(s, x) == (if n == 3 then Hot(k) else NOBODY)
  {
  }

  lemma HandoverRouting(p: Path, m: Hart, n: nat, s: State)
    requires (p == FromTriple(m) || (p.FromDual? && p.m == m && p.k != m)) && AtRung(p, n, s) && 1 <= n <= 4
    ensures !VoterEnabled(s) && !ComparatorEnabled(s) && !SharedBus(s)
  {
  }

  lemma HandoverOutputs(p: Path, m: Hart, n: nat, s: State, x: In)
    requires (p == FromTriple(m) || (p.FromDual? && p.m == m && p.k != m)) && AtRung(p, n, s) && 1 <= n <= 4
    ensures HaltOutput(s, x) == NOBODY
    ensures x.master == Hot(m) ==> SyncOutput(s, x) == (if n < 4 then Hot(m) else NOBODY)
  {
  }

  lemma SingleOutputs(n: nat, s: State, x: In)
    requires AtRung(SingleLife, n, s) && n <= 8
    ensures HaltOutput(s, x) == (if n == 4 then x.master else NOBODY) && BootOutput(s) == (3 <= n < 8)
    ensures VoterEnabled(s) == SharedBus(s) == (n == 1) && !ComparatorEnabled(s)
  {
  }

  // ---- whole lives ----

  /**
   * Triple mode from reset: boot, and then one recovery after the other. The voter is on from the start of the
   * boot routine, all harts are halted until they acknowledge, and the resync interrupt is up exactly
   * from an error until all harts have acknowledged and then released.
   */
  lemma TripleLifetime(run: seq<In>, x: In)
    requires Follows(TripleLife, 0, run)
    ensures var n, s := Met(TripleLife, 0, run), After(AFTER_RESET, run);
            && s.safe == (if n == 0 then Reset else if n == 1 then Boot else if n == 2 then Idle else TmrMode)
            && (n >= 4 ==> Together(s, TripleState(n)))
            && VoterEnabled(s) == (n == 1 || n >= 4) && HaltOutput(s, x) == Same(n == 4)
            && Resync(s) == Same(n >= 7 && n % 3 != 0)
  {
    hide Allowed, Leaves, Follows, Step;
    assert AtRung(TripleLife, 0, AFTER_RESET);
    Climbs(TripleLife, 0, AFTER_RESET, run);
    TripleRouting(Met(TripleLife, 0, run), After(AFTER_RESET, run));
    TripleOutputs(Met(TripleLife, 0, run), After(AFTER_RESET, run), x);
    hide VoterEnabled, HaltOutput, Resync;
  }

  /**
   * Dual mode from reset, through any number of rollbacks: after the first error the pair is isolated until
   * all harts sleep, then halted until both acknowledge; the boot ROM is told to restore the stack until
   * both have released, and in the next cycle both compare again.
   */
  lemma DualLifetime(mask: Trio<bool>, config: bv2, run: seq<In>, x: In)
    requires WellFormed(DualLife(mask, config)) && Follows(DualLife(mask, config), 0, run) && x.config == config
    ensures var n, s := Met(DualLife(mask, config), 0, run), After(AFTER_RESET, run);
            && s.safe == (if n == 0 then Reset else if n == 1 then Boot else if n == 2 then Idle else DmrMode)
            && (n >= 4 ==>
                  && DualTogether(s, mask, DualState(n)) && ComparatorEnabled(s) && PairConfig(s) == mask
                  && DelayOutput(s, x) == (config == 3)
                  && IsolatedHarts(s) == (if n >= 6 && n % 4 == 3 then mask else NOBODY)
                  && HaltOutput(s, x) == (if n == 4 || (n >= 6 && n % 4 == 0) then mask else NOBODY)
                  && RecoveryFlag(s) == (n >= 6 && n % 4 < 2))
  {
    var p := DualLife(mask, config);
    hide Allowed, Leaves, Follows, Step, WellFormed;
    assert AtRung(p, 0, AFTER_RESET);
    Climbs(p, 0, AFTER_RESET, run);
    var n := Met(p, 0, run);
    if n >= 4 {
      DualRouting(mask, config, n, After(AFTER_RESET, run));
      DualPairing(mask, config, n, After(AFTER_RESET, run), x);
      DualOutputs(mask, config, n, After(AFTER_RESET, run), x);
    }
    hide ComparatorEnabled, PairConfig, DelayOutput, IsolatedHarts, HaltOutput, RecoveryFlag;
  }

  /** All harts have slept, then the pair has acknowledged the halt, and then released it. */
  ghost predicate RolledBack(mask: Trio<bool>, run: seq<In>) {
    exists i, j, l :: 0 <= i < j < l < |run| && SleptAt(run, i) && HaltedAt(mask, run, j, true)
                       && HaltedAt(mask, run, l, false)
  }

  predicate SleptAt(run: seq<In>, i: nat)
    requires i < |run|
  {
    All(run[i].wfi)
  }

  predicate HaltedAt(mask: Trio<bool>, run: seq<In>, i: nat, v: bool)
    requires i < |run|
  {
    MaskedShow(mask, run[i].haltAck, v)
  }

  lemma RolledInOrder(mask: Trio<bool>, config: bv2, run: seq<In>)
    ensures RolledBack(mask, run)
        <==> exists at: seq<nat> :: |at| == 3 && InOrder(DualLife(mask, config), 7, run, at)
  {
    hide MaskedShow, All, DmrErrorSeen;
    var p := DualLife(mask, config);
    if at: seq<nat> :| |at| == 3 && InOrder(p, 7, run, at) {
      assert Leaves(p, 7 + 0, run[at[0]]) && Leaves(p, 7 + 1, run[at[1]]) && Leaves(p, 7 + 2, run[at[2]]);
      assert SleptAt(run, at[0]) && HaltedAt(mask, run, at[1], true) && HaltedAt(mask, run, at[2], false);
    }
    if i, j, l :| 0 <= i < j < l < |run| && SleptAt(run, i)
                  && HaltedAt(mask, run, j, true) && HaltedAt(mask, run, l, false) {
      var at: seq<nat> := [i, j, l];
      assert InOrder(p, 7, run, at);
    }
  }

  /**
   * One rollback, from the cycle after the error: whatever the cycles in between do, the pair compares again exactly
   * when all harts have slept, then both have acknowledged, and then both have released.
   */
  lemma RollbackCompletes(mask: Trio<bool>, config: bv2, s: State, run: seq<In>)
    requires WellFormed(DualLife(mask, config)) && AtRung(DualLife(mask, config), 7, s)
    requires Follows(DualLife(mask, config), 7, run) && Met(DualLife(mask, config), 7, run) <= 10
    ensures DualTogether(After(s, run), mask, DmrSync) <==> RolledBack(mask, run)
  {
    var p := DualLife(mask, config);
    hide Allowed, Follows, Step, Leaves, RolledBack, FlopsAt, InOrder, Met;
    Climbs(p, 7, s, run);
    RolledInOrder(mask, config, run);
    MetIff(p, 7, run, 3);
    MetGrows(p, 7, run);
  }

  // ---- from mode to mode ----

  /** The switches end where the lives go on, and begin where these stand. */
  lemma PathsJoin(m: Hart, k: Hart, config: bv2, n: nat, s: State)
    requires m != k && (config == 2 || config == 3) && n >= 6
    ensures AtRung(ToTriple(m), 6, s) ==> AtRung(TripleLife, 6, s)
    ensures AtRung(ToDual(m, k, config), 6, s) ==> AtRung(DualLife(Pair(m, k), config), 6, s)
    ensures n % 3 == 0 && AtRung(TripleLife, n, s) ==> AtRung(FromTriple(m), 0, s)
    ensures n % 4 == 2 && AtRung(DualLife(Pair(m, k), config), n, s) ==> AtRung(FromDual(m, k), 0, s)
    ensures (AtRung(SingleLife, 5, s) || AtRung(FromTriple(m), 4, s) || AtRung(FromDual(m, k), 4, s))
        ==> AtRung(ToTriple(m), 0, s) && (!s.delay ==> AtRung(ToDual(m, k, config), 0, s))
  {
  }

  /**
   * Leaving triple mode, the single machine goes on with the master's program exactly when the master does not
   * acknowledge in the very first cycle; if it does, the machine has missed the handover and boots the master anew.
   */
  lemma HandoverIff(m: Hart, s: State, x: In, y: In)
    requires AtRung(FromTriple(m), 1, s) && x.master == y.master == Hot(m) && MaskedShow(Others(m), x.wfi, true)
    requires y.start && y.config == 0 && !y.endRoutine
    ensures var after := Step(Step(s, x), y);
            after.safe == SingleMode && after.single == (if x.intcAck.At(m) then SingleStart else SingleRun)
  {
    var t := Step(s, x);
    assert t.safe == SingleMode && t.single == SingleIdle && t.dmr == NO_DMR;
    assert TmrHandsOver(t, y) == !x.intcAck.At(m);
    hide NextTmr, NextDmr, NextError, NextDelay, TmrHandsOver;
  }

  predicate Ends(x: In, y: In) {
    All(x.wfi) && x.endRoutine && !y.start
  }

  /** All harts asleep at the end of the routine, and then the start signal withdrawn: ready for the next start. */
  lemma TripleEnds(n: nat, s: State, x: In, y: In)
    requires n >= 6 && n % 3 == 0 && AtRung(TripleLife, n, s) && Ends(x, y)
    ensures AtRung(TripleLife, 2, Step(Step(s, x), y))
  {
  }

  /** The delay needs all harts asleep for a cycle without a mode configured. */
  lemma DualEnds(mask: Trio<bool>, config: bv2, n: nat, s: State, x: In, y: In)
    requires WellFormed(DualLife(mask, config)) && n >= 6 && n % 4 == 2 && AtRung(DualLife(mask, config), n, s)
    requires Ends(x, y) && x.dmrMask == mask && All(y.wfi) && y.config == 0
    ensures AtRung(DualLife(mask, config), 2, Step(Step(s, x), y))
  {
  }

  lemma SingleEnds(s: State, x: In, y: In)
    requires AtRung(SingleLife, 5, s) && Ends(x, y) && x.config == 0
    ensures AtRung(SingleLife, 2, Step(Step(s, x), y))
  {
  }
}
