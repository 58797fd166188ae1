/** The mode controller: one global machine, one for single mode, three for triple mode, three for dual mode. */
module SafeFsm {
  import opened TmrVoter

  datatype Safe = Reset | Boot | Idle | SingleMode | TmrMode | DmrMode

  datatype Single = SingleReset | SingleIdle | SingleStart | SingleRun | SingleToTmr | SingleToDmr | SingleSyncOff

  datatype Tmr =
    | TmrReset | TmrIdle | TmrStart | TmrBoot | TmrShHalt | TmrWaitSh | TmrMsIntrSync
    | TmrSync | TmrEndSync | TmrToSingle | TmrSyncIntc | TmrSwSync

  datatype Dmr =
    | DmrReset | DmrIdle | DmrStart | DmrBoot | DmrShHalt | DmrWaitSh | DmrMsIntrSync
    | DmrSync | DmrEndSync | DmrToSingle | DmrStop | DmrIntcRecovery | DmrRecovery

  /** All registers; latch and lastError are the two bits of tmr_error_ff. */
  datatype State = State(
    safe: Safe, single: Single, tmr: Trio<Tmr>, dmr: Trio<Dmr>, latch: bool, lastError: bool, delay: bool)

  const AFTER_RESET :=
    State(Reset, SingleReset, Trio(TmrReset, TmrReset, TmrReset), Trio(DmrReset, DmrReset, DmrReset),
          false, false, false)

  datatype In = In(
    dmrMask: Trio<bool>, critical: bool, config: bv2, initialSync: bool, haltAck: Trio<bool>, wfi: Trio<bool>,
    intcAck: Trio<bool>, master: Trio<bool>, tmrError: bool, dmrError: Trio<bool>, start: bool, endRoutine: bool)

  predicate All(t: Trio<bool>) { t.c0 && t.c1 && t.c2 }

  predicate None(t: Trio<bool>) { !t.c0 && !t.c1 && !t.c2 }

  const UNANIMOUS := Trio(true, true, true)
  const NOBODY := Trio(false, false, false)

  // ---- signals between the machines ----

  function HaltRequested(s: State, x: In): bool {
    || (s.tmr.c0.TmrShHalt? && x.master.c0) || (s.tmr.c1.TmrShHalt? && x.master.c1)
        || (s.tmr.c2.TmrShHalt? && x.master.c2)
    || (s.dmr.c0.DmrShHalt? && x.master.c0) || (s.dmr.c1.DmrShHalt? && x.master.c1)
        || (s.dmr.c2.DmrShHalt? && x.master.c2)
  }

  function SwitchEnabled(s: State): bool {
    s.single.SingleToTmr? || s.single.SingleToDmr?
  }

  function TmrHandsOver(s: State, x: In): bool {
    (s.tmr.c0.TmrEndSync? && x.master.c0) || (s.tmr.c1.TmrEndSync? && x.master.c1)
        || (s.tmr.c2.TmrEndSync? && x.master.c2)
  }

  function DmrHandsOver(s: State, x: In): bool {
    (s.dmr.c0.DmrEndSync? && x.master.c0) || (s.dmr.c1.DmrEndSync? && x.master.c1)
        || (s.dmr.c2.DmrEndSync? && x.master.c2)
  }

  /** The voted error as the triple machines see it: held back in a critical section until a second one. */
  function TmrErrorSeen(s: State, x: In): bool {
    || (!x.critical && (x.tmrError || s.latch))
    || (x.critical && !s.lastError && s.latch && x.tmrError)
  }

  function DmrErrorSeen(x: In): bool {
    if x.master == Trio(true, false, false) then x.dmrError.c0
    else if x.master == Trio(false, true, false) then x.dmrError.c1
    else x.dmrError.c2
  }

  // ---- next states ----

  function NextSafe(s: State, x: In): Safe {
    match s.safe
    case Reset => Boot
    case Boot => if All(x.wfi) then Idle else Boot
    case Idle =>
      if x.config == 1 && x.start then TmrMode
      else if (x.config == 2 || x.config == 3) && x.start then DmrMode
      else if x.config == 0 && x.start then SingleMode
      else Idle
    case SingleMode =>
      if !x.start && s.single.SingleIdle? then Idle
      else if x.start && x.config == 1 then TmrMode
      else if x.start && (x.config == 2 || x.config == 3) then DmrMode
      else SingleMode
    case TmrMode =>
      if s.tmr == Trio(TmrIdle, TmrIdle, TmrIdle) && !x.start then Idle
      else if TmrHandsOver(s, x) then SingleMode
      else TmrMode
    case DmrMode =>
      if s.dmr == Trio(DmrIdle, DmrIdle, DmrIdle) && !x.start then Idle
      else if DmrHandsOver(s, x) then SingleMode
      else DmrMode
  }

  function NextSingle(s: State, x: In): Single {
    match s.single
    case SingleReset => SingleIdle
    case SingleIdle =>
      if s.safe.SingleMode? && x.start && !x.endRoutine then
        (if TmrHandsOver(s, x) || DmrHandsOver(s, x) then SingleRun else SingleStart)
      else SingleIdle
    case SingleStart => if x.haltAck == x.master then SingleRun else SingleStart
    case SingleRun =>
      if x.endRoutine && All(x.wfi) then SingleIdle
      else if !x.start && None(x.haltAck) && !x.endRoutine then SingleSyncOff
      else if None(x.haltAck) && x.config == 1 then SingleToTmr
      else if None(x.haltAck) && (x.config == 2 || x.config == 3) then SingleToDmr
      else SingleRun
    case SingleToTmr => if s.tmr == Trio(TmrShHalt, TmrShHalt, TmrShHalt) then SingleIdle else SingleToTmr
    case SingleToDmr =>
      var a, b, c := s.dmr.c0.DmrShHalt?, s.dmr.c1.DmrShHalt?, s.dmr.c2.DmrShHalt?;
      if (a && b && !c) || (a && !b && c) || (!a && b && c) then SingleIdle else SingleToDmr
    case SingleSyncOff => if None(x.wfi) then SingleIdle else SingleSyncOff
  }

  function NextTmr(s: State, x: In, i: nat): Tmr
    requires i < 3
  {
    var t, master := s.tmr.At(i), x.master.At(i);
    match t
    case TmrReset => TmrIdle
    case TmrIdle =>
      if s.safe.TmrMode? && x.start && !SwitchEnabled(s) then TmrStart
      else if s.safe.TmrMode? && x.start then
        (if master && x.wfi.At(i) && x.initialSync then TmrShHalt
         else if !master && HaltRequested(s, x) then TmrShHalt
         else TmrIdle)
      else TmrIdle
    case TmrStart => if x.haltAck.At(i) then TmrBoot else TmrStart
    case TmrBoot => if !x.haltAck.At(i) then TmrSync else TmrBoot
    case TmrShHalt =>
      var h := x.haltAck;
      if master && ((h.c0 && h.c1) || (h.c1 && h.c2) || (h.c0 && h.c2)) then TmrWaitSh
      else if !master && h.At(i) then TmrWaitSh
      else TmrShHalt
    case TmrWaitSh => if All(x.wfi) then TmrMsIntrSync else TmrWaitSh
    case TmrMsIntrSync => if All(x.intcAck) then TmrSync else TmrMsIntrSync
    case TmrSync =>
      if All(x.wfi) && x.endRoutine then TmrIdle
      else if All(x.wfi) && x.config != 1 then TmrEndSync
      else if TmrErrorSeen(s, x) then TmrSyncIntc
      else TmrSync
    case TmrEndSync =>
      if x.intcAck.At(i) && master then TmrIdle
      else if x.wfi.At(i) && !master then TmrIdle
      else TmrEndSync
    case TmrSyncIntc => if All(x.intcAck) then TmrSwSync else TmrSyncIntc
    case TmrSwSync => if None(x.intcAck) then TmrSync else TmrSwSync
    case TmrToSingle => TmrIdle
  }

  function NextDmr(s: State, x: In, i: nat): Dmr
    requires i < 3
  {
    var d, master := s.dmr.At(i), x.master.At(i);
    match d
    case DmrReset => DmrIdle
    case DmrIdle =>
      if s.safe.DmrMode? && x.start && !SwitchEnabled(s) && x.dmrMask.At(i) then DmrStart
      else if s.safe.DmrMode? && x.start && SwitchEnabled(s) && x.dmrMask.At(i) then
        (if master && x.wfi.At(i) && x.initialSync then DmrShHalt
         else if !master && HaltRequested(s, x) then DmrShHalt
         else DmrIdle)
      else DmrIdle
    case DmrStart => if x.haltAck.At(i) then DmrBoot else DmrStart
    case DmrBoot => if !x.haltAck.At(i) then DmrSync else DmrBoot
    case DmrShHalt =>
      var others := Trio(x.dmrMask.c0 != x.master.c0, x.dmrMask.c1 != x.master.c1, x.dmrMask.c2 != x.master.c2);
      if master && x.haltAck == others then DmrWaitSh
      else if !master && x.haltAck.At(i) then DmrWaitSh
      else DmrShHalt
    case DmrWaitSh => if All(x.wfi) then DmrMsIntrSync else DmrWaitSh
    case DmrMsIntrSync => if x.intcAck.At(i) then DmrSync else DmrMsIntrSync
    case DmrSync =>
      if All(x.wfi) && x.endRoutine then DmrIdle
      else if All(x.wfi) && (x.config != 2 || x.config != 3) then DmrEndSync
      else if DmrErrorSeen(x) then DmrStop
      else DmrSync
    case DmrStop => if All(x.wfi) then DmrIntcRecovery else DmrStop
    case DmrIntcRecovery => if x.haltAck.At(i) then DmrRecovery else DmrIntcRecovery
    case DmrRecovery => if !x.haltAck.At(i) then DmrSync else DmrRecovery
    case DmrEndSync =>
      if x.intcAck.At(i) && master then DmrIdle
      else if x.wfi.At(i) && !master then DmrIdle
      else DmrEndSync
    case DmrToSingle => DmrIdle
  }

  function SomeInSync(t: Trio<Tmr>): bool {
    t.c0.TmrSync? || t.c1.TmrSync? || t.c2.TmrSync?
  }

  /** The latch, then the sampled error: an edge toggles the latch; outside TMR_SYNC both are cleared. */
  function NextError(s: State, x: In): (bool, bool) {
    if SomeInSync(s.tmr) && x.tmrError && !s.lastError then (!s.latch, true)
    else if s.tmr != Trio(TmrSync, TmrSync, TmrSync) then (false, false)
    else (s.latch, x.tmrError)
  }

  /** The dual machine i asks for the delayed mode. */
  function AsksDelay(s: State, x: In, i: nat): bool
    requires i < 3
  {
    var d := s.dmr.At(i);
    x.config == 3 && (d.DmrStart? || d.DmrBoot? || d.DmrMsIntrSync? || d.DmrSync? || d.DmrIntcRecovery?
                      || d.DmrRecovery?)
  }

  function NextDelay(s: State, x: In): bool {
    if All(x.wfi) && x.config == 0 then false
    else s.delay || AsksDelay(s, x, 0) || AsksDelay(s, x, 1) || AsksDelay(s, x, 2)
  }

  function Step(s: State, x: In): State {
    State(NextSafe(s, x), NextSingle(s, x),
          Trio(NextTmr(s, x, 0), NextTmr(s, x, 1), NextTmr(s, x, 2)),
          Trio(NextDmr(s, x, 0), NextDmr(s, x, 1), NextDmr(s, x, 2)),
          NextError(s, x).0, NextError(s, x).1, NextDelay(s, x))
  }

  // ---- outputs ----

  function Resync(s: State): Trio<bool> {
    Trio(s.tmr.c0.TmrSyncIntc? || s.tmr.c0.TmrSwSync?,
         s.tmr.c1.TmrSyncIntc? || s.tmr.c1.TmrSwSync?,
         s.tmr.c2.TmrSyncIntc? || s.tmr.c2.TmrSwSync?)
  }

  predicate Votes(t: Tmr) {
    !(t.TmrReset? || t.TmrIdle? || t.TmrEndSync? || t.TmrToSingle?)
  }

  function VoterEnabled(s: State): bool {
    Votes(s.tmr.c0) || Votes(s.tmr.c1) || Votes(s.tmr.c2) || s.safe.Boot?
  }

  function IsolatedHarts(s: State): Trio<bool> {
    Trio(s.dmr.c0.DmrStop?, s.dmr.c1.DmrStop?, s.dmr.c2.DmrStop?)
  }

  /** Interrupt_Halt_o: the debug request that sends a hart into the boot ROM or the halt routine. */
  function HaltOutput(s: State, x: In): Trio<bool> {
    Trio(HaltsHart(s, x, 0), HaltsHart(s, x, 1), HaltsHart(s, x, 2))
  }

  function HaltsHart(s: State, x: In, i: nat): bool
    requires i < 3
  {
    var t, d, master := s.tmr.At(i), s.dmr.At(i), x.master.At(i);
    || t.TmrStart? || (t.TmrShHalt? && !master)
    || (s.single.SingleStart? && master)
    || d.DmrStart? || (d.DmrShHalt? && !master) || d.DmrIntcRecovery?
  }

  /** Interrupt_Sync_o. */
  function SyncOutput(s: State, x: In): Trio<bool> {
    Trio(SyncsHart(s, x, 0), SyncsHart(s, x, 1), SyncsHart(s, x, 2))
  }

  function SyncsHart(s: State, x: In, i: nat): bool
    requires i < 3
  {
    var t, d, master := s.tmr.At(i), s.dmr.At(i), x.master.At(i);
    t.TmrMsIntrSync? || (t.TmrEndSync? && master) || d.DmrMsIntrSync? || (d.DmrEndSync? && master)
  }

  predicate Compares(d: Dmr) {
    d.DmrStart? || d.DmrBoot? || d.DmrMsIntrSync? || d.DmrSync? || d.DmrStop? || d.DmrIntcRecovery? || d.DmrRecovery?
  }

  /** Dmr_comparator_enable_o. */
  function ComparatorEnabled(s: State): bool {
    Compares(s.dmr.c0) || Compares(s.dmr.c1) || Compares(s.dmr.c2)
  }

  /** Single_Bus_o: one port serves several harts. */
  function SharedBus(s: State): bool {
    VoterEnabled(s) || ComparatorEnabled(s)
  }

  /** Dmr_config_o. */
  function PairConfig(s: State): Trio<bool> {
    Trio(!s.dmr.c0.DmrIdle?, !s.dmr.c1.DmrIdle?, !s.dmr.c2.DmrIdle?)
  }

  /** Delayed_o. */
  function DelayOutput(s: State, x: In): bool {
    s.delay || AsksDelay(s, x, 0) || AsksDelay(s, x, 1) || AsksDelay(s, x, 2)
  }

  predicate Recovers(d: Dmr) {
    d.DmrIntcRecovery? || d.DmrRecovery?
  }

  /** DMR_Rec_o: the boot ROM restores the stack when it is set. */
  function RecoveryFlag(s: State): bool {
    Recovers(s.dmr.c0) || Recovers(s.dmr.c1) || Recovers(s.dmr.c2)
  }

  predicate Boots(t: Tmr, d: Dmr) {
    t.TmrStart? || t.TmrBoot? || d.DmrStart? || d.DmrBoot?
  }

  /** Start_Boot_o. */
  function BootOutput(s: State): bool {
    s.safe.SingleMode? || Boots(s.tmr.c0, s.dmr.c0) || Boots(s.tmr.c1, s.dmr.c1) || Boots(s.tmr.c2, s.dmr.c2)
  }

  // ---- the registers and their clock ----

  class Fsm {
    var safe: Safe
    var single: Single
    const tmr: array<Tmr>
    const dmr: array<Dmr>
    var errorFf0: bool
    var errorFf1: bool
    var delayFf: bool

    ghost predicate Valid() {
      tmr.Length == 3 && dmr.Length == 3
    }

    ghost function Contents(): State
      requires Valid()
      reads this, tmr, dmr
    {
      State(safe, single, Trio(tmr[0], tmr[1], tmr[2]), Trio(dmr[0], dmr[1], dmr[2]), errorFf1, errorFf0, delayFf)
    }

    constructor ()
      ensures Valid() && Contents() == AFTER_RESET
    {
      safe, single := Reset, SingleReset;
      tmr, dmr := new Tmr[3](_ => TmrReset), new Dmr[3](_ => DmrReset);
      errorFf0, errorFf1, delayFf := false, false, false;
    }

    method ClockMachines(now: State, x: In)
      requires Valid()
      modifies tmr, dmr
      ensures tmr[0] == NextTmr(now, x, 0) && tmr[1] == NextTmr(now, x, 1) && tmr[2] == NextTmr(now, x, 2)
      ensures dmr[0] == NextDmr(now, x, 0) && dmr[1] == NextDmr(now, x, 1) && dmr[2] == NextDmr(now, x, 2)
    {
      hide NextTmr, NextDmr;
      for i := 0 to 3
        invariant forall k :: 0 <= k < i ==> tmr[k] == NextTmr(now, x, k) && dmr[k] == NextDmr(now, x, k)
      {
        tmr[i] := NextTmr(now, x, i);
        dmr[i] := NextDmr(now, x, i);
      }
    }

    method ClockError(now: State, x: In)
      requires now.latch == errorFf1 && now.lastError == errorFf0
      modifies this`errorFf0, this`errorFf1
      ensures (errorFf1, errorFf0) == NextError(now, x)
    {
      errorFf0 := x.tmrError;
      if SomeInSync(now.tmr) && x.tmrError && !now.lastError {
        errorFf1 := !errorFf1;
      } else if !now.tmr.c0.TmrSync? || !now.tmr.c1.TmrSync? || !now.tmr.c2.TmrSync? {
        errorFf0, errorFf1 := false, false;
      }
    }

    method Clock(x: In)
      requires Valid()
      modifies this, tmr, dmr
      ensures Contents() == Step(old(Contents()), x)
    {
      hide NextSafe, NextSingle, NextTmr, NextDmr, NextError, AsksDelay;
      var now := State(safe, single, Trio(tmr[0], tmr[1], tmr[2]), Trio(dmr[0], dmr[1], dmr[2]), errorFf1, errorFf0,
                       delayFf);
      ClockMachines(now, x);
      ClockError(now, x);
      safe, single := NextSafe(now, x), NextSingle(now, x);
      if All(x.wfi) && x.config == 0 {
        delayFf := false;
      } else if AsksDelay(now, x, 0) || AsksDelay(now, x, 1) || AsksDelay(now, x, 2) {
        delayFf := true;
      }
    }
  }

  // ---- runs ----

  function After(s: State, run: seq<In>): State {
    if run == [] then s else Step(After(s, run[..|run| - 1]), run[|run| - 1])
  }

  predicate Together(s: State, t: Tmr) {
    s.tmr == Trio(t, t, t)
  }

  /** The states in which the three machines move in step whatever the inputs. */
  predicate InStep(s: State) {
    || Together(s, TmrWaitSh) || Together(s, TmrMsIntrSync) || Together(s, TmrSync)
    || Together(s, TmrSyncIntc) || Together(s, TmrSwSync)
  }

  predicate LeftTogether(s: State) {
    Together(s, TmrIdle) || Together(s, TmrEndSync)
  }

  lemma StepInStep(s: State, x: In)
    requires InStep(s)
    ensures InStep(Step(s, x)) || LeftTogether(Step(s, x))
    ensures VoterEnabled(s)
  {
    hide NextSafe, NextSingle, NextDmr, NextError, NextDelay, TmrErrorSeen;
    assert s.tmr.At(0) == s.tmr.At(1) == s.tmr.At(2);
  }

  /** Every prefix of the run ends in step. */
  ghost predicate AlwaysInStep(s: State, run: seq<In>) {
    forall k :: 0 <= k <= |run| ==> InStep(After(s, run[..k]))
  }

  /** Through any number of recoveries the machines stay in step until, in one cycle, all leave the same way. */
  lemma {:induction false} PhaseAgreement(s: State, run: seq<In>)
    requires InStep(s)
    ensures AlwaysInStep(s, run)
         || exists k :: 0 < k <= |run| && AlwaysInStep(s, run[..k - 1]) && LeftTogether(After(s, run[..k]))
    decreases |run|
  {
    hide InStep, LeftTogether, Step;
    if run == [] {
      assert run[..0] == [];
    } else {
      var n := |run| - 1;
      PhaseAgreement(s, run[..n]);
      if AlwaysInStep(s, run[..n]) {
        assert run[..n][..n] == run[..n] && run[..n + 1] == run;
        StepInStep(After(s, run[..n]), run[n]);
        if InStep(After(s, run)) {
          forall k | 0 <= k <= |run|
            ensures InStep(After(s, run[..k]))
          {
            assert k <= n ==> run[..n][..k] == run[..k];
          }
        } else {
          assert run[..|run| - 1] == run[..n] && LeftTogether(After(s, run[..|run|]));
        }
      } else {
        var k :| 0 < k <= n && AlwaysInStep(s, run[..n][..k - 1]) && LeftTogether(After(s, run[..n][..k]));
        assert run[..n][..k - 1] == run[..k - 1] && run[..n][..k] == run[..k];
      }
    }
  }

  // ---- the resync interrupt ----

  /** Every hart has acknowledged, and later every hart has released. */
  ghost predicate Served(run: seq<In>) {
    exists i, j :: 0 <= i < j < |run| && All(run[i].intcAck) && None(run[j].intcAck)
  }

  ghost predicate Acknowledged(run: seq<In>) {
    exists i :: 0 <= i < |run| && All(run[i].intcAck)
  }

  lemma ServedLater(run: seq<In>)
    requires run != []
    ensures Served(run) <==>
              Served(run[..|run| - 1]) || (Acknowledged(run[..|run| - 1]) && None(run[|run| - 1].intcAck))
    ensures Acknowledged(run) <==> Acknowledged(run[..|run| - 1]) || All(run[|run| - 1].intcAck)
  {
    var before, n := run[..|run| - 1], |run| - 1;
    if i, j :| 0 <= i < j < |before| && All(before[i].intcAck) && None(before[j].intcAck) {
      assert All(run[i].intcAck) && None(run[j].intcAck);
    }
    if i :| 0 <= i < |before| && All(before[i].intcAck) {
      assert All(run[i].intcAck);
    }
    if i, j :| 0 <= i < j < |run| && All(run[i].intcAck) && None(run[j].intcAck) {
      assert All(before[i].intcAck);
      assert j < n ==> None(before[j].intcAck);
    }
    if i :| 0 <= i < |run| && All(run[i].intcAck) {
      assert i < n ==> All(before[i].intcAck);
    }
  }

  lemma StepResync(s: State, x: In)
    ensures Together(s, TmrSyncIntc) ==> Together(Step(s, x), if All(x.intcAck) then TmrSwSync else TmrSyncIntc)
    ensures Together(s, TmrSwSync) ==> Together(Step(s, x), if None(x.intcAck) then TmrSync else TmrSwSync)
  {
    hide NextSafe, NextSingle, NextDmr, NextError, NextDelay;
  }

  lemma {:induction false} ResyncPhases(s: State, run: seq<In>)
    requires Together(s, TmrSyncIntc) && (run != [] ==> !Served(run[..|run| - 1]))
    ensures Together(After(s, run),
              if Served(run) then TmrSync else if Acknowledged(run) then TmrSwSync else TmrSyncIntc)
    decreases |run|
  {
    hide Step, Served, Acknowledged, Together;
    if run == [] {
      assert !Served(run) && !Acknowledged(run) by { NothingServed(run); }
    } else {
      var n := |run| - 1;
      ServedLater(run);
      if n > 0 {
        ServedLater(run[..n]);
      }
      ResyncPhases(s, run[..n]);
      StepResync(After(s, run[..n]), run[n]);
    }
  }

  lemma NothingServed(run: seq<In>)
    requires run == []
    ensures !Served(run) && !Acknowledged(run)
  {
  }

  /**
   * Once recovery starts, all three harts are interrupted in every cycle until each has
   * acknowledged and all have released; in the cycle after that, none is.
   */
  lemma ResyncIsHeld(s: State, run: seq<In>)
    requires Together(s, TmrSyncIntc) && (run != [] ==> !Served(run[..|run| - 1]))
    ensures Resync(After(s, run)) == if Served(run) then NOBODY else UNANIMOUS
    ensures Served(run) <==> Together(After(s, run), TmrSync)
  {
    hide Step, Served, Acknowledged, After;
    ResyncPhases(s, run);
  }

  // ---- the error latch ----

  /** A voted error was seen in one of the cycles since the machines last entered TMR_SYNC. */
  function SeenInSync(s: State, run: seq<In>): bool {
    run != [] && var before, x := run[..|run| - 1], run[|run| - 1];
    Together(After(s, before), TmrSync) && (SeenInSync(s, before) || x.tmrError)
  }

  /** The voted error of the cycle before this one, if the machines were in TMR_SYNC already. */
  function ErrorBefore(s: State, run: seq<In>): bool {
    run != [] && Together(After(s, run[..|run| - 1]), TmrSync) && run[|run| - 1].tmrError
  }

  predicate Agreeing(s: State) {
    s.tmr.c0 == s.tmr.c1 == s.tmr.c2
  }

  /** The three machines agree after every prefix of the run. */
  ghost predicate AlwaysAgreeing(s: State, run: seq<In>) {
    forall k :: 0 <= k <= |run| ==> Agreeing(After(s, run[..k]))
  }

  lemma StepLatch(s: State, x: In)
    requires Agreeing(s) && (Together(s, TmrSync) && s.lastError ==> s.latch)
    ensures !Together(s, TmrSync) ==> !Step(s, x).latch && !Step(s, x).lastError
    ensures Together(s, TmrSync) && Together(Step(s, x), TmrSync) ==>
              Step(s, x).latch == (s.latch || x.tmrError) && Step(s, x).lastError == x.tmrError
  {
    hide NextSafe, NextSingle, NextDmr, NextDelay;
  }

  lemma AgreeingBefore(s: State, run: seq<In>)
    requires AlwaysAgreeing(s, run) && run != []
    ensures AlwaysAgreeing(s, run[..|run| - 1]) && Agreeing(After(s, run[..|run| - 1]))
  {
    hide Agreeing, After;
    var before := run[..|run| - 1];
    forall k | 0 <= k <= |before|
      ensures Agreeing(After(s, before[..k]))
    {
      assert before[..k] == run[..k];
    }
    assert before[..|before|] == before;
  }

  /** In TMR_SYNC the latch holds exactly whether an error was seen since that state was entered. */
  lemma {:induction false} LatchIsExact(s: State, run: seq<In>)
    requires !Together(s, TmrSync) && AlwaysAgreeing(s, run) && Together(After(s, run), TmrSync)
    ensures After(s, run).latch == SeenInSync(s, run)
    ensures After(s, run).lastError == ErrorBefore(s, run)
    decreases |run|
  {
    hide Step, Agreeing, AlwaysAgreeing;
    var n := |run| - 1;
    var before := run[..n];
    AgreeingBefore(s, run);
    if Together(After(s, before), TmrSync) {
      LatchIsExact(s, before);
      SeenCovers(s, before);
    }
    StepLatch(After(s, before), run[n]);
  }

  lemma SeenCovers(s: State, run: seq<In>)
    ensures ErrorBefore(s, run) ==> SeenInSync(s, run)
  {
  }

  /**
   * How the machines leave TMR_SYNC, for every history in which they agree: for good when all harts
   * sleep, else for recovery exactly when an error is or was seen and no critical section defers it,
   * or, inside a critical section, on a further rising error after one already seen.
   */
  lemma LeavesSyncExactly(s: State, run: seq<In>, x: In)
    requires !Together(s, TmrSync) && AlwaysAgreeing(s, run) && Together(After(s, run), TmrSync)
    ensures Together(After(s, run + [x]),
              if All(x.wfi) && x.endRoutine then TmrIdle
              else if All(x.wfi) && x.config != 1 then TmrEndSync
              else if !x.critical && (x.tmrError || SeenInSync(s, run)) then TmrSyncIntc
              else if x.critical && x.tmrError && !ErrorBefore(s, run) && SeenInSync(s, run) then TmrSyncIntc
              else TmrSync)
  {
    hide NextSafe, NextSingle, NextDmr, NextDelay, NextError, AlwaysAgreeing;
    LatchIsExact(s, run);
    assert (run + [x])[..|run|] == run;
  }

  // ---- no recovery without an error, agreement or not ----

  /** In cycle k of the run an error was seen while some machine was in TMR_SYNC. */
  predicate ErrorAt(s: State, run: seq<In>, k: nat)
    requires k < |run|
  {
    run[k].tmrError && SomeInSync(After(s, run[..k]).tmr)
  }

  /** From after cycle k until now all three machines have been in TMR_SYNC. */
  ghost predicate SyncSince(s: State, run: seq<In>, k: nat) {
    forall j :: k < j < |run| ==> Together(After(s, run[..j]), TmrSync)
  }

  /** An error that no recovery has handled yet: no machine has left TMR_SYNC since. */
  ghost predicate ErrorPending(s: State, run: seq<In>) {
    exists k :: 0 <= k < |run| && ErrorAt(s, run, k) && SyncSince(s, run, k)
  }

  lemma LatchKeeps(s: State, x: In)
    ensures Step(s, x).latch ==> (s.latch && Together(s, TmrSync)) || (!s.latch && x.tmrError && SomeInSync(s.tmr))
  {
    hide NextSafe, NextSingle, NextTmr, NextDmr, NextDelay;
  }

  lemma {:induction false} LatchNeedsError(s: State, run: seq<In>)
    requires !s.latch && After(s, run).latch
    ensures ErrorPending(s, run)
    decreases |run|
  {
    hide Step, SomeInSync, Together;
    var n := |run| - 1;
    var before := run[..n];
    LatchKeeps(After(s, before), run[n]);
    if After(s, before).latch {
      LatchNeedsError(s, before);
      var k :| 0 <= k < n && ErrorAt(s, before, k) && SyncSince(s, before, k);
      assert before[..k] == run[..k];
      assert ErrorAt(s, run, k);
      forall j | k < j < |run|
        ensures Together(After(s, run[..j]), TmrSync)
      {
        assert j < n ==> before[..j] == run[..j];
      }
      assert SyncSince(s, run, k);
    } else {
      assert ErrorAt(s, run, n) && SyncSince(s, run, n);
    }
  }

  /**
   * For every run and every one of the three machines, agreeing or not: it enters TMR_SYNCINTC only from
   * TMR_SYNC, with an error in this cycle or one seen in TMR_SYNC that no recovery has handled yet.
   */
  lemma NoRecoveryWithoutError(s: State, run: seq<In>, x: In, i: nat)
    requires i < 3 && !s.latch
    requires After(s, run).tmr.At(i) != TmrSyncIntc && After(s, run + [x]).tmr.At(i) == TmrSyncIntc
    ensures After(s, run).tmr.At(i) == TmrSync && (x.tmrError || ErrorPending(s, run))
  {
    hide NextSafe, NextSingle, NextDmr, NextDelay, NextError, ErrorPending;
    assert (run + [x])[..|run|] == run;
    if After(s, run).latch {
      LatchNeedsError(s, run);
    }
  }

  // ---- where agreement ends ----

  predicate Equal3(a: bool, b: bool, c: bool) {
    a == b && b == c
  }

  /** Hart i may enter triple mode from single mode. */
  predicate MayJoin(s: State, x: In, i: nat)
    requires i < 3
  {
    if x.master.At(i) then x.wfi.At(i) && x.initialSync else HaltRequested(s, x)
  }

  predicate MayProceed(x: In, i: nat)
    requires i < 3
  {
    var h := x.haltAck;
    if x.master.At(i) then (h.c0 && h.c1) || (h.c1 && h.c2) || (h.c0 && h.c2) else h.At(i)
  }

  predicate MayFinish(x: In, i: nat)
    requires i < 3
  {
    if x.master.At(i) then x.intcAck.At(i) else x.wfi.At(i)
  }

  /** The harts give their machines the same answer, in the states where each machine looks at its own hart. */
  predicate HartsAlike(s: State, x: In) {
    match s.tmr.c0
    case TmrIdle =>
      s.safe.TmrMode? && x.start && SwitchEnabled(s) ==> Equal3(MayJoin(s, x, 0), MayJoin(s, x, 1), MayJoin(s, x, 2))
    case TmrStart => Equal3(x.haltAck.c0, x.haltAck.c1, x.haltAck.c2)
    case TmrBoot => Equal3(x.haltAck.c0, x.haltAck.c1, x.haltAck.c2)
    case TmrShHalt => Equal3(MayProceed(x, 0), MayProceed(x, 1), MayProceed(x, 2))
    case TmrEndSync => Equal3(MayFinish(x, 0), MayFinish(x, 1), MayFinish(x, 2))
    case _ => true
  }

  lemma StepAgrees(s: State, x: In)
    requires Agreeing(s)
    ensures Agreeing(Step(s, x)) <==> HartsAlike(s, x)
  {
    hide NextSafe, NextSingle, NextDmr, NextDelay, NextError, HaltRequested, TmrErrorSeen, SwitchEnabled;
  }

  /** From agreement the machines agree over a whole run exactly when the harts answer alike all along. */
  lemma {:induction false} AgreementIff(s: State, run: seq<In>)
    requires Agreeing(s)
    ensures AlwaysAgreeing(s, run) <==> AlwaysAlike(s, run)
    decreases |run|
  {
    hide Agreeing, HartsAlike, Step;
    if run == [] {
      assert run[..0] == [];
    } else {
      hide AlwaysAgreeing, AlwaysAlike;
      var n := |run| - 1;
      var before := run[..n];
      AgreementIff(s, before);
      AlwaysExtends(s, run);
      AlikeExtends(s, run);
      if AlwaysAgreeing(s, before) {
        AlwaysLast(s, before);
        StepAgrees(After(s, before), run[n]);
      }
    }
  }

  /** In every cycle of the run the harts give alike answers. */
  ghost predicate AlwaysAlike(s: State, run: seq<In>) {
    forall k :: 0 <= k < |run| ==> HartsAlike(After(s, run[..k]), run[k])
  }

  lemma AlikeExtends(s: State, run: seq<In>)
    requires run != []
    ensures var n := |run| - 1;
            AlwaysAlike(s, run) <==> AlwaysAlike(s, run[..n]) && HartsAlike(After(s, run[..n]), run[n])
  {
    hide HartsAlike, After;
    var n := |run| - 1;
    var before := run[..n];
    if AlwaysAlike(s, run) {
      forall k | 0 <= k < n
        ensures HartsAlike(After(s, before[..k]), before[k])
      {
        assert before[..k] == run[..k];
      }
    }
    if AlwaysAlike(s, before) && HartsAlike(After(s, before), run[n]) {
      forall k | 0 <= k < |run|
        ensures HartsAlike(After(s, run[..k]), run[k])
      {
        if k < n { assert before[..k] == run[..k] && before[k] == run[k]; }
      }
    }
  }

  lemma AlwaysLast(s: State, run: seq<In>)
    requires AlwaysAgreeing(s, run)
    ensures Agreeing(After(s, run))
  {
    hide Agreeing, After;
    assert run[..|run|] == run;
  }

  lemma AlwaysExtends(s: State, run: seq<In>)
    requires run != []
    ensures AlwaysAgreeing(s, run) <==> AlwaysAgreeing(s, run[..|run| - 1]) && Agreeing(After(s, run))
  {
    hide Agreeing, After;
    var before := run[..|run| - 1];
    if AlwaysAgreeing(s, run) {
      assert run[..|run|] == run;
      assert Agreeing(After(s, run[..|run|]));
      forall k | 0 <= k <= |before|
        ensures Agreeing(After(s, before[..k]))
      {
        assert before[..k] == run[..k];
      }
    }
    if AlwaysAgreeing(s, before) && Agreeing(After(s, run)) {
      forall k | 0 <= k <= |run|
        ensures Agreeing(After(s, run[..k]))
      {
        if k == |run| { assert run[..k] == run; } else { assert before[..k] == run[..k]; }
      }
    }
  }

  /** What holds while triple mode is the only one configured. */
  predicate TripleOnly(s: State) {
    && Agreeing(s) && !s.safe.SingleMode? && !s.safe.DmrMode? && (s.single.SingleReset? || s.single.SingleIdle?)
    && !s.tmr.c0.TmrShHalt? && !s.tmr.c0.TmrEndSync? && !s.tmr.c0.TmrToSingle?
  }

  lemma StepTripleOnly(s: State, x: In)
    requires TripleOnly(s) && x.config == 1 && Equal3(x.haltAck.c0, x.haltAck.c1, x.haltAck.c2)
    ensures TripleOnly(Step(s, x))
  {
    hide NextDmr, NextDelay, NextError, TmrErrorSeen;
    StepAgrees(s, x);
  }

  /**
   * The boot path: from reset, with triple mode configured throughout and harts that acknowledge halts
   * alike, the machines agree in every cycle of every run, so the latch is exact from the first entry on.
   */
  lemma {:induction false} BootRunsAgree(run: seq<In>)
    requires forall k :: 0 <= k < |run| ==>
               run[k].config == 1 && Equal3(run[k].haltAck.c0, run[k].haltAck.c1, run[k].haltAck.c2)
    ensures AlwaysAgreeing(AFTER_RESET, run) && TripleOnly(After(AFTER_RESET, run))
    decreases |run|
  {
    hide Step;
    if run == [] {
      assert run[..0] == [];
    } else {
      BootRunsAgree(run[..|run| - 1]);
      StepTripleOnly(After(AFTER_RESET, run[..|run| - 1]), run[|run| - 1]);
      AlwaysExtends(AFTER_RESET, run);
    }
  }

  /** An input with everything at rest in triple configuration. */
  function Quiet(haltAck: Trio<bool>, wfi: Trio<bool>, tmrError: bool): In {
    In(NOBODY, true, 1, false, haltAck, wfi, NOBODY, Trio(true, false, false), tmrError, NOBODY, true, false)
  }

  function Booting(safe: Safe, t: Trio<Tmr>, latch: bool): State {
    State(safe, SingleIdle, t, Trio(DmrIdle, DmrIdle, DmrIdle), latch, latch, false)
  }

  const REST := Quiet(NOBODY, NOBODY, false)

  lemma BootSteps()
    ensures Step(AFTER_RESET, REST) == Booting(Boot, Trio(TmrIdle, TmrIdle, TmrIdle), false)
    ensures Step(Booting(Boot, Trio(TmrIdle, TmrIdle, TmrIdle), false), Quiet(NOBODY, UNANIMOUS, false))
         == Booting(Idle, Trio(TmrIdle, TmrIdle, TmrIdle), false)
    ensures Step(Booting(Idle, Trio(TmrIdle, TmrIdle, TmrIdle), false), REST)
         == Booting(TmrMode, Trio(TmrIdle, TmrIdle, TmrIdle), false)
    ensures Step(Booting(TmrMode, Trio(TmrIdle, TmrIdle, TmrIdle), false), REST)
         == Booting(TmrMode, Trio(TmrStart, TmrStart, TmrStart), false)
    ensures Step(Booting(TmrMode, Trio(TmrStart, TmrStart, TmrStart), false), Quiet(UNANIMOUS, NOBODY, false))
         == Booting(TmrMode, Trio(TmrBoot, TmrBoot, TmrBoot), false)
  {
  }

  lemma ApartSteps()
    ensures Step(Booting(TmrMode, Trio(TmrBoot, TmrBoot, TmrBoot), false),
                 Quiet(Trio(false, true, true), NOBODY, false))
         == Booting(TmrMode, Trio(TmrSync, TmrBoot, TmrBoot), false)
    ensures Step(Booting(TmrMode, Trio(TmrSync, TmrBoot, TmrBoot), false), Quiet(Trio(false, true, true), NOBODY, true))
         == Booting(TmrMode, Trio(TmrSync, TmrBoot, TmrBoot), true)
    ensures Step(Booting(TmrMode, Trio(TmrSync, TmrBoot, TmrBoot), true), REST)
         == Booting(TmrMode, Trio(TmrSync, TmrSync, TmrSync), false)
    ensures Step(Booting(TmrMode, Trio(TmrSync, TmrSync, TmrSync), false), REST.(critical := false))
         == Booting(TmrMode, Trio(TmrSync, TmrSync, TmrSync), false)
  {
  }

  lemma AfterOneMore(s: State, run: seq<In>, x: In)
    ensures After(s, run + [x]) == Step(After(s, run), x)
  {
    assert (run + [x])[..|run|] == run;
  }

  /**
   * The latch is not exact while the machines are apart: one hart leaves the boot routine a cycle
   * early, an error in that cycle falls into a critical section, and nobody remembers it.
   */
  lemma SplitForgetsError()
    ensures var boot := [REST] + [Quiet(NOBODY, UNANIMOUS, false)] + [REST] + [REST]
                        + [Quiet(UNANIMOUS, NOBODY, false)];
            var apart := Quiet(Trio(false, true, true), NOBODY, false);
            var run := boot + [apart] + [apart.(tmrError := true)] + [REST];
            && After(AFTER_RESET, boot + [apart]).tmr.c0.TmrSync?
            && Together(After(AFTER_RESET, run), TmrSync) && !After(AFTER_RESET, run).latch
            && Together(After(AFTER_RESET, run + [REST.(critical := false)]), TmrSync)
  {
    hide Step;
    BootSteps();
    ApartSteps();
    var a := [] + [REST];
    var b := a + [Quiet(NOBODY, UNANIMOUS, false)];
    var c := b + [REST];
    var d := c + [REST];
    var e := d + [Quiet(UNANIMOUS, NOBODY, false)];
    var apart := Quiet(Trio(false, true, true), NOBODY, false);
    var f := e + [apart];
    var g := f + [apart.(tmrError := true)];
    AfterOneMore(AFTER_RESET, [], REST);
    AfterOneMore(AFTER_RESET, a, Quiet(NOBODY, UNANIMOUS, false));
    AfterOneMore(AFTER_RESET, b, REST);
    AfterOneMore(AFTER_RESET, c, REST);
    AfterOneMore(AFTER_RESET, d, Quiet(UNANIMOUS, NOBODY, false));
    AfterOneMore(AFTER_RESET, e, apart);
    AfterOneMore(AFTER_RESET, f, apart.(tmrError := true));
    AfterOneMore(AFTER_RESET, g, REST);
    AfterOneMore(AFTER_RESET, g + [REST], REST.(critical := false));
    assert a == [REST];
  }

  // ---- dual mode ----

  /** The masked harts' machines are in d, the other one is not in use. */
  predicate DualTogether(s: State, mask: Trio<bool>, d: Dmr) {
    s.dmr == Trio(if mask.c0 then d else DmrIdle, if mask.c1 then d else DmrIdle, if mask.c2 then d else DmrIdle)
  }

  /**
   * The masked machines leave DMR_SYNC together. The configuration does not matter: with all
   * harts asleep they end dual mode even when dual mode is still configured. A compared error
   * isolates exactly the masked harts.
   */
  lemma LeavesDualSync(s: State, mask: Trio<bool>, x: In)
    requires DualTogether(s, mask, DmrSync) && Masks(mask, x)
    ensures DualTogether(Step(s, x), mask,
              if All(x.wfi) then (if x.endRoutine then DmrIdle else DmrEndSync)
              else if DmrErrorSeen(x) then DmrStop else DmrSync)
    ensures !All(x.wfi) && DmrErrorSeen(x) ==> IsolatedHarts(Step(s, x)) == mask
  {
    hide NextSafe, NextSingle, NextTmr, NextDelay, NextError;
  }

  ghost predicate ComparedError(run: seq<In>) {
    exists k :: 0 <= k < |run| && DmrErrorSeen(run[k])
  }

  lemma ComparedErrorLater(run: seq<In>)
    requires run != []
    ensures ComparedError(run) <==> ComparedError(run[..|run| - 1]) || DmrErrorSeen(run[|run| - 1])
  {
    var before, n := run[..|run| - 1], |run| - 1;
    if k :| 0 <= k < n && DmrErrorSeen(before[k]) {
      assert DmrErrorSeen(run[k]);
    }
    if k :| 0 <= k < |run| && DmrErrorSeen(run[k]) {
      assert k < n ==> DmrErrorSeen(before[k]);
    }
  }

  lemma StepWhileAwake(s: State, mask: Trio<bool>, x: In)
    requires Masks(mask, x) && !All(x.wfi)
    ensures DualTogether(s, mask, DmrSync)
        ==> DualTogether(Step(s, x), mask, if DmrErrorSeen(x) then DmrStop else DmrSync)
    ensures DualTogether(s, mask, DmrStop) ==> DualTogether(Step(s, x), mask, DmrStop)
  {
    hide Step, DmrErrorSeen, Masks, All, DualTogether;
    if DualTogether(s, mask, DmrSync) { LeavesDualSync(s, mask, x); }
    if DualTogether(s, mask, DmrStop) { StepStopped(s, mask, x); }
  }

  /**
   * As long as some hart is awake, dual mode runs until the first compared error; from the cycle after it
   * exactly the masked harts are isolated, together and for good.
   */
  lemma {:induction false} DualStopsOnFirstError(s: State, mask: Trio<bool>, run: seq<In>)
    requires DualTogether(s, mask, DmrSync)
    requires forall k :: 0 <= k < |run| ==> Masks(mask, run[k]) && !All(run[k].wfi)
    ensures DualTogether(After(s, run), mask, if ComparedError(run) then DmrStop else DmrSync)
    ensures IsolatedHarts(After(s, run)) == if ComparedError(run) then mask else NOBODY
    decreases |run|
  {
    hide Step, DmrErrorSeen, Masks, All;
    if run == [] {
      assert !ComparedError(run);
    } else {
      var n := |run| - 1;
      ComparedErrorLater(run);
      DualStopsOnFirstError(s, mask, run[..n]);
      StepWhileAwake(After(s, run[..n]), mask, run[n]);
    }
  }

  /** The isolation of the masked harts lasts until every hart sleeps, and not a cycle longer. */
  lemma {:induction false} IsolationHolds(s: State, mask: Trio<bool>, run: seq<In>)
    requires DualTogether(s, mask, DmrStop)
    requires forall k :: 0 <= k < |run| ==> Masks(mask, run[k])
    requires forall k :: 0 <= k < |run| - 1 ==> !All(run[k].wfi)
    ensures var done := run != [] && All(run[|run| - 1].wfi);
            && DualTogether(After(s, run), mask, if done then DmrIntcRecovery else DmrStop)
            && IsolatedHarts(After(s, run)) == (if done then NOBODY else mask)
    decreases |run|
  {
    hide Step, Masks, All;
    if run != [] {
      var n := |run| - 1;
      IsolationHolds(s, mask, run[..n]);
      StepStopped(After(s, run[..n]), mask, run[n]);
    }
  }

  /** The harts outside the pair are masked out. */
  predicate Masks(mask: Trio<bool>, x: In) {
    (x.dmrMask.c0 ==> mask.c0) && (x.dmrMask.c1 ==> mask.c1) && (x.dmrMask.c2 ==> mask.c2)
  }

  lemma StepStopped(s: State, mask: Trio<bool>, x: In)
    requires DualTogether(s, mask, DmrStop) && Masks(mask, x)
    ensures DualTogether(Step(s, x), mask, if All(x.wfi) then DmrIntcRecovery else DmrStop)
  {
    hide NextSafe, NextSingle, NextTmr, NextDelay, NextError;
  }
}
