/** Delayed dual lockstep: one core leads, the other repeats it N cycles later and is compared with it. */
module Lockstep {
  import opened Obi
  import opened Elastic
  import opened DmrComparator

  // ---- lockstep_reg ----

  /** The part of a response that is delayed for the trailing core. */
  datatype Answer = Answer(rvalid: bool, rdata: bv32) {
    function With(gnt: bool): Resp {
      Resp(gnt, rvalid, rdata)
    }
  }

  /** Register contents; index 0 is next to the leading core, the last index faces the bus or the trailing core. */
  datatype Delay = Delay(instr: seq<Req>, data: seq<Req>, instrResp: seq<Answer>, dataResp: seq<Answer>) {
    predicate Deep(n: nat) {
      n > 0 && |instr| == n && |data| == n && |instrResp| == n && |dataResp| == n
    }
  }

  function Last<T>(s: seq<T>): T
    requires s != []
  {
    s[|s| - 1]
  }

  function Shift<T>(s: seq<T>, x: T): seq<T>
    requires s != []
  {
    [x] + s[..|s| - 1]
  }

  function Clocked(d: Delay, instr: Req, data: Req, instrResp: Resp, dataResp: Resp, enable: bool): Delay
    requires d.instrResp != [] && d.dataResp != []
  {
    Delay(StepChain(instr, d.instr, instrResp.gnt, !enable),
          StepChain(data, d.data, dataResp.gnt, !enable),
          if enable then Shift(d.instrResp, Answer(instrResp.rvalid, instrResp.rdata)) else d.instrResp,
          if enable then Shift(d.dataResp, Answer(dataResp.rvalid, dataResp.rdata)) else d.dataResp)
  }

  /** A data request without a request must not show a write enable to the comparator. */
  function TrailingData(r: Req): Req {
    r.(we := r.we && r.req)
  }

  method ShiftIn<T>(a: array<T>, x: T)
    requires a.Length > 0
    modifies a
    ensures a[..] == Shift(old(a[..]), x)
  {
    var j := a.Length - 1;
    while j > 0
      invariant 0 <= j < a.Length
      invariant forall k :: 0 <= k <= j ==> a[k] == old(a[k])
      invariant forall k :: j < k < a.Length ==> a[k] == old(a[k - 1])
    {
      a[j] := a[j - 1];
      j := j - 1;
    }
    a[0] := x;
  }

  class LockstepReg {
    const instrPipe: PipelinedDelay
    const dataPipe: PipelinedDelay
    const instrResp: array<Answer>
    const dataResp: array<Answer>

    ghost predicate Valid() {
      && instrPipe.Valid() && dataPipe.Valid()
      && instrResp.Length > 0 && dataResp.Length > 0 && instrResp != dataResp
      && forall i, j :: 0 <= i < |instrPipe.stages| && 0 <= j < |dataPipe.stages|
          ==> instrPipe.stages[i] != dataPipe.stages[j]
    }

    ghost function Contents(): Delay
      reads instrPipe.stages, dataPipe.stages, instrResp, dataResp
    {
      Delay(instrPipe.Contents(), dataPipe.Contents(), instrResp[..], dataResp[..])
    }

    constructor (nCycles: nat)
      requires nCycles > 0
      ensures Valid() && Contents().Deep(nCycles)
      ensures forall i :: 0 <= i < nCycles ==> !Contents().instrResp[i].rvalid && !Contents().dataResp[i].rvalid
    {
      hide PipelinedDelay.Contents, SngReg.Contents, InFlight;
      instrPipe := new PipelinedDelay(nCycles);
      dataPipe := new PipelinedDelay(nCycles);
      instrResp := new Answer[nCycles](_ => Answer(false, 0));
      dataResp := new Answer[nCycles](_ => Answer(false, 0));
    }

    method ClockPipes(instr: Req, data: Req, instrGntIn: bool, dataGntIn: bool, clear: bool)
      returns (instrGnt: bool, dataGnt: bool)
      requires Valid()
      modifies instrPipe.stages, dataPipe.stages
      ensures instrPipe.Contents() == StepChain(instr, old(instrPipe.Contents()), instrGntIn, clear)
      ensures dataPipe.Contents() == StepChain(data, old(dataPipe.Contents()), dataGntIn, clear)
      ensures instrGnt == ChainGrant(instr, old(instrPipe.Contents()), instrGntIn)
      ensures dataGnt == ChainGrant(data, old(dataPipe.Contents()), dataGntIn)
    {
      hide PipelinedDelay.Contents, SngReg.Contents, StepChain, ChainGrant;
      ghost var was := dataPipe.Contents();
      instrGnt := instrPipe.Clock(instr, instrGntIn, clear);
      forall k | 0 <= k < |was|
        ensures dataPipe.stages[k].Contents() == was[k]
      {
        assert dataPipe.stages[k] !in instrPipe.stages;
      }
      assert dataPipe.Contents() == was;
      ghost var done := instrPipe.Contents();
      dataGnt := dataPipe.Clock(data, dataGntIn, clear);
      forall k | 0 <= k < |done|
        ensures instrPipe.stages[k].Contents() == done[k]
      {
        assert instrPipe.stages[k] !in dataPipe.stages;
      }
      assert instrPipe.Contents() == done;
    }

    /** One clock edge; returns the grants that the pipelines give to the leading core. */
    method Clock(instr: Req, data: Req, instrBus: Resp, dataBus: Resp, enable: bool)
      returns (instrGnt: bool, dataGnt: bool)
      requires Valid()
      modifies instrPipe.stages, dataPipe.stages, instrResp, dataResp
      ensures Contents() == Clocked(old(Contents()), instr, data, instrBus, dataBus, enable)
      ensures instrGnt == ChainGrant(instr, old(Contents()).instr, instrBus.gnt)
      ensures dataGnt == ChainGrant(data, old(Contents()).data, dataBus.gnt)
    {
      hide PipelinedDelay.Contents, SngReg.Contents, StepChain, ChainGrant;
      instrGnt, dataGnt := ClockPipes(instr, data, instrBus.gnt, dataBus.gnt, !enable);
      if enable {
        ShiftIn(instrResp, Answer(instrBus.rvalid, instrBus.rdata));
        ShiftIn(dataResp, Answer(dataBus.rvalid, dataBus.rdata));
      }
    }
  }

  // ---- the cores ----

  /** The fetch port of every core is wired never to write. */
  ghost predicate FetchesOnly<S(!new), I(!new)>(core: Core<S, I>) {
    forall s :: !core.instr(s).we
  }

  /** What the memory answers and the interrupts say in one cycle. */
  datatype Env<I> = Env(instr: Answer, data: Answer, intr: I)

  /** One step of a core that has the bus to itself; the memory grants in the cycle it sees a request. */
  function Alone<S, I>(core: Core<S, I>, s: S, env: Env<I>): S {
    core.next(s, env.instr.With(core.instr(s).req), env.data.With(core.data(s).req), env.intr)
  }

  function Solo<S, I>(core: Core<S, I>, s: S, run: seq<Env<I>>): S {
    if run == [] then s else Alone(core, Solo(core, s, run[..|run| - 1]), Last(run))
  }

  // ---- the leading core with its pipelines, and whatever the other port shows ----

  datatype Lead<S> = Lead(core: S, delay: Delay)

  function OnBus(d: Delay, trailing: Ports): Compared
    requires d.instr != [] && d.data != []
  {
    Compare(Last(d.instr), trailing.instr, Last(d.data), TrailingData(trailing.data))
  }

  function StepLead<S, I>(core: Core<S, I>, lead: Lead<S>, trailing: Ports, env: Env<I>): (next: Lead<S>)
    requires lead.delay.Deep(|lead.delay.instr|)
    ensures next.delay.Deep(|lead.delay.instr|)
  {
    var bus := OnBus(lead.delay, trailing);
    var instr, data := core.instr(lead.core), core.data(lead.core);
    var instrGnt := ChainGrant(instr, lead.delay.instr, bus.instr.req);
    var dataGnt := ChainGrant(data, lead.delay.data, bus.data.req);
    Lead(core.next(lead.core, env.instr.With(instrGnt), env.data.With(dataGnt), env.intr),
         Clocked(lead.delay, instr, data, env.instr.With(bus.instr.req), env.data.With(bus.data.req), true))
  }

  /** Two cores that the comparator cannot tell apart. */
  predicate Alike(a: Ports, b: Ports) {
    && AsSeen(a.instr) == AsSeen(b.instr)
    && AsSeen(TrailingData(a.data)) == AsSeen(TrailingData(b.data))
  }

  /** The pipeline holds the requests of the past states h[1], h[2] and so on. */
  ghost predicate Holds<S>(pipe: seq<Req>, out: S -> Req, h: seq<S>) {
    |h| == |pipe| + 1 && forall i :: 0 <= i < |pipe| ==> pipe[i] == Quiet(out(h[i + 1]))
  }

  /** The delayed responses and interrupts are those that took the core from each past state to the next. */
  ghost predicate Explains<S, I>(core: Core<S, I>, instr: seq<Answer>, data: seq<Answer>, late: seq<I>, h: seq<S>) {
    && |instr| == |data| == |late| && |h| == |late| + 1
    && forall i :: 0 <= i < |late| ==> h[i] == Alone(core, h[i + 1], Env(instr[i], data[i], late[i]))
  }

  /** h[i] is the state of the leading core i cycles ago, and all the registers agree with that. */
  ghost predicate Behind<S, I>(core: Core<S, I>, lead: Lead<S>, late: seq<I>, h: seq<S>) {
    && lead.delay.Deep(|late|)
    && |h| == |late| + 1 && h[0] == lead.core
    && Holds(lead.delay.instr, core.instr, h)
    && Holds(lead.delay.data, core.data, h)
    && Explains(core, lead.delay.instrResp, lead.delay.dataResp, late, h)
  }

  function Older<S, I>(core: Core<S, I>, h: seq<S>, env: Env<I>): seq<S>
    requires h != []
  {
    [Alone(core, h[0], env)] + h[..|h| - 1]
  }

  lemma QuietTwice(r: Req)
    ensures Quiet(Quiet(r)) == Quiet(r)
    ensures Quiet(r).req == r.req
    ensures TrailingData(r) == Quiet(r)
    ensures !r.we ==> Quiet(r) == r
  {
  }

  /** The comparator speaks up exactly when the other core differs from the leading core of N cycles ago. */
  lemma FlagsDifference<S(!new), I(!new)>(core: Core<S, I>, lead: Lead<S>, late: seq<I>, h: seq<S>, trailing: Ports)
    requires FetchesOnly(core) && Behind(core, lead, late, h)
    ensures OnBus(lead.delay, trailing).error <==> !Alike(trailing, PortsOf(core, Last(h)))
    ensures !OnBus(lead.delay, trailing).error ==>
              && OnBus(lead.delay, trailing).instr == core.instr(Last(h))
              && OnBus(lead.delay, trailing).data == Quiet(core.data(Last(h)))
  {
    hide AsSeen, Quiet, TrailingData;
    QuietTwice(core.instr(Last(h)));
    QuietTwice(core.data(Last(h)));
    ComparedContains(Last(lead.delay.instr), trailing.instr, Last(lead.delay.data), TrailingData(trailing.data));
  }

  lemma LastHeld<S>(pipe: seq<Req>, out: S -> Req, h: seq<S>)
    requires Holds(pipe, out, h) && pipe != []
    ensures Last(pipe) == Quiet(out(Last(h)))
  {
  }

  lemma PipeFollows<S>(pipe: seq<Req>, out: S -> Req, h: seq<S>, gnt: bool, newest: S)
    requires Holds(pipe, out, h) && pipe != [] && gnt == Last(pipe).req
    ensures Holds(StepChain(out(h[0]), pipe, gnt, false), out, [newest] + h[..|h| - 1])
    ensures ChainGrant(out(h[0]), pipe, gnt) == out(h[0]).req
  {
    hide Quiet, StepChain, ChainGrant;
    FlowingShifts(out(h[0]), pipe, gnt);
    var next, older := StepChain(out(h[0]), pipe, gnt, false), [newest] + h[..|h| - 1];
    forall i | 0 <= i < |pipe|
      ensures next[i] == Quiet(out(older[i + 1]))
    {
      QuietTwice(out(h[i]));
    }
  }

  lemma ExplainsOn<S, I>(core: Core<S, I>, instr: seq<Answer>, data: seq<Answer>, late: seq<I>, h: seq<S>, env: Env<I>)
    requires Explains(core, instr, data, late, h) && late != []
    ensures Explains(core, Shift(instr, env.instr), Shift(data, env.data), Shift(late, env.intr), Older(core, h, env))
  {
    hide Alone;
    var older, later := Older(core, h, env), Shift(late, env.intr);
    forall i | 0 <= i < |late|
      ensures older[i] == Alone(core, older[i + 1], Env(Shift(instr, env.instr)[i], Shift(data, env.data)[i], later[i]))
    {
    }
  }

  /** While they agree the leading core runs as if it were alone, and the pipelines keep up with it. */
  lemma StaysBehind<S(!new), I(!new)>(core: Core<S, I>, lead: Lead<S>, late: seq<I>, h: seq<S>, trailing: Ports,
                                      env: Env<I>)
    requires FetchesOnly(core) && Behind(core, lead, late, h)
    requires Alike(trailing, PortsOf(core, Last(h)))
    ensures StepLead(core, lead, trailing, env).core == Alone(core, lead.core, env)
    ensures Behind(core, StepLead(core, lead, trailing, env), Shift(late, env.intr), Older(core, h, env))
  {
    hide AsSeen, Quiet, TrailingData, Bubble, ChainGrant, StepChain, Compare, Holds, Explains, Alike;
    FlagsDifference(core, lead, late, h, trailing);
    var bus := OnBus(lead.delay, trailing);
    LastHeld(lead.delay.instr, core.instr, h);
    LastHeld(lead.delay.data, core.data, h);
    QuietTwice(core.data(Last(h)));
    QuietTwice(core.instr(Last(h)));
    PipeFollows(lead.delay.instr, core.instr, h, bus.instr.req, Alone(core, lead.core, env));
    PipeFollows(lead.delay.data, core.data, h, bus.data.req, Alone(core, lead.core, env));
    ExplainsOn(core, lead.delay.instrResp, lead.delay.dataResp, late, h, env);
  }

  /** The state of the leading core i cycles before the end of the run; h tells about the time before the run. */
  function Back<S, I>(core: Core<S, I>, h: seq<S>, run: seq<Env<I>>, i: nat): S
    requires i < |h|
  {
    if i <= |run| then Solo(core, h[0], run[..|run| - i]) else h[i - |run|]
  }

  function History<S, I>(core: Core<S, I>, h: seq<S>, run: seq<Env<I>>): seq<S> {
    seq(|h|, i requires 0 <= i < |h| => Back(core, h, run, i))
  }

  lemma HistoryGrows<S(!new), I(!new)>(core: Core<S, I>, h: seq<S>, run: seq<Env<I>>)
    requires h != []
    ensures History(core, h, []) == h
    ensures run != [] ==> Older(core, History(core, h, run[..|run| - 1]), Last(run)) == History(core, h, run)
  {
    if run != [] {
      var front := run[..|run| - 1];
      var grown, now := Older(core, History(core, h, front), Last(run)), History(core, h, run);
      forall i | 0 <= i < |h|
        ensures grown[i] == now[i]
      {
        if i == 0 {
          assert front[..|front|] == front && run[..|run|] == run;
        } else if i <= |run| {
          assert front[..|front| - (i - 1)] == run[..|run| - i];
        }
      }
    }
  }

  function LateAfter<I>(late: seq<I>, run: seq<Env<I>>): (later: seq<I>)
    requires late != []
    ensures |later| == |late|
  {
    if run == [] then late else Shift(LateAfter(late, run[..|run| - 1]), Last(run).intr)
  }

  lemma BehindLengths<S, I>(core: Core<S, I>, lead: Lead<S>, late: seq<I>, h: seq<S>)
    requires Behind(core, lead, late, h)
    ensures late != [] && lead.delay.Deep(|late|) && |h| == |late| + 1 && h[0] == lead.core
  {
  }

  // ---- detection: any requests whatever on the other port ----

  function LeadAfter<S, I>(core: Core<S, I>, lead: Lead<S>, ports: seq<Ports>, run: seq<Env<I>>): (end: Lead<S>)
    requires |ports| == |run| && lead.delay.Deep(|lead.delay.instr|)
    ensures end.delay.Deep(|lead.delay.instr|)
    decreases |run|
  {
    if run == [] then lead
    else StepLead(core, LeadAfter(core, lead, ports[..|ports| - 1], run[..|run| - 1]), Last(ports), Last(run))
  }

  /** In every cycle of the run the other port matched the leading core of N cycles before. */
  ghost predicate Matched<S, I>(core: Core<S, I>, h: seq<S>, ports: seq<Ports>, run: seq<Env<I>>)
    requires h != [] && |ports| == |run|
  {
    forall t :: 0 <= t < |run| ==> Alike(ports[t], PortsOf(core, Back(core, h, run[..t], |h| - 1)))
  }

  lemma MatchedSoFar<S, I>(core: Core<S, I>, h: seq<S>, ports: seq<Ports>, run: seq<Env<I>>)
    requires h != [] && run != [] && |ports| == |run| && Matched(core, h, ports, run)
    ensures Matched(core, h, ports[..|run| - 1], run[..|run| - 1])
    ensures Alike(Last(ports), PortsOf(core, Last(History(core, h, run[..|run| - 1]))))
  {
    hide Alike, Back, PortsOf;
    var n := |run| - 1;
    forall t | 0 <= t < n
      ensures Alike(ports[..n][t], PortsOf(core, Back(core, h, run[..n][..t], |h| - 1)))
    {
      assert run[..n][..t] == run[..t];
    }
  }

  /** As long as the other port matches, the leading core is undisturbed. */
  lemma {:induction false} Undisturbed<S(!new), I(!new)>(
      core: Core<S, I>, lead: Lead<S>, late: seq<I>, h: seq<S>, ports: seq<Ports>, run: seq<Env<I>>)
    requires FetchesOnly(core) && Behind(core, lead, late, h)
    requires |ports| == |run| && Matched(core, h, ports, run)
    ensures late != [] && lead.delay.Deep(|late|)
    ensures Behind(core, LeadAfter(core, lead, ports, run), LateAfter(late, run), History(core, h, run))
    decreases |run|
  {
    hide Behind, StepLead, Alike, Older, OnBus, Shift, Matched, Back;
    BehindLengths(core, lead, late, h);
    HistoryGrows(core, h, run);
    if run != [] {
      var n := |run| - 1;
      MatchedSoFar(core, h, ports, run);
      Undisturbed(core, lead, late, h, ports[..n], run[..n]);
      StaysBehind(core, LeadAfter(core, lead, ports[..n], run[..n]), LateAfter(late, run[..n]),
                  History(core, h, run[..n]), Last(ports), Last(run));
    }
  }

  /**
   * Let the other port show any requests that so far matched the leading core of N cycles ago.
   * Then the leading core is where it would be alone, and the next requests on that port raise
   * the error exactly when they are the first not to match.
   */
  lemma DetectsFirstDifference<S(!new), I(!new)>(
      core: Core<S, I>, lead: Lead<S>, late: seq<I>, h: seq<S>, ports: seq<Ports>, run: seq<Env<I>>, now: Ports)
    requires FetchesOnly(core) && Behind(core, lead, late, h)
    requires |ports| == |run| && Matched(core, h, ports, run)
    ensures late != [] && |h| == |late| + 1 && lead.delay.Deep(|late|)
    ensures LeadAfter(core, lead, ports, run).core == Solo(core, lead.core, run)
    ensures OnBus(LeadAfter(core, lead, ports, run).delay, now).error
       <==> !Alike(now, PortsOf(core, Back(core, h, run, |late|)))
  {
    hide Behind, StepLead, Alike, Older, OnBus, Shift, Matched, LeadAfter, LateAfter, PortsOf;
    Undisturbed(core, lead, late, h, ports, run);
    var end := LeadAfter(core, lead, ports, run);
    BehindLengths(core, lead, late, h);
    BehindLengths(core, end, LateAfter(late, run), History(core, h, run));
    FlagsDifference(core, end, LateAfter(late, run), History(core, h, run), now);
    assert run[..|run|] == run;
  }

  // ---- simulation: the other port is the same core, N cycles late ----

  datatype Pair<S, I> = Pair(lead: Lead<S>, trailing: S, late: seq<I>) {
    predicate Sound() {
      lead.delay.Deep(|late|)
    }
  }

  function StepPair<S, I>(core: Core<S, I>, p: Pair<S, I>, env: Env<I>): (next: Pair<S, I>)
    requires p.Sound()
    ensures next.Sound() && |next.late| == |p.late|
  {
    var bus := OnBus(p.lead.delay, PortsOf(core, p.trailing));
    Pair(StepLead(core, p.lead, PortsOf(core, p.trailing), env),
         core.next(p.trailing, Last(p.lead.delay.instrResp).With(bus.instr.req),
                   Last(p.lead.delay.dataResp).With(bus.data.req), Last(p.late)),
         Shift(p.late, env.intr))
  }

  function PairAfter<S, I>(core: Core<S, I>, p: Pair<S, I>, run: seq<Env<I>>): (end: Pair<S, I>)
    requires p.Sound()
    ensures end.Sound() && |end.late| == |p.late|
  {
    if run == [] then p else StepPair(core, PairAfter(core, p, run[..|run| - 1]), Last(run))
  }

  /** The trailing core is N cycles behind the leading one. */
  ghost predicate Aligned<S, I>(core: Core<S, I>, p: Pair<S, I>, h: seq<S>) {
    Behind(core, p.lead, p.late, h) && p.trailing == Last(h)
  }

  lemma StaysAligned<S(!new), I(!new)>(core: Core<S, I>, p: Pair<S, I>, h: seq<S>, env: Env<I>)
    requires FetchesOnly(core) && Aligned(core, p, h)
    ensures Aligned(core, StepPair(core, p, env), Older(core, h, env))
  {
    hide AsSeen, TrailingData, StepLead, OnBus;
    var ports, n := PortsOf(core, p.trailing), |p.late|;
    FlagsDifference(core, p.lead, p.late, h, ports);
    StaysBehind(core, p.lead, p.late, h, ports, env);
    QuietTwice(core.data(p.trailing));
    assert h[n - 1] == Alone(core, h[n],
                             Env(p.lead.delay.instrResp[n - 1], p.lead.delay.dataResp[n - 1], p.late[n - 1]));
  }

  /**
   * At the end of every run, hence in every cycle: the leading core is where it would be alone,
   * the trailing core is where the leading core was N cycles ago, the comparator is silent, and
   * the bus carries the requests of that moment.
   */
  lemma {:induction false} Simulation<S(!new), I(!new)>(core: Core<S, I>, p: Pair<S, I>, h: seq<S>, run: seq<Env<I>>)
    requires FetchesOnly(core) && Aligned(core, p, h)
    ensures Aligned(core, PairAfter(core, p, run), History(core, h, run))
    ensures var end, n := PairAfter(core, p, run), |p.late|;
            && end.lead.core == Solo(core, p.lead.core, run)
            && (|run| >= n ==> end.trailing == Solo(core, p.lead.core, run[..|run| - n]))
            && var bus := OnBus(end.lead.delay, PortsOf(core, end.trailing));
               && !bus.error
               && bus.instr == core.instr(end.trailing)
               && bus.data == Quiet(core.data(end.trailing))
    decreases |run|
  {
    hide StepPair, Older, Behind, OnBus, Alike, Shift;
    BehindLengths(core, p.lead, p.late, h);
    HistoryGrows(core, h, run);
    if run != [] {
      Simulation(core, p, h, run[..|run| - 1]);
      StaysAligned(core, PairAfter(core, p, run[..|run| - 1]), History(core, h, run[..|run| - 1]), Last(run));
    }
    var end := PairAfter(core, p, run);
    BehindLengths(core, end.lead, end.late, History(core, h, run));
    assert run[..|run|] == run;
    AlikeItself(PortsOf(core, end.trailing));
    FlagsDifference(core, end.lead, end.late, History(core, h, run), PortsOf(core, end.trailing));
  }

  lemma AlikeItself(p: Ports)
    ensures Alike(p, p)
  {
  }

  // ---- how a pair gets there ----

  datatype BusResps = BusResps(instr: Resp, data: Resp)

  /** The delay registers after a number of cycles in which lockstep is not enabled and the core keeps its outputs. */
  function Disabled(d: Delay, ports: Ports, resps: seq<BusResps>): (end: Delay)
    requires d.Deep(|d.instr|)
    ensures end.Deep(|d.instr|)
    ensures end.instrResp == d.instrResp && end.dataResp == d.dataResp
  {
    if resps == [] then d
    else Clocked(Disabled(d, ports, resps[..|resps| - 1]), ports.instr, ports.data, Last(resps).instr,
                 Last(resps).data, false)
  }

  /** A core that waits for an interrupt: no requests, and no change without a response or an interrupt. */
  ghost predicate Asleep<S, I(!new)>(core: Core<S, I>, s: S, idle: I) {
    && !core.instr(s).req && !core.data(s).req
    && forall i: Answer, d: Answer :: !i.rvalid && !d.rvalid ==> Alone(core, s, Env(i, d, idle)) == s
  }

  lemma {:induction false} DisabledFills(d: Delay, ports: Ports, resps: seq<BusResps>)
    requires d.Deep(|d.instr|)
    ensures forall i :: 0 <= i < |d.instr| && i < |resps| ==>
              Disabled(d, ports, resps).instr[i] == Bubble(ports.instr)
    ensures forall i :: 0 <= i < |d.instr| && i < |resps| ==>
              Disabled(d, ports, resps).data[i] == Bubble(ports.data)
    decreases |resps|
  {
    if resps != [] {
      var front := resps[..|resps| - 1];
      DisabledFills(d, ports, front);
      var before, last := Disabled(d, ports, front), Last(resps);
      ClearEmpties(ports.instr, before.instr, last.instr.gnt);
      ClearEmpties(ports.data, before.data, last.data.gnt);
    }
  }

  /** Enabling lockstep after N disabled cycles, with both cores asleep in one state, starts out aligned. */
  lemma EntersAligned<S, I(!new)>(core: Core<S, I>, s: S, idle: I, d: Delay, resps: seq<BusResps>, late: seq<I>)
    requires d.Deep(|late|) && |resps| >= |late| && Asleep(core, s, idle)
    requires forall i :: 0 <= i < |late| ==> late[i] == idle && !d.instrResp[i].rvalid && !d.dataResp[i].rvalid
    ensures Aligned(core, Pair(Lead(s, Disabled(d, PortsOf(core, s), resps)), s, late), seq(|late| + 1, _ => s))
  {
    DisabledFills(d, PortsOf(core, s), resps);
  }
}
