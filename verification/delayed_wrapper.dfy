/** The wrapper in delayed dual mode is the pair of cores of the lockstep model, on the master's port. */
module DelayedWrapper {
  import opened Obi
  import opened TmrVoter
  import opened Elastic
  import opened DmrComparator
  import opened Lockstep
  import W = CpuWrapper

  predicate Delayed(cfg: W.Config, m: nat, k: nat)
    requires m < 3 && k < 3
  {
    && m != k && W.OneHot(cfg.master, m) && cfg.dual && !cfg.voter && cfg.delayed
    && (forall i :: 0 <= i < 3 ==> cfg.pair.At(i) == (i == m || i == k))
    && cfg.asleep == Trio(false, false, false)
  }

  // ---- the lockstep register behind each port ----

  /** What it offers to its comparator, given the requests of the trailing core. */
  function Offers(d: Delay, trailing: Ports): W.Late
    requires d.instr != [] && d.data != []
  {
    W.Late(Ports(Last(d.instr), Last(d.data)), Ports(trailing.instr, TrailingData(trailing.data)))
  }

  /** What it returns to the leading core, which shows `leading`, and to the trailing one. */
  function Returns(d: Delay, leading: Ports, bus: W.Replies): W.LateReplies
    requires d.instrResp != [] && d.dataResp != []
  {
    W.LateReplies(
      W.Replies(Resp(ChainGrant(leading.instr, d.instr, bus.instr.gnt), bus.instr.rvalid, bus.instr.rdata),
                Resp(ChainGrant(leading.data, d.data, bus.data.gnt), bus.data.rvalid, bus.data.rdata)),
      W.Replies(Last(d.instrResp).With(bus.instr.gnt), Last(d.dataResp).With(bus.data.gnt)))
  }

  predicate AllDeep(delays: Trio<Delay>) {
    forall j :: 0 <= j < 3 ==> delays.At(j).Deep(|delays.At(j).instr|)
  }

  function AllOffers(cfg: W.Config, cores: Trio<Ports>, delays: Trio<Delay>): Trio<W.Late>
    requires AllDeep(delays)
  {
    assert delays.At(0).Deep(|delays.c0.instr|) && delays.At(1).Deep(|delays.c1.instr|)
        && delays.At(2).Deep(|delays.c2.instr|);
    Trio(Offers(delays.c0, W.Upper(cfg, cores, W.Partner(cfg, 0), 0)),
         Offers(delays.c1, W.Upper(cfg, cores, W.Partner(cfg, 1), 1)),
         Offers(delays.c2, W.Upper(cfg, cores, W.Partner(cfg, 2), 2)))
  }

  function AllReturns(cfg: W.Config, cores: Trio<Ports>, delays: Trio<Delay>, bus: Trio<W.Replies>): Trio<W.LateReplies>
    requires AllDeep(delays)
  {
    assert delays.At(0).Deep(|delays.c0.instr|) && delays.At(1).Deep(|delays.c1.instr|)
        && delays.At(2).Deep(|delays.c2.instr|);
    Trio(Returns(delays.c0, W.Upper(cfg, cores, 0, 0), WayBack(cfg, bus, 0)),
         Returns(delays.c1, W.Upper(cfg, cores, 1, 1), WayBack(cfg, bus, 1)),
         Returns(delays.c2, W.Upper(cfg, cores, 2, 2), WayBack(cfg, bus, 2)))
  }

  /** The way back from bus port j to its lockstep register, open in delayed mode only. */
  function WayBack(cfg: W.Config, bus: Trio<W.Replies>, j: nat): W.Replies
    requires j < 3
  {
    if cfg.delayed && cfg.dual then bus.At(j) else W.NO_REPLIES
  }

  // ---- routing ----

  lemma DelayedRouting(cfg: W.Config, m: nat, k: nat)
    requires m < 3 && k < 3 && Delayed(cfg, m, k)
    ensures W.Partner(cfg, m) == k && forall i :: 0 <= i < 3 ==> W.Column(cfg, i) == m && cfg.master.At(i) == (i == m)
  {
    assert cfg.master.At(0) == (0 == m) && cfg.master.At(1) == (1 == m) && cfg.master.At(2) == (2 == m);
    assert cfg.pair.At(0) == (0 == m || 0 == k) && cfg.pair.At(1) == (1 == m || 1 == k)
        && cfg.pair.At(2) == (2 == m || 2 == k);
  }

  /** The master's port carries what the comparator lets through of the lockstep pair; the other ports are idle. */
  lemma DelayedRequests(cfg: W.Config, m: nat, k: nat, cores: Trio<Ports>, delays: Trio<Delay>)
    requires m < 3 && k < 3 && Delayed(cfg, m, k) && AllDeep(delays) && delays.At(m).Deep(|delays.At(m).instr|)
    ensures var out := OnBus(delays.At(m), cores.At(k));
            && W.AllPorts(cfg, cores, AllOffers(cfg, cores, delays)) == W.OnlyPort(m, Ports(out.instr, out.data))
            && W.Comparator(cfg, cores, AllOffers(cfg, cores, delays), m).error == out.error
  {
    hide Compare, TrailingData;
    DelayedRouting(cfg, m, k);
  }

  /** The leading core is answered at once, the trailing one through the registers. */
  lemma DelayedReplies(cfg: W.Config, m: nat, k: nat, cores: Trio<Ports>, delays: Trio<Delay>,
                       bus: Trio<W.Replies>, isolated: Trio<W.Replies>)
    requires m < 3 && k < 3 && Delayed(cfg, m, k) && AllDeep(delays) && delays.At(m).Deep(|delays.At(m).instr|)
    ensures var late, back := AllReturns(cfg, cores, delays, bus), Returns(delays.At(m), cores.At(m), bus.At(m));
            && W.Reply(cfg, bus, late, isolated, m) == back.first
            && W.Reply(cfg, bus, late, isolated, k) == back.second
  {
    hide ChainGrant;
    DelayedRouting(cfg, m, k);
  }

  // ---- whole runs ----

  /** Everything in a cycle that is neither the two cores nor their lockstep register. */
  datatype Rest<I> = Rest(
    third: Ports, others: Trio<Delay>, bus: Trio<W.Replies>, isolated: Trio<W.Replies>, env: Env<I>)

  function Placed<T>(t: Trio<T>, m: nat, v: T): Trio<T>
    requires m < 3
  {
    Trio(if m == 0 then v else t.c0, if m == 1 then v else t.c1, if m == 2 then v else t.c2)
  }

  function CoresShow<S, I>(core: Core<S, I>, p: Pair<S, I>, m: nat, k: nat, third: Ports): Trio<Ports>
    requires m < 3 && k < 3
  {
    Placed(Placed(Trio(third, third, third), k, PortsOf(core, p.trailing)), m, PortsOf(core, p.lead.core))
  }

  function AllDelays<S, I>(p: Pair<S, I>, m: nat, r: Rest<I>): (delays: Trio<Delay>)
    requires m < 3 && p.Sound() && AllDeep(r.others)
    ensures AllDeep(delays) && delays.At(m) == p.lead.delay
  {
    DeepPlaced(r.others, m, p.lead.delay);
    Placed(r.others, m, p.lead.delay)
  }

  /** What leaves the wrapper. */
  function BusPorts<S, I>(core: Core<S, I>, cfg: W.Config, m: nat, k: nat, p: Pair<S, I>, r: Rest<I>): Trio<Ports>
    requires m < 3 && k < 3 && p.Sound() && AllDeep(r.others)
  {
    var cores := CoresShow(core, p, m, k, r.third);
    W.AllPorts(cfg, cores, AllOffers(cfg, cores, AllDelays(p, m, r)))
  }

  /** The comparator of the master's port raises its error. */
  function Flagged<S, I>(core: Core<S, I>, cfg: W.Config, m: nat, k: nat, p: Pair<S, I>, r: Rest<I>): bool
    requires m < 3 && k < 3 && p.Sound() && AllDeep(r.others)
  {
    var cores := CoresShow(core, p, m, k, r.third);
    W.Comparator(cfg, cores, AllOffers(cfg, cores, AllDelays(p, m, r)), m).error
  }

  /** One clock of the wrapper, its registers and both cores; the memory grants what port m shows. */
  function StepWrapper<S, I>(core: Core<S, I>, cfg: W.Config, m: nat, k: nat, p: Pair<S, I>,
                             r: Rest<I>): (next: Pair<S, I>)
    requires m < 3 && k < 3 && p.Sound() && AllDeep(r.others)
    ensures next.Sound() && |next.late| == |p.late|
  {
    var cores, port := CoresShow(core, p, m, k, r.third), BusPorts(core, cfg, m, k, p, r).At(m);
    var bus := Placed(r.bus, m, W.Replies(r.env.instr.With(port.instr.req), r.env.data.With(port.data.req)));
    var late := AllReturns(cfg, cores, AllDelays(p, m, r), bus);
    var first, second := W.Reply(cfg, bus, late, r.isolated, m), W.Reply(cfg, bus, late, r.isolated, k);
    var shown, back := W.Upper(cfg, cores, m, m), WayBack(cfg, bus, m);
    Pair(Lead(core.next(p.lead.core, first.instr, first.data, r.env.intr),
              Clocked(p.lead.delay, shown.instr, shown.data, back.instr, back.data,
                      cfg.delayed && cfg.dual && !cfg.asleep.At(m))),
         core.next(p.trailing, second.instr, second.data, Last(p.late)),
         if cfg.delayed && cfg.dual then Shift(p.late, r.env.intr) else p.late)
  }

  lemma DeepPlaced(others: Trio<Delay>, m: nat, d: Delay)
    requires m < 3 && AllDeep(others) && d.Deep(|d.instr|)
    ensures AllDeep(Placed(others, m, d))
  {
    assert others.At(0).Deep(|others.c0.instr|) && others.At(1).Deep(|others.c1.instr|)
        && others.At(2).Deep(|others.c2.instr|);
  }

  lemma BusPortsArePair<S, I>(core: Core<S, I>, cfg: W.Config, m: nat, k: nat, p: Pair<S, I>, r: Rest<I>)
    requires m < 3 && k < 3 && Delayed(cfg, m, k) && p.Sound() && AllDeep(r.others)
    ensures var out := OnBus(p.lead.delay, PortsOf(core, p.trailing));
            && BusPorts(core, cfg, m, k, p, r) == W.OnlyPort(m, Ports(out.instr, out.data))
            && Flagged(core, cfg, m, k, p, r) == out.error
  {
    hide OnBus, W.AllPorts, W.Comparator, AllOffers, AllDeep;
    DelayedRequests(cfg, m, k, CoresShow(core, p, m, k, r.third), AllDelays(p, m, r));
  }

  /** The wrapper does what the lockstep model says, whatever the third core and the other ports do. */
  lemma WrapperIsPair<S, I>(core: Core<S, I>, cfg: W.Config, m: nat, k: nat, p: Pair<S, I>, r: Rest<I>)
    requires m < 3 && k < 3 && Delayed(cfg, m, k) && p.Sound() && AllDeep(r.others)
    ensures StepWrapper(core, cfg, m, k, p, r) == StepPair(core, p, r.env)
  {
    hide Compare, TrailingData, ChainGrant, StepChain, W.AllPorts, W.Reply, AllOffers, AllReturns, BusPorts, AllDeep;
    DelayedRouting(cfg, m, k);
    BusPortsArePair(core, cfg, m, k, p, r);
    var cores, port := CoresShow(core, p, m, k, r.third), BusPorts(core, cfg, m, k, p, r).At(m);
    var reply := W.Replies(r.env.instr.With(port.instr.req), r.env.data.With(port.data.req));
    DelayedReplies(cfg, m, k, cores, AllDelays(p, m, r), Placed(r.bus, m, reply), r.isolated);
  }

  function WrapperAfter<S, I>(core: Core<S, I>, cfg: W.Config, m: nat, k: nat, p: Pair<S, I>,
                              run: seq<Rest<I>>): (end: Pair<S, I>)
    requires m < 3 && k < 3 && p.Sound() && forall t :: 0 <= t < |run| ==> AllDeep(run[t].others)
    ensures end.Sound() && |end.late| == |p.late|
  {
    if run == [] then p else StepWrapper(core, cfg, m, k, WrapperAfter(core, cfg, m, k, p, run[..|run| - 1]), Last(run))
  }

  function Envs<I>(run: seq<Rest<I>>): (envs: seq<Env<I>>)
    ensures |envs| == |run|
  {
    seq(|run|, t requires 0 <= t < |run| => run[t].env)
  }

  lemma {:induction false} WrapperRunIsPairRun<S, I>(core: Core<S, I>, cfg: W.Config, m: nat, k: nat, p: Pair<S, I>,
                                                     run: seq<Rest<I>>)
    requires m < 3 && k < 3 && Delayed(cfg, m, k) && p.Sound() && forall t :: 0 <= t < |run| ==> AllDeep(run[t].others)
    ensures WrapperAfter(core, cfg, m, k, p, run) == PairAfter(core, p, Envs(run))
    decreases |run|
  {
    hide StepWrapper, StepPair, AllDeep, Delayed;
    if run != [] {
      var before := run[..|run| - 1];
      WrapperRunIsPairRun(core, cfg, m, k, p, before);
      assert Envs(run)[..|run| - 1] == Envs(before);
      WrapperIsPair(core, cfg, m, k, WrapperAfter(core, cfg, m, k, p, before), Last(run));
    }
  }

  /**
   * Delayed lockstep through the whole wrapper: over every run from alignment, with any third core, the
   * leading core runs as if alone, the master's port carries exactly the requests of the trailing core,
   * which are those of N cycles ago, the other ports are idle and the comparator is silent.
   */
  lemma DelayedSimulation<S(!new), I(!new)>(
      core: Core<S, I>, cfg: W.Config, m: nat, k: nat, p: Pair<S, I>, h: seq<S>, run: seq<Rest<I>>, now: Rest<I>)
    requires m < 3 && k < 3 && Delayed(cfg, m, k) && FetchesOnly(core) && Aligned(core, p, h) && p.Sound()
    requires AllDeep(now.others) && forall t :: 0 <= t < |run| ==> AllDeep(run[t].others)
    ensures var end, n := WrapperAfter(core, cfg, m, k, p, run), |p.late|;
            && end.lead.core == Solo(core, p.lead.core, Envs(run))
            && (|run| >= n ==> end.trailing == Solo(core, p.lead.core, Envs(run)[..|run| - n]))
            && BusPorts(core, cfg, m, k, end, now)
                == W.OnlyPort(m, Ports(core.instr(end.trailing), Quiet(core.data(end.trailing))))
            && !Flagged(core, cfg, m, k, end, now)
  {
    hide Delayed, Aligned, StepWrapper, OnBus, Quiet, BusPorts;
    hide Flagged, AllDeep, WrapperAfter, PairAfter, Solo, FetchesOnly;
    WrapperRunIsPairRun(core, cfg, m, k, p, run);
    Simulation(core, p, h, Envs(run));
    BusPortsArePair(core, cfg, m, k, WrapperAfter(core, cfg, m, k, p, run), now);
  }
}
