/** How the wrapper routes the requests of the three cores to the bus ports, and the responses back. */
module CpuWrapper {
  import opened Obi
  import opened DmrComparator
  import opened TmrVoter

  // ---- configuration ----

  datatype Config = Config(
    master: Trio<bool>,      // master_core_ff_s
    voter: bool,             // tmr_voter_enable_s
    dual: bool,              // dual_mode_s
    delayed: bool,           // delayed_s
    pair: Trio<bool>,        // dmr_config_s
    asleep: Trio<bool>)      // dmr_wfi_s, set while a core is isolated

  const IDLE := Ports(NO_REQ, NO_REQ)

  predicate OneHot(t: Trio<bool>, m: nat)
    requires m < 3
  {
    forall i :: 0 <= i < 3 ==> t.At(i) == (i == m)
  }

  // ---- requests ----

  /** The column of the upper demultiplexer that core i feeds. */
  function Column(cfg: Config, i: nat): (j: nat)
    requires i < 3
    ensures j < 3
  {
    if cfg.master.c2 && (cfg.dual || cfg.voter) then 2
    else if cfg.master.c1 && (cfg.dual || cfg.voter) then 1
    else if cfg.master.c0 && (cfg.dual || cfg.voter) then 0
    else i
  }

  function Upper(cfg: Config, cores: Trio<Ports>, i: nat, j: nat): Ports
    requires i < 3 && j < 3
  {
    if j == Column(cfg, i) then cores.At(i) else IDLE
  }

  function VoterInstr(cfg: Config, cores: Trio<Ports>, j: nat): Trio<Req>
    requires j < 3
  {
    Trio(Upper(cfg, cores, 0, j).instr, Upper(cfg, cores, 1, j).instr, Upper(cfg, cores, 2, j).instr)
  }

  function VoterData(cfg: Config, cores: Trio<Ports>, j: nat): Trio<Req>
    requires j < 3
  {
    Trio(Upper(cfg, cores, 0, j).data, Upper(cfg, cores, 1, j).data, Upper(cfg, cores, 2, j).data)
  }

  /** The core that comparator j compares with core j. */
  function Partner(cfg: Config, j: nat): (k: nat)
    requires j < 3
    ensures k < 3 && k != j
  {
    if j == 0 then (if cfg.pair.c1 then 1 else 2)
    else if j == 1 then (if cfg.pair.c0 then 0 else 2)
    else (if cfg.pair.c1 then 1 else 0)
  }

  /** What lockstep register j offers to its comparator in delayed mode. */
  datatype Late = Late(first: Ports, second: Ports)

  function Comparator(cfg: Config, cores: Trio<Ports>, late: Trio<Late>, j: nat): Compared
    requires j < 3
  {
    var a, b :=
      if cfg.delayed && cfg.dual then late.At(j).first else if cfg.dual then Upper(cfg, cores, j, j) else IDLE,
      if cfg.delayed && cfg.dual then late.At(j).second
      else if cfg.dual then Upper(cfg, cores, Partner(cfg, j), j) else IDLE;
    Compare(a.instr, b.instr, a.data, b.data)
  }

  /** The lower multiplexer: what leaves the wrapper on port j. */
  function Port(cfg: Config, cores: Trio<Ports>, late: Trio<Late>, j: nat): Ports
    requires j < 3
  {
    if cfg.master.At(j) && cfg.voter && !cfg.dual then
      Ports(Vote(VoterInstr(cfg, cores, j)), Vote(VoterData(cfg, cores, j)))
    else if cfg.master.At(j) && !cfg.voter && cfg.dual then
      var c := Comparator(cfg, cores, late, j);
      Ports(c.instr, c.data)
    else
      Upper(cfg, cores, j, j)
  }

  function AllPorts(cfg: Config, cores: Trio<Ports>, late: Trio<Late>): Trio<Ports> {
    Trio(Port(cfg, cores, late, 0), Port(cfg, cores, late, 1), Port(cfg, cores, late, 2))
  }

  // ---- responses ----

  datatype Replies = Replies(instr: Resp, data: Resp)

  const NO_REPLIES := Replies(Resp(false, false, 0), Resp(false, false, 0))

  /** The lower demultiplexer: the direct way back is cut in delayed mode. */
  function Direct(cfg: Config, bus: Trio<Replies>, j: nat): Replies
    requires j < 3
  {
    if cfg.delayed && cfg.dual then NO_REPLIES else bus.At(j)
  }

  /** What lockstep register j returns to the leading and to the trailing core. */
  datatype LateReplies = LateReplies(first: Replies, second: Replies)

  /** The upper multiplexer: what core i sees. */
  function Reply(cfg: Config, bus: Trio<Replies>, late: Trio<LateReplies>, isolated: Trio<Replies>, i: nat): Replies
    requires i < 3
  {
    var shared := !cfg.delayed && (cfg.voter || (cfg.dual && cfg.pair.At(i)));
    if cfg.asleep.At(i) then isolated.At(i)
    else if cfg.master.c0 && shared then Direct(cfg, bus, 0)
    else if cfg.master.c1 && shared then Direct(cfg, bus, 1)
    else if cfg.master.c2 && shared then Direct(cfg, bus, 2)
    else if cfg.master.At(i) && cfg.dual && cfg.delayed then late.At(i).first
    else if !cfg.master.At(i) && cfg.dual && cfg.delayed && cfg.pair.At(i) then
      (if cfg.master.c0 then late.c0.second else if cfg.master.c1 then late.c1.second else late.c2.second)
    else Direct(cfg, bus, i)
  }

  // ---- triple mode ----

  predicate Tripled(cfg: Config, m: nat)
    requires m < 3
  {
    && OneHot(cfg.master, m) && cfg.voter && !cfg.dual && !cfg.delayed
    && cfg.asleep == Trio(false, false, false)
  }

  /** All cores but possibly f show p. */
  predicate HealthyShow(cores: Trio<Ports>, f: nat, p: Ports) {
    forall i :: 0 <= i < 3 && i != f ==> cores.At(i) == p
  }

  /** The three ports when only port m is in use. */
  function OnlyPort(m: nat, p: Ports): Trio<Ports> {
    Trio(if m == 0 then p else IDLE, if m == 1 then p else IDLE, if m == 2 then p else IDLE)
  }

  lemma TripledRequests(cfg: Config, m: nat, cores: Trio<Ports>, late: Trio<Late>, f: nat, p: Ports)
    requires m < 3 && f < 3 && Tripled(cfg, m) && HealthyShow(cores, f, p)
    ensures AllPorts(cfg, cores, late) == OnlyPort(m, p)
  {
    hide Vote;
    assert cfg.master.At(0) == (0 == m) && cfg.master.At(1) == (1 == m) && cfg.master.At(2) == (2 == m);
    assert forall i :: 0 <= i < 3 ==> Column(cfg, i) == m;
    forall i | 0 <= i < 3 && i != f
      ensures VoterInstr(cfg, cores, m).At(i) == p.instr
      ensures VoterData(cfg, cores, m).At(i) == p.data
    {
    }
    VoteMasks(VoterInstr(cfg, cores, m), f, p.instr);
    VoteMasks(VoterData(cfg, cores, m), f, p.data);
  }

  lemma TripledReplies(cfg: Config, m: nat, bus: Trio<Replies>, late: Trio<LateReplies>, isolated: Trio<Replies>,
                       i: nat)
    requires m < 3 && i < 3 && Tripled(cfg, m)
    ensures Reply(cfg, bus, late, isolated, i) == bus.At(m)
  {
    assert cfg.master.At(0) == (0 == m) && cfg.master.At(1) == (1 == m) && cfg.master.At(2) == (2 == m);
  }

  // ---- whole runs in triple mode ----

  /** Everything outside the wrapper: answers depend on its state and on what the three ports show. */
  datatype Bus<!B> = Bus(reply: (B, Trio<Ports>) -> Trio<Replies>, next: (B, Trio<Ports>) -> B)

  /** Two healthy cores, the third replaced by the requests it happens to show. */
  datatype Triple<S, B> = Triple(first: S, second: S, bus: B)

  /** One core alone on port m. */
  datatype Single<S, B> = Single(core: S, bus: B)

  datatype Cycle<I> = Cycle(faulty: Ports, intr: I, late: Trio<Late>, lateReplies: Trio<LateReplies>,
                            isolated: Trio<Replies>)

  /** The core indices in order, with the faulty one left out. */
  function First(f: nat): (i: nat)
    requires f < 3
    ensures i < 3 && i != f
  {
    if f == 0 then 1 else 0
  }

  function Second(f: nat): (i: nat)
    requires f < 3
    ensures i < 3 && i != f && i != First(f)
  {
    if f == 2 then 1 else 2
  }

  function Shown<S, I, B>(core: Core<S, I>, t: Triple<S, B>, f: nat, faulty: Ports): Trio<Ports>
    requires f < 3
  {
    var a, b := PortsOf(core, t.first), PortsOf(core, t.second);
    if f == 0 then Trio(faulty, a, b) else if f == 1 then Trio(a, faulty, b) else Trio(a, b, faulty)
  }

  /** One step of a core that sees both replies. */
  function Advance<S, I>(core: Core<S, I>, s: S, r: Replies, intr: I): S {
    core.next(s, r.instr, r.data, intr)
  }

  function StepTriple<S, I, B>(core: Core<S, I>, bus: Bus<B>, cfg: Config, t: Triple<S, B>, f: nat,
                               c: Cycle<I>): Triple<S, B>
    requires f < 3
  {
    var ports := AllPorts(cfg, Shown(core, t, f, c.faulty), c.late);
    var replies := bus.reply(t.bus, ports);
    Triple(Advance(core, t.first, Reply(cfg, replies, c.lateReplies, c.isolated, First(f)), c.intr),
           Advance(core, t.second, Reply(cfg, replies, c.lateReplies, c.isolated, Second(f)), c.intr),
           bus.next(t.bus, ports))
  }

  function StepSingle<S, I, B>(core: Core<S, I>, bus: Bus<B>, s: Single<S, B>, m: nat, intr: I): Single<S, B>
    requires m < 3
  {
    var ports := OnlyPort(m, PortsOf(core, s.core));
    Single(Advance(core, s.core, bus.reply(s.bus, ports).At(m), intr), bus.next(s.bus, ports))
  }

  function TripleAfter<S, I, B>(core: Core<S, I>, bus: Bus<B>, cfg: Config, t: Triple<S, B>, f: nat,
                                run: seq<Cycle<I>>): Triple<S, B>
    requires f < 3
    decreases |run|
  {
    if run == [] then t else TripleAfter(core, bus, cfg, StepTriple(core, bus, cfg, t, f, run[0]), f, run[1..])
  }

  function SingleAfter<S, I, B>(core: Core<S, I>, bus: Bus<B>, s: Single<S, B>, m: nat,
                                run: seq<Cycle<I>>): Single<S, B>
    requires m < 3
    decreases |run|
  {
    if run == [] then s else SingleAfter(core, bus, StepSingle(core, bus, s, m, run[0].intr), m, run[1..])
  }

  /**
   * Whatever one core shows in every cycle, the other two and the bus behave as if a single
   * fault-free core were alone on the master's port; the other ports stay silent.
   */
  lemma {:induction false} TripleMasks<S, I, B>(
      core: Core<S, I>, bus: Bus<B>, cfg: Config, m: nat, f: nat, s: Single<S, B>, run: seq<Cycle<I>>, now: Cycle<I>)
    requires m < 3 && f < 3 && Tripled(cfg, m)
    ensures var t := TripleAfter(core, bus, cfg, Triple(s.core, s.core, s.bus), f, run);
            var alone := SingleAfter(core, bus, s, m, run);
            && t == Triple(alone.core, alone.core, alone.bus)
            && var ports := AllPorts(cfg, Shown(core, t, f, now.faulty), now.late);
               && ports == OnlyPort(m, PortsOf(core, alone.core))
               && forall i :: 0 <= i < 3 ==>
                    Reply(cfg, bus.reply(t.bus, ports), now.lateReplies, now.isolated, i)
                        == bus.reply(alone.bus, ports).At(m)
    decreases |run|
  {
    hide Port, Reply, AllPorts, Tripled;
    var t := Triple(s.core, s.core, s.bus);
    if run == [] {
      TripledRequests(cfg, m, Shown(core, t, f, now.faulty), now.late, f, PortsOf(core, s.core));
      var replies := bus.reply(s.bus, OnlyPort(m, PortsOf(core, s.core)));
      forall i | 0 <= i < 3
        ensures Reply(cfg, replies, now.lateReplies, now.isolated, i) == replies.At(m)
      {
        TripledReplies(cfg, m, replies, now.lateReplies, now.isolated, i);
      }
    } else {
      var c := run[0];
      TripledRequests(cfg, m, Shown(core, t, f, c.faulty), c.late, f, PortsOf(core, s.core));
      var replies := bus.reply(s.bus, OnlyPort(m, PortsOf(core, s.core)));
      TripledReplies(cfg, m, replies, c.lateReplies, c.isolated, First(f));
      TripledReplies(cfg, m, replies, c.lateReplies, c.isolated, Second(f));
      TripleMasks(core, bus, cfg, m, f, StepSingle(core, bus, s, m, c.intr), run[1..], now);
    }
  }

  // ---- dual mode without delay ----

  predicate Dual(cfg: Config, m: nat, k: nat)
    requires m < 3 && k < 3
  {
    && m != k && OneHot(cfg.master, m) && cfg.dual && !cfg.voter && !cfg.delayed
    && forall i :: 0 <= i < 3 ==> cfg.pair.At(i) == (i == m || i == k)
  }

  predicate SameSeen(p: Ports, q: Ports) {
    AsSeen(p.instr) == AsSeen(q.instr) && AsSeen(p.data) == AsSeen(q.data)
  }

  /** The master's port carries the master's requests when both masked cores agree, and nothing when they do not. */
  lemma DualContains(cfg: Config, m: nat, k: nat, cores: Trio<Ports>, late: Trio<Late>)
    requires m < 3 && k < 3 && Dual(cfg, m, k)
    ensures AllPorts(cfg, cores, late)
         == OnlyPort(m, if SameSeen(cores.At(m), cores.At(k)) then cores.At(m) else IDLE)
  {
    hide AsSeen, Compare;
    assert cfg.master.At(0) == (0 == m) && cfg.master.At(1) == (1 == m) && cfg.master.At(2) == (2 == m);
    assert cfg.pair.At(0) == (0 == m || 0 == k) && cfg.pair.At(1) == (1 == m || 1 == k)
        && cfg.pair.At(2) == (2 == m || 2 == k);
    assert Partner(cfg, m) == k;
    assert forall i :: 0 <= i < 3 ==> Column(cfg, i) == m;
    var a, b := cores.At(m), cores.At(k);
    CompareGates(a.instr, b.instr, a.data, b.data);
  }

  lemma CompareGates(instr0: Req, instr1: Req, data0: Req, data1: Req)
    ensures Compare(instr0, instr1, data0, data1)
         == if AsSeen(instr0) == AsSeen(instr1) && AsSeen(data0) == AsSeen(data1) then Compared(instr0, data0, false)
            else Compared(NO_REQ, NO_REQ, true)
  {
    MismatchIsVisible(instr0, instr1);
    MismatchIsVisible(data0, data1);
  }

  /** Any request that leaves the wrapper was issued, alike, by both masked cores; the third core has no say. */
  lemma DualRequestsAreShared(cfg: Config, m: nat, k: nat, cores: Trio<Ports>, others: Trio<Ports>, late: Trio<Late>,
                              j: nat)
    requires m < 3 && k < 3 && j < 3 && Dual(cfg, m, k)
    requires others.At(m) == cores.At(m) && others.At(k) == cores.At(k)
    ensures AllPorts(cfg, others, late) == AllPorts(cfg, cores, late)
    ensures var out := AllPorts(cfg, cores, late).At(j);
            && (out.instr.req || out.data.req ==> j == m && SameSeen(cores.At(m), cores.At(k)) && out == cores.At(m))
            && (out.instr.we || out.data.we ==> j == m)
  {
    DualContains(cfg, m, k, cores, late);
    DualContains(cfg, m, k, others, late);
  }

  /** The comparator of the pair reports every visible difference, and nothing else. */
  lemma DualErrorIff(cfg: Config, m: nat, k: nat, cores: Trio<Ports>, late: Trio<Late>)
    requires m < 3 && k < 3 && Dual(cfg, m, k)
    ensures Comparator(cfg, cores, late, m).error <==> !SameSeen(cores.At(m), cores.At(k))
  {
    hide AsSeen, Compare;
    assert cfg.master.At(0) == (0 == m) && cfg.master.At(1) == (1 == m) && cfg.master.At(2) == (2 == m);
    assert cfg.pair.At(0) == (0 == m || 0 == k) && cfg.pair.At(1) == (1 == m || 1 == k)
        && cfg.pair.At(2) == (2 == m || 2 == k);
    assert Partner(cfg, m) == k;
    assert forall i :: 0 <= i < 3 ==> Column(cfg, i) == m;
    var a, b := cores.At(m), cores.At(k);
    CompareGates(a.instr, b.instr, a.data, b.data);
  }

  predicate Awake(cfg: Config, i: nat)
    requires i < 3
  {
    !cfg.asleep.At(i)
  }

  /** Both masked cores see what the master's port is answered; the third core keeps its own port. */
  lemma DualReplies(cfg: Config, m: nat, k: nat, bus: Trio<Replies>, late: Trio<LateReplies>, isolated: Trio<Replies>,
                    i: nat)
    requires m < 3 && k < 3 && i < 3 && Dual(cfg, m, k) && Awake(cfg, i)
    ensures Reply(cfg, bus, late, isolated, i) == bus.At(if i == m || i == k then m else i)
  {
    assert cfg.master.At(0) == (0 == m) && cfg.master.At(1) == (1 == m) && cfg.master.At(2) == (2 == m);
    assert cfg.pair.At(i) == (i == m || i == k);
  }

  /** The third core, given the two of the pair. */
  function Third(m: nat, k: nat): (f: nat)
    requires m < 3 && k < 3 && m != k
    ensures f < 3 && f != m && f != k
  {
    3 - m - k
  }

  lemma ShowsPair<S, I, B>(core: Core<S, I>, t: Triple<S, B>, m: nat, k: nat, third: Ports)
    requires m < 3 && k < 3 && m != k && t.first == t.second
    ensures var shown := Shown(core, t, Third(m, k), third);
            shown.At(m) == shown.At(k) == PortsOf(core, t.first)
  {
  }

  /**
   * Two equal cores in dual mode behave, over every run, as one core alone on the master's port: the bus cannot
   * tell the difference, no error is raised, and whatever the third core shows is irrelevant.
   */
  lemma {:induction false} DualRunsAsOne<S, I, B>(
      core: Core<S, I>, bus: Bus<B>, cfg: Config, m: nat, k: nat, s: Single<S, B>, run: seq<Cycle<I>>, now: Cycle<I>)
    requires m < 3 && k < 3 && Dual(cfg, m, k) && Awake(cfg, m) && Awake(cfg, k)
    ensures var t := TripleAfter(core, bus, cfg, Triple(s.core, s.core, s.bus), Third(m, k), run);
            var alone := SingleAfter(core, bus, s, m, run);
            && t == Triple(alone.core, alone.core, alone.bus)
            && var cores := Shown(core, t, Third(m, k), now.faulty);
               && AllPorts(cfg, cores, now.late) == OnlyPort(m, PortsOf(core, alone.core))
               && !Comparator(cfg, cores, now.late, m).error
    decreases |run|
  {
    hide Port, Reply, AllPorts, Dual, Comparator, Awake, Shown, AsSeen, OnlyPort;
    DualIsPair(cfg, m, k);
    var f, t := Third(m, k), Triple(s.core, s.core, s.bus);
    if run == [] {
      var cores := Shown(core, t, f, now.faulty);
      ShowsPair(core, t, m, k, now.faulty);
      DualContains(cfg, m, k, cores, now.late);
      DualErrorIff(cfg, m, k, cores, now.late);
    } else {
      var c := run[0];
      var cores := Shown(core, t, f, c.faulty);
      ShowsPair(core, t, m, k, c.faulty);
      DualContains(cfg, m, k, cores, c.late);
      var replies := bus.reply(s.bus, OnlyPort(m, PortsOf(core, s.core)));
      DualReplies(cfg, m, k, replies, c.lateReplies, c.isolated, First(f));
      DualReplies(cfg, m, k, replies, c.lateReplies, c.isolated, Second(f));
      DualRunsAsOne(core, bus, cfg, m, k, StepSingle(core, bus, s, m, c.intr), run[1..], now);
    }
  }

  lemma DualIsPair(cfg: Config, m: nat, k: nat)
    requires m < 3 && k < 3 && Dual(cfg, m, k)
    ensures m != k
  {
  }

  // ---- dual mode with one arbitrary core ----

  predicate AllSeenAlike(p: Trio<Ports>, q: Trio<Ports>) {
    SameSeen(p.c0, q.c0) && SameSeen(p.c1, q.c1) && SameSeen(p.c2, q.c2)
  }

  /** The bus takes from the ports only what a request means to it. */
  ghost predicate OnlySees<B(!new)>(bus: Bus<B>) {
    forall b: B, p: Trio<Ports>, q: Trio<Ports> :: AllSeenAlike(p, q) ==>
      bus.reply(b, p) == bus.reply(b, q) && bus.next(b, p) == bus.next(b, q)
  }

  /** Core h shows p, and the other two show whatever they show in this cycle. */
  function Beside<I>(h: nat, m: nat, k: nat, p: Ports, c: Cycle<I>, third: Ports): Trio<Ports>
    requires h < 3 && m < 3 && k < 3
  {
    var at := (i: nat) => if i == h then p else if i == m || i == k then c.faulty else third;
    Trio(at(0), at(1), at(2))
  }

  /** Core h of the pair is fault-free; it sees what the wrapper lets it see. */
  function StepBeside<S, I, B>(core: Core<S, I>, bus: Bus<B>, cfg: Config, h: nat, m: nat, k: nat, s: Single<S, B>,
                               c: Cycle<I>, third: Ports): Single<S, B>
    requires h < 3 && m < 3 && k < 3
  {
    var ports := AllPorts(cfg, Beside(h, m, k, PortsOf(core, s.core), c, third), c.late);
    var replies := bus.reply(s.bus, ports);
    Single(Advance(core, s.core, Reply(cfg, replies, c.lateReplies, c.isolated, h), c.intr), bus.next(s.bus, ports))
  }

  function BesideAfter<S, I, B>(core: Core<S, I>, bus: Bus<B>, cfg: Config, h: nat, m: nat, k: nat, s: Single<S, B>,
                                run: seq<(Cycle<I>, Ports)>): Single<S, B>
    requires h < 3 && m < 3 && k < 3
    decreases |run|
  {
    if run == [] then s
    else BesideAfter(core, bus, cfg, h, m, k, StepBeside(core, bus, cfg, h, m, k, s, run[0].0, run[0].1), run[1..])
  }

  /** In every cycle the faulty core of the pair shows nothing the bus could tell from the fault-free one. */
  ghost predicate NotSeenYet<S, I, B>(core: Core<S, I>, bus: Bus<B>, cfg: Config, h: nat, m: nat, k: nat,
                                      s: Single<S, B>, run: seq<(Cycle<I>, Ports)>)
    requires h < 3 && m < 3 && k < 3
    decreases |run|
  {
    run != [] ==>
      && SameSeen(run[0].0.faulty, PortsOf(core, s.core))
      && NotSeenYet(core, bus, cfg, h, m, k, StepBeside(core, bus, cfg, h, m, k, s, run[0].0, run[0].1), run[1..])
  }

  function Interrupts<I>(run: seq<(Cycle<I>, Ports)>): (cycles: seq<Cycle<I>>)
    ensures |cycles| == |run| && forall n :: 0 <= n < |run| ==> cycles[n] == run[n].0
  {
    seq(|run|, n requires 0 <= n < |run| => run[n].0)
  }

  lemma PortsBeside<S, I, B>(core: Core<S, I>, cfg: Config, h: nat, m: nat, k: nat, s: Single<S, B>, c: Cycle<I>,
                             third: Ports)
    requires m < 3 && k < 3 && (h == m || h == k) && Dual(cfg, m, k)
    ensures var p := PortsOf(core, s.core);
            var cores := Beside(h, m, k, p, c, third);
            var ports := AllPorts(cfg, cores, c.late);
            && (SameSeen(c.faulty, p) ==> AllSeenAlike(ports, OnlyPort(m, p)))
            && (!SameSeen(c.faulty, p) ==> ports == Trio(IDLE, IDLE, IDLE))
            && (Comparator(cfg, cores, c.late, m).error <==> !SameSeen(c.faulty, p))
  {
    hide AsSeen, AllPorts, Comparator;
    var p := PortsOf(core, s.core);
    var cores := Beside(h, m, k, p, c, third);
    DualIsPair(cfg, m, k);
    DualContains(cfg, m, k, cores, c.late);
    DualErrorIff(cfg, m, k, cores, c.late);
  }

  /**
   * One arbitrary core in the pair, master or not: up to its first visible difference the other core and the bus
   * have behaved as one fault-free core alone, and in the cycle of the difference, which is the first to
   * raise an error, nothing leaves the wrapper.
   */
  lemma {:induction false} DualStopsFirstDifference<S, I, B(!new)>(
      core: Core<S, I>, bus: Bus<B>, cfg: Config, h: nat, m: nat, k: nat, s: Single<S, B>,
      run: seq<(Cycle<I>, Ports)>, now: Cycle<I>, third: Ports)
    requires m < 3 && k < 3 && (h == m || h == k) && Dual(cfg, m, k) && Awake(cfg, h) && OnlySees(bus)
    requires NotSeenYet(core, bus, cfg, h, m, k, s, run)
    ensures var t := BesideAfter(core, bus, cfg, h, m, k, s, run);
            var p := PortsOf(core, t.core);
            var cores := Beside(h, m, k, p, now, third);
            && t == SingleAfter(core, bus, s, m, Interrupts(run))
            && (Comparator(cfg, cores, now.late, m).error <==> !SameSeen(now.faulty, p))
            && (Comparator(cfg, cores, now.late, m).error ==> AllPorts(cfg, cores, now.late) == Trio(IDLE, IDLE, IDLE))
    decreases |run|
  {
    hide Reply, AllPorts, Dual, Comparator, Awake, AsSeen, SameSeen, OnlyPort, Beside, AllSeenAlike;
    if run == [] {
      PortsBeside(core, cfg, h, m, k, s, now, third);
    } else {
      var c, other := run[0].0, run[0].1;
      PortsBeside(core, cfg, h, m, k, s, c, other);
      var seen := AllPorts(cfg, Beside(h, m, k, PortsOf(core, s.core), c, other), c.late);
      var alone := OnlyPort(m, PortsOf(core, s.core));
      assert bus.reply(s.bus, seen) == bus.reply(s.bus, alone) && bus.next(s.bus, seen) == bus.next(s.bus, alone);
      DualReplies(cfg, m, k, bus.reply(s.bus, alone), c.lateReplies, c.isolated, h);
      assert Interrupts(run)[1..] == Interrupts(run[1..]);
      DualStopsFirstDifference(core, bus, cfg, h, m, k, StepSingle(core, bus, s, m, c.intr), run[1..], now, third);
    }
  }

  // ---- single mode, and cores that are isolated ----

  /** With no voter and no dual mode each core has its own port, whoever is the master. */
  lemma SingleModeIsDirect(cfg: Config, cores: Trio<Ports>, late: Trio<Late>, bus: Trio<Replies>,
                           lateReplies: Trio<LateReplies>, isolated: Trio<Replies>, i: nat)
    requires i < 3 && !cfg.voter && !cfg.dual
    ensures AllPorts(cfg, cores, late) == cores
    ensures Awake(cfg, i) ==> Reply(cfg, bus, lateReplies, isolated, i) == bus.At(i)
  {
  }

  /** In delayed mode the ways back to the cores are cut but for the pair's: the third core is not answered at all. */
  lemma DelayedThirdIsCutOff(cfg: Config, m: nat, k: nat, bus: Trio<Replies>, late: Trio<LateReplies>,
                             isolated: Trio<Replies>, i: nat)
    requires m < 3 && k < 3 && i < 3 && OneHot(cfg.master, m) && cfg.dual && cfg.delayed && i != m && i != k
    requires Awake(cfg, i) && !cfg.pair.At(i)
    ensures Reply(cfg, bus, late, isolated, i) == NO_REPLIES
  {
    assert cfg.master.At(i) == (i == m);
  }

  /** An isolated core is answered by its own isolation logic, whatever the mode and the bus. */
  lemma AsleepSeesIsolation(cfg: Config, bus: Trio<Replies>, late: Trio<LateReplies>, isolated: Trio<Replies>, i: nat)
    requires i < 3 && !Awake(cfg, i)
    ensures Reply(cfg, bus, late, isolated, i) == isolated.At(i)
  {
  }
}
