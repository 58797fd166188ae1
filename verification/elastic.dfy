/** The elastic request register, and the chain of them that delays the requests of a core. */
module Elastic {
  import opened Obi

  // ---- one register, as a function of its old contents ----

  /** The register takes a request when it is empty, or when its own request leaves in the same cycle. */
  function GrantOut(source: Req, ff: Req, gnt: bool): bool {
    source.req && (!ff.req || gnt)
  }

  function Next(ff: Req, source: Req, gnt: bool, clear: bool): Req {
    if clear then Bubble(source)
    else if source.req then (if !ff.req || gnt then source else ff)
    else (if !ff.req || gnt then Bubble(source) else ff)
  }

  /** The register itself: five fields, each with its own load and clear. */
  class SngReg {
    var req: bool
    var we: bool
    var be: bv4
    var addr: bv32
    var wdata: bv32

    function Contents(): Req
      reads this
    {
      Req(req, we, be, addr, wdata)
    }

    constructor ()
      ensures Contents() == NO_REQ
    {
      req, we, be, addr, wdata := false, false, 0, 0, 0;
    }

    method Clock(source: Req, gnt: bool, clearPipeline: bool) returns (grantOut: bool)
      modifies this
      ensures Contents() == Next(old(Contents()), source, gnt, clearPipeline)
      ensures grantOut == GrantOut(source, old(Contents()), gnt)
    {
      grantOut := (source.req && !req) || (gnt && source.req);
      var load := (source.req && !req) || (source.req && gnt);
      var clear := (!source.req && gnt) || (!source.req && !req) || clearPipeline;
      if load { req := source.req; }
      if clear { req := false; }
      if load { addr := source.addr; }
      if clear { addr := source.addr; }
      if load { we := source.we; }
      if clear { we := false; }
      if load { wdata := source.wdata; }
      if clear { wdata := source.wdata; }
      if load { be := source.be; }
      if clear { be := source.be; }
    }
  }

  // ---- the chain: stage 0 is next to the core, the last stage faces the bus ----

  /** The grant that comes back to `source` through the stages ff. */
  function ChainGrant(source: Req, ff: seq<Req>, gnt: bool): bool
    decreases |ff|
  {
    if ff == [] then gnt else GrantOut(source, ff[0], ChainGrant(ff[0], ff[1..], gnt))
  }

  function StepChain(source: Req, ff: seq<Req>, gnt: bool, clear: bool): (next: seq<Req>)
    ensures |next| == |ff|
    decreases |ff|
  {
    if ff == [] then []
    else [Next(ff[0], source, ChainGrant(ff[0], ff[1..], gnt), clear)] + StepChain(ff[0], ff[1..], gnt, clear)
  }

  /** What stage i reads. */
  function Feeding(source: Req, ff: seq<Req>, i: nat): Req
    requires i <= |ff|
  {
    if i == 0 then source else ff[i - 1]
  }

  /** Stage by stage: what stage i becomes, and the grant it passes back. */
  lemma {:induction false} StepAt(source: Req, ff: seq<Req>, i: nat, gnt: bool, clear: bool)
    requires i < |ff|
    ensures var grant := ChainGrant(ff[i], ff[i + 1..], gnt);
            && ChainGrant(Feeding(source, ff, i), ff[i..], gnt) == GrantOut(Feeding(source, ff, i), ff[i], grant)
            && StepChain(source, ff, gnt, clear)[i] == Next(ff[i], Feeding(source, ff, i), grant, clear)
    decreases |ff|
  {
    assert ff[i..][1..] == ff[i + 1..];
    if i == 0 {
      assert ff[0..] == ff;
    } else {
      StepAt(ff[0], ff[1..], i - 1, gnt, clear);
      assert ff[1..][i - 1 + 1..] == ff[i + 1..];
    }
  }

  lemma EmptyChain(source: Req, gnt: bool)
    ensures ChainGrant(source, [], gnt) == gnt
  {
  }

  function If(r: Req, taken: bool): seq<Req> {
    if r.req && taken then [r] else []
  }

  /** The requests held by the stages, oldest first. */
  function InFlight(ff: seq<Req>): seq<Req> {
    if ff == [] then [] else InFlight(ff[1..]) + If(ff[0], true)
  }

  /** What the chain takes from the core in one cycle, and what it hands to the bus. */
  function Accepted(source: Req, ff: seq<Req>, gnt: bool): seq<Req> {
    If(source, ChainGrant(source, ff, gnt))
  }

  function Delivered(source: Req, ff: seq<Req>, gnt: bool): seq<Req> {
    If(if ff == [] then source else ff[|ff| - 1], gnt)
  }

  /** The core is granted exactly when it requests and some stage is empty or the bus grants. */
  lemma {:induction false} GrantedIff(source: Req, ff: seq<Req>, gnt: bool)
    requires ff != []
    ensures ChainGrant(source, ff, gnt) <==> source.req && (gnt || exists i :: 0 <= i < |ff| && !ff[i].req)
    decreases |ff|
  {
    if |ff| > 1 {
      GrantedIff(ff[0], ff[1..], gnt);
      if i :| 0 <= i < |ff| && !ff[i].req && i > 0 {
        assert ff[1..][i - 1] == ff[i];
      }
    }
  }

  /** In one cycle nothing is lost, duplicated or reordered. */
  lemma {:induction false} StepConserves(source: Req, ff: seq<Req>, gnt: bool)
    ensures Delivered(source, ff, gnt) + InFlight(StepChain(source, ff, gnt, false))
         == InFlight(ff) + Accepted(source, ff, gnt)
    decreases |ff|
  {
    if ff != [] {
      var head, tail := ff[0], ff[1..];
      StepConserves(head, tail, gnt);
      HeadConserves(source, head, ChainGrant(head, tail, gnt));
      assert Delivered(source, ff, gnt) == Delivered(head, tail, gnt);
      var next := StepChain(source, ff, gnt, false);
      assert next[1..] == StepChain(head, tail, gnt, false);
      Regroup(Delivered(head, tail, gnt), InFlight(next[1..]), If(next[0], true),
              InFlight(tail), Accepted(head, tail, gnt), If(head, true), Accepted(source, ff, gnt));
    }
  }

  lemma HeadConserves(source: Req, head: Req, gnt: bool)
    ensures If(head, gnt) + If(Next(head, source, gnt, false), true)
         == If(head, true) + If(source, GrantOut(source, head, gnt))
  {
  }

  lemma Regroup<T>(a: seq<T>, b: seq<T>, c: seq<T>, d: seq<T>, e: seq<T>, f: seq<T>, g: seq<T>)
    requires a + b == d + e && e + c == f + g
    ensures a + (b + c) == (d + f) + g
  {
    calc {
      a + (b + c);
      (a + b) + c;
      d + (e + c);
      (d + f) + g;
    }
  }

  lemma {:induction false} InFlightFits(ff: seq<Req>)
    ensures |InFlight(ff)| <= |ff|
    ensures (forall i :: 0 <= i < |ff| ==> !ff[i].req) ==> InFlight(ff) == []
  {
    if ff != [] { InFlightFits(ff[1..]); }
  }

  /** A request shown to the bus stays there, unchanged, until it is granted. */
  lemma {:induction false} PresentedUntilGranted(source: Req, ff: seq<Req>)
    requires ff != [] && ff[|ff| - 1].req
    ensures StepChain(source, ff, false, false)[|ff| - 1] == ff[|ff| - 1]
    decreases |ff|
  {
    if |ff| > 1 { PresentedUntilGranted(ff[0], ff[1..]); }
  }

  /** Clearing empties every stage at once. */
  lemma {:induction false} ClearEmpties(source: Req, ff: seq<Req>, gnt: bool)
    ensures InFlight(StepChain(source, ff, gnt, true)) == []
    ensures forall i :: 0 <= i < |ff| ==>
              StepChain(source, ff, gnt, true)[i] == Bubble(if i == 0 then source else ff[i - 1])
    decreases |ff|
  {
    if ff != [] { ClearEmpties(ff[0], ff[1..], gnt); }
  }

  /** While the bus takes what it is shown, every stage moves on and the core is granted at once. */
  lemma {:induction false} FlowingShifts(source: Req, ff: seq<Req>, gnt: bool)
    requires ff != [] && gnt == ff[|ff| - 1].req
    ensures forall i :: 0 <= i < |ff| ==>
              StepChain(source, ff, gnt, false)[i] == Quiet(if i == 0 then source else ff[i - 1])
    ensures ChainGrant(source, ff, gnt) == source.req
    decreases |ff|
  {
    if |ff| > 1 { FlowingShifts(ff[0], ff[1..], gnt); }
  }

  // ---- whole runs ----

  /** One cycle of stimulus: what the core shows and whether the bus grants. */
  datatype Cycle = Cycle(source: Req, gnt: bool)

  function RunChain(ff: seq<Req>, run: seq<Cycle>): (end: seq<Req>)
    ensures |end| == |ff|
    decreases |run|
  {
    if run == [] then ff else RunChain(StepChain(run[0].source, ff, run[0].gnt, false), run[1..])
  }

  function AllAccepted(ff: seq<Req>, run: seq<Cycle>): seq<Req>
    decreases |run|
  {
    if run == [] then []
    else Accepted(run[0].source, ff, run[0].gnt)
         + AllAccepted(StepChain(run[0].source, ff, run[0].gnt, false), run[1..])
  }

  function AllDelivered(ff: seq<Req>, run: seq<Cycle>): seq<Req>
    decreases |run|
  {
    if run == [] then []
    else Delivered(run[0].source, ff, run[0].gnt)
         + AllDelivered(StepChain(run[0].source, ff, run[0].gnt, false), run[1..])
  }

  /** Over any run: delivered, then still in flight, is what was in flight, then accepted, in that order. */
  lemma {:induction false} RunConserves(ff: seq<Req>, run: seq<Cycle>)
    ensures AllDelivered(ff, run) + InFlight(RunChain(ff, run)) == InFlight(ff) + AllAccepted(ff, run)
    decreases |run|
  {
    if run != [] {
      var source, gnt := run[0].source, run[0].gnt;
      var next := StepChain(source, ff, gnt, false);
      StepConserves(source, ff, gnt);
      RunConserves(next, run[1..]);
      Append4(Delivered(source, ff, gnt), AllDelivered(next, run[1..]), InFlight(RunChain(ff, run)),
              InFlight(next), AllAccepted(next, run[1..]), InFlight(ff), Accepted(source, ff, gnt));
    }
  }

  lemma Append4<T>(a: seq<T>, b: seq<T>, c: seq<T>, d: seq<T>, e: seq<T>, f: seq<T>, g: seq<T>)
    requires a + d == f + g && b + c == d + e
    ensures (a + b) + c == f + (g + e)
  {
    calc {
      (a + b) + c;
      a + (b + c);
      (a + d) + e;
      f + (g + e);
    }
  }

  /** From an empty chain, what was delivered is a prefix of what was accepted, at most a chain's length behind. */
  lemma {:induction false} FromReset(ff: seq<Req>, run: seq<Cycle>)
    requires InFlight(ff) == []
    ensures AllDelivered(ff, run) <= AllAccepted(ff, run)
    ensures |AllAccepted(ff, run)| - |AllDelivered(ff, run)| <= |ff|
  {
    RunConserves(ff, run);
    InFlightFits(RunChain(ff, run));
    assert [] + AllAccepted(ff, run) == AllAccepted(ff, run);
  }

  /** The chain of NDELAY registers, clocked together; a chain of one is the single register of a one-cycle delay. */
  class PipelinedDelay {
    const stages: seq<SngReg>

    ghost predicate Valid() {
      && stages != []
      && forall i, j :: 0 <= i < j < |stages| ==> stages[i] != stages[j]
    }

    ghost function Contents(): (ff: seq<Req>)
      reads stages
      ensures |ff| == |stages|
      ensures forall i :: 0 <= i < |ff| ==> ff[i] == stages[i].Contents()
    {
      seq(|stages|, i requires 0 <= i < |stages| reads stages => stages[i].Contents())
    }

    constructor (nDelay: nat)
      requires nDelay > 0
      ensures Valid() && |stages| == nDelay
      ensures fresh(stages)
      ensures InFlight(Contents()) == []
    {
      hide InFlight;
      var made: seq<SngReg> := [];
      while |made| < nDelay
        invariant |made| <= nDelay
        invariant fresh(made)
        invariant forall i, j :: 0 <= i < j < |made| ==> made[i] != made[j]
        invariant forall i :: 0 <= i < |made| ==> made[i].Contents() == NO_REQ
      {
        var stage := new SngReg();
        made := made + [stage];
      }
      stages := made;
      new;
      InFlightFits(Contents());
    }

    /** The stages are visited from the bus side, so that each reads its neighbour's old contents. */
    method Clock(source: Req, gnt: bool, clear: bool) returns (grantOut: bool)
      requires Valid()
      modifies stages
      ensures Contents() == StepChain(source, old(Contents()), gnt, clear)
      ensures grantOut == ChainGrant(source, old(Contents()), gnt)
    {
      hide StepChain, ChainGrant, Next, GrantOut, Contents, SngReg.Contents;
      ghost var was := Contents();
      ghost var next := StepChain(source, was, gnt, clear);
      assert was[|was|..] == [] && was[0..] == was;
      grantOut := gnt;
      assert grantOut == ChainGrant(Feeding(source, was, |was|), [], gnt) by { EmptyChain(was[|was| - 1], gnt); }
      var i := |stages|;
      while i > 0
        invariant 0 <= i <= |stages| == |was| == |next|
        invariant forall k :: 0 <= k < |stages| ==> stages[k].Contents() == if k < i then was[k] else next[k]
        invariant grantOut == ChainGrant(Feeding(source, was, i), was[i..], gnt)
      {
        i := i - 1;
        var before := if i == 0 then source else stages[i - 1].Contents();
        StepAt(source, was, i, gnt, clear);
        assert stages[i] in stages;
        grantOut := stages[i].Clock(before, grantOut, clear);
      }
      assert Contents() == next;
    }
  }
}
