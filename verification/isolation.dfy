/** The stand-in bus of an isolated core: it answers fetches so that the core can fall asleep. */
module Isolation {
  import opened Obi

  /** instr_expected_rvalid and instr_isolate_valid_q of one core. */
  datatype Flops = Flops(expected: bool, valid: bool) {
    predicate Pending() {
      expected || valid
    }
  }

  /** One cycle: is the core isolated, does it request, and what does the real bus say? */
  datatype Cycle = Cycle(isolated: bool, req: bool, bus: Resp)

  /** The instruction an isolated core is fed: wait for interrupt. */
  const WFI: bv32 := 0x10500073

  /** The response the core sees. */
  function Seen(f: Flops, c: Cycle): Resp {
    if c.isolated then Resp(c.req, f.Pending(), WFI) else c.bus
  }

  function Next(f: Flops, c: Cycle): Flops {
    if c.isolated then Flops(false, c.req)
    else Flops((c.req && c.bus.gnt) || (f.expected && !c.bus.rvalid), false)
  }

  class IsolationPort {
    var expected: bool
    var valid: bool

    function Contents(): Flops
      reads this
    {
      Flops(expected, valid)
    }

    constructor ()
      ensures Contents() == Flops(false, false)
    {
      expected, valid := false, false;
    }

    method Clock(isolated: bool, req: bool, bus: Resp) returns (resp: Resp)
      modifies this
      ensures resp == Seen(old(Contents()), Cycle(isolated, req, bus))
      ensures Contents() == Next(old(Contents()), Cycle(isolated, req, bus))
    {
      var standIn := Resp(req, valid || expected, WFI);
      resp := if isolated then standIn else bus;
      if !isolated {
        valid := false;
        expected := (req && resp.gnt) || (expected && !resp.rvalid);
      } else {
        valid := standIn.gnt;
        expected := false;
      }
    }
  }

  // ---- runs from reset ----

  function After(run: seq<Cycle>): Flops {
    if run == [] then Flops(false, false) else Next(After(run[..|run| - 1]), run[|run| - 1])
  }

  function Granted(run: seq<Cycle>): nat {
    if run == [] then 0
    else
      var c := run[|run| - 1];
      Granted(run[..|run| - 1]) + if c.req && Seen(After(run[..|run| - 1]), c).gnt then 1 else 0
  }

  function Answered(run: seq<Cycle>): nat {
    if run == [] then 0
    else
      var c := run[|run| - 1];
      Answered(run[..|run| - 1]) + if Seen(After(run[..|run| - 1]), c).rvalid then 1 else 0
  }

  /** The privileged encoding of wait for interrupt: function 0x105 of the SYSTEM opcode 0x73, no operands. */
  predicate IsWfi(word: bv32) {
    word >> 20 == 0x105 && word & 0xF_FFFF == 0x73
  }

  /** An isolated core is granted every fetch at once, and answered in the next cycle with a wait for interrupt. */
  lemma FedWithWfi(run: seq<Cycle>, c: Cycle, next: Cycle)
    requires c.isolated && next.isolated
    ensures Seen(After(run), c).gnt == c.req
    ensures Seen(After(run + [c]), next).rvalid == c.req && IsWfi(Seen(After(run + [c]), next).rdata)
  {
    assert (run + [c])[..|run|] == run;
  }

  /** The real bus owes an answer: it granted a fetch of the core and has not answered yet, isolation or not. */
  predicate BusOwes(run: seq<Cycle>) {
    run != [] &&
    var c := run[|run| - 1];
    (!c.isolated && c.req && c.bus.gnt) || (BusOwes(run[..|run| - 1]) && !c.bus.rvalid)
  }

  /**
   * The surroundings keep the protocol: the core has one fetch outstanding at most, the bus
   * answers only what it owes, and it owes nothing when isolation ends.
   */
  predicate Legal(run: seq<Cycle>) {
    run == [] ||
    var before, c := run[..|run| - 1], run[|run| - 1];
    && Legal(before)
    && (c.req ==> Granted(before) == Answered(before) + if Seen(After(before), c).rvalid then 1 else 0)
    && (c.bus.rvalid ==> BusOwes(before))
    && (before != [] && before[|before| - 1].isolated && !c.isolated ==> !BusOwes(before))
  }

  /** Isolation ends right after a cycle in which the isolated core requested. */
  ghost predicate LeavesTooEarly(run: seq<Cycle>) {
    exists i :: 0 <= i < |run| - 1 && LeavesAt(run, i)
  }

  predicate LeavesAt(run: seq<Cycle>, i: nat)
    requires i < |run| - 1
  {
    run[i].isolated && run[i].req && !run[i + 1].isolated
  }

  lemma LeavesLater(run: seq<Cycle>)
    requires run != []
    ensures LeavesTooEarly(run) <==>
              LeavesTooEarly(run[..|run| - 1]) || (|run| > 1 && LeavesAt(run, |run| - 2))
  {
    var before := run[..|run| - 1];
    if i :| 0 <= i < |before| - 1 && LeavesAt(before, i) {
      assert LeavesAt(run, i);
    }
    if i :| 0 <= i < |run| - 1 && LeavesAt(run, i) && i != |run| - 2 {
      assert LeavesAt(before, i);
    }
  }

  ghost predicate Consistent(run: seq<Cycle>) {
    var f, owes := After(run), BusOwes(run);
    var isolated := run != [] && run[|run| - 1].isolated;
    if LeavesTooEarly(run) then
      Granted(run) == Answered(run) + 1 && !f.Pending() && (owes ==> isolated)
    else
      && Granted(run) == Answered(run) + (if f.Pending() then 1 else 0)
      && (if isolated then !f.expected && f.valid == run[|run| - 1].req else !f.valid && f.expected == owes)
  }

  lemma {:induction false} StaysConsistent(run: seq<Cycle>)
    requires Legal(run)
    ensures Consistent(run)
    decreases |run|
  {
    if run == [] {
      assert !LeavesTooEarly(run);
    } else {
      StaysConsistent(run[..|run| - 1]);
      LeavesLater(run);
    }
  }

  /**
   * Every granted fetch has been answered, except one that the flip-flops still remember: this holds
   * exactly of the runs that never end isolation right after a request. Otherwise one fetch is lost for good.
   */
  lemma FetchesAreAnswered(run: seq<Cycle>)
    requires Legal(run)
    ensures Granted(run) == Answered(run) + (if After(run).Pending() then 1 else 0) <==> !LeavesTooEarly(run)
    ensures Answered(run) <= Granted(run) <= Answered(run) + 1
    ensures LeavesTooEarly(run) ==> Granted(run) == Answered(run) + 1 && !After(run).Pending()
  {
    StaysConsistent(run);
  }

  /** The port alone does not prevent it: one fetch in the last isolated cycle is lost. */
  lemma LostFetch()
    ensures var quiet := Resp(false, false, 0);
            var run := [Cycle(true, true, quiet), Cycle(false, false, quiet)];
            Legal(run) && LeavesTooEarly(run) && Granted(run) == 1 && Answered(run) == 0
  {
    var quiet := Resp(false, false, 0);
    var c := Cycle(true, true, quiet);
    var run := [c, Cycle(false, false, quiet)];
    assert run[..1] == [c] && [c][..0] == [];
    assert LeavesAt(run, 0);
  }
}
