/** The comparator of dual mode: purely combinational. */
module DmrComparator {
  import opened Obi

  function Mismatch(a: Req, b: Req): bool {
    || (a.addr != b.addr && a.req && b.req)
    || (a.wdata != b.wdata && a.we && b.we)
    || a.be != b.be
    || a.we != b.we
    || a.req != b.req
  }

  /** What one comparator emits for the instruction and data requests of its two cores. */
  datatype Compared = Compared(instr: Req, data: Req, error: bool)

  function Compare(instr0: Req, instr1: Req, data0: Req, data1: Req): Compared {
    if Mismatch(instr0, instr1) || Mismatch(data0, data1) then Compared(NO_REQ, NO_REQ, true)
    else Compared(instr0, data0, false)
  }

  /** The check fires exactly when the bus could tell the two requests apart. */
  lemma MismatchIsVisible(a: Req, b: Req)
    ensures Mismatch(a, b) <==> AsSeen(a) != AsSeen(b)
  {
  }

  /** Whatever leaves the comparator is what both cores asked for; otherwise nothing leaves it on either bus. */
  lemma ComparedContains(instr0: Req, instr1: Req, data0: Req, data1: Req)
    ensures var out := Compare(instr0, instr1, data0, data1);
            && (out.error <==> !(AsSeen(instr0) == AsSeen(instr1) && AsSeen(data0) == AsSeen(data1)))
            && (out.error ==> out.instr == NO_REQ && out.data == NO_REQ)
            && (!out.error ==> AsSeen(out.instr) == AsSeen(instr1) && AsSeen(out.data) == AsSeen(data1))
            && (out.instr.req ==> instr0.req && instr1.req && out.instr.addr == instr0.addr == instr1.addr)
            && (out.data.we ==> data0.we && data1.we && out.data.wdata == data0.wdata == data1.wdata)
  {
  }
}
