/** The request and response sides of the open bus interface that all the blocks below share. */
module Obi {
  datatype Req = Req(req: bool, we: bool, be: bv4, addr: bv32, wdata: bv32)

  datatype Resp = Resp(gnt: bool, rvalid: bool, rdata: bv32)

  /** The all-zero request a gated or unused port carries. */
  const NO_REQ := Req(false, false, 0, 0, 0)

  /** The instruction and data requests of one core. */
  datatype Ports = Ports(instr: Req, data: Req)

  /** A request that has been turned into a bubble keeps its payload, but neither requests nor writes. */
  function Bubble(r: Req): Req {
    r.(req := false, we := false)
  }

  /** A port that requests nothing must not show a write enable either. */
  function Quiet(r: Req): Req {
    if r.req then r else Bubble(r)
  }

  /**
   * What a request means to the bus: the address matters only when something is
   * requested, the write data only when something is written.
   */
  function AsSeen(r: Req): Req {
    r.(addr := if r.req then r.addr else 0, wdata := if r.we then r.wdata else 0)
  }

  /** The word r reads is the one at a. */
  predicate ReadsAt(r: Req, a: bv32) {
    r.req && !r.we && r.addr == a
  }

  /** The request writes v under the byte enables be into the word at a. */
  predicate WritesAt(r: Req, a: bv32, be: bv4, v: bv32) {
    r.req && r.we && r.addr == a && r.be == be && r.wdata == v
  }

  /**
   * Requests seen alike have the same effect on every word; and of two requests with the same kind and
   * byte enables only a requested address or a written value can make them look different.
   */
  lemma SeenAlikeMeans(r: Req, q: Req)
    ensures AsSeen(r) == AsSeen(q) ==>
              forall a, be, v :: ReadsAt(r, a) == ReadsAt(q, a) && WritesAt(r, a, be, v) == WritesAt(q, a, be, v)
    ensures r.req == q.req && r.we == q.we && r.be == q.be && AsSeen(r) != AsSeen(q) ==>
              (r.req && r.addr != q.addr) || (r.we && r.wdata != q.wdata)
  {
    if AsSeen(r) == AsSeen(q) {
      forall a, be, v
        ensures ReadsAt(r, a) == ReadsAt(q, a) && WritesAt(r, a, be, v) == WritesAt(q, a, be, v)
      {
        assert r.req == q.req && r.we == q.we && r.be == q.be;
        assert (r.req ==> r.addr == q.addr) && (r.we ==> r.wdata == q.wdata);
      }
    }
  }

  /** A deterministic core whose requests depend on its state alone; I stands for its interrupt and debug inputs. */
  datatype Core<!S, !I> = Core(instr: S -> Req, data: S -> Req, next: (S, Resp, Resp, I) -> S)

  /** What a core in state s shows. */
  function PortsOf<S, I>(core: Core<S, I>, s: S): Ports {
    Ports(core.instr(s), core.data(s))
  }
}
