/** The majority voter of triple mode and its checker. */
module TmrVoter {
  import opened Obi

  datatype Trio<T> = Trio(c0: T, c1: T, c2: T) {
    function At(i: nat): T
      requires i < 3
    {
      if i == 0 then c0 else if i == 1 then c1 else c2
    }
  }

  // ---- the majority, bit by bit ----

  function MajorityBit(x: bool, y: bool, z: bool): bool {
    (x && y) || (y && z) || (x && z)
  }

  function Majority4(x: bv4, y: bv4, z: bv4): bv4 {
    (x & y) | (y & z) | (x & z)
  }

  function Majority32(x: bv32, y: bv32, z: bv32): bv32 {
    (x & y) | (y & z) | (x & z)
  }

  function Vote(r: Trio<Req>): Req {
    var a, b, c := r.c0, r.c1, r.c2;
    Req(MajorityBit(a.req, b.req, c.req), MajorityBit(a.we, b.we, c.we), Majority4(a.be, b.be, c.be),
        Majority32(a.addr, b.addr, c.addr), Majority32(a.wdata, b.wdata, c.wdata))
  }

  lemma MajorityOfPair(v: bv32, w: bv32)
    ensures Majority32(v, v, w) == v
    ensures Majority32(v, w, v) == v
    ensures Majority32(w, v, v) == v
  {
    Absorb(v, w);
    assert v & w == w & v;
  }

  lemma Absorb(v: bv32, w: bv32)
    ensures v & v == v && v | (v & w) == v && (v & w) | v == v && (v & w) | (v & w) == v & w
  {
  }

  lemma MajorityOfPair4(v: bv4, w: bv4)
    ensures Majority4(v, v, w) == v
    ensures Majority4(v, w, v) == v
    ensures Majority4(w, v, v) == v
  {
  }

  lemma VotePair(r: Req, w: Req)
    ensures Vote(Trio(r, r, w)) == Vote(Trio(r, w, r)) == Vote(Trio(w, r, r)) == r
  {
    hide Majority32, Majority4;
    MajorityOfPair(r.addr, w.addr);
    MajorityOfPair(r.wdata, w.wdata);
    MajorityOfPair4(r.be, w.be);
  }

  /** All but possibly core f show r. */
  predicate AllBut(s: Trio<Req>, f: nat, r: Req) {
    forall i :: 0 <= i < 3 && i != f ==> s.At(i) == r
  }

  /** One core, whichever it is and whatever it shows, cannot change the vote. */
  lemma VoteMasks(s: Trio<Req>, f: nat, r: Req)
    requires f < 3 && AllBut(s, f, r)
    ensures Vote(s) == r
  {
    hide Vote;
    var w := s.At(f);
    VotePair(r, w);
    assert 0 == f || s.At(0) == r;
    assert 1 == f || s.At(1) == r;
    assert 2 == f || s.At(2) == r;
  }

  function Bit(v: bv32, n: bv6): bool
    requires n < 32
  {
    (v >> n) & 1 == 1
  }

  /** Each voted bit is the bit that at least two cores show. */
  lemma VotesBitwise(x: bv32, y: bv32, z: bv32, n: bv6)
    requires n < 32
    ensures Bit(Majority32(x, y, z), n) == MajorityBit(Bit(x, n), Bit(y, n), Bit(z, n))
  {
  }

  function Bit4(v: bv4, n: bv3): bool
    requires n < 4
  {
    (v >> n) & 1 == 1
  }

  lemma VotesLanes(x: bv4, y: bv4, z: bv4, n: bv3)
    requires n < 4
    ensures Bit4(Majority4(x, y, z), n) == MajorityBit(Bit4(x, n), Bit4(y, n), Bit4(z, n))
  {
  }

  // ---- the checker ----

  /** Core i shows something the bus could tell from the vote. */
  predicate Differs(s: Trio<Req>, i: nat)
    requires i < 3
  {
    AsSeen(s.At(i)) != AsSeen(Vote(s))
  }

  function Differing(s: Trio<Req>, enable: bool): Trio<bool> {
    Trio(enable && Differs(s, 0), enable && Differs(s, 1), enable && Differs(s, 2))
  }

  function Any(t: Trio<bool>): bool {
    t.c0 || t.c1 || t.c2
  }

  datatype Verdict = Verdict(error: bool, errorId: Trio<bool>)

  function Check(instr: Trio<Req>, data: Trio<Req>, enable: bool): Verdict {
    var i, d := Differing(instr, enable), Differing(data, enable);
    Verdict((Vote(instr).req && Any(i)) || (Vote(data).req && Any(d)),
            Trio(i.c0 || d.c0, i.c1 || d.c1, i.c2 || d.c2))
  }

  function Unlike(voted: Req, r: Req): bool {
    || (voted.addr != r.addr && r.req)
    || (voted.wdata != r.wdata && r.we)
    || voted.be != r.be
    || voted.we != r.we
    || voted.req != r.req
  }

  lemma UnlikeIsVisible(voted: Req, r: Req)
    ensures Unlike(voted, r) <==> AsSeen(r) != AsSeen(voted)
  {
  }

  /** One checker loop; the bits of the other bus in `error` keep their values. */
  method Mark(voted: Req, s: Trio<Req>, enable: bool, bus: array<bool>, error: array<bool>, offset: nat)
    requires bus.Length == 3 && error.Length == 6 && (offset == 0 || offset == 3) && bus != error
    requires voted == Vote(s)
    requires !bus[0] && !bus[1] && !bus[2]
    requires !error[offset] && !error[offset + 1] && !error[offset + 2]
    modifies bus, error
    ensures Trio(bus[0], bus[1], bus[2]) == Differing(s, enable)
    ensures Trio(error[offset], error[offset + 1], error[offset + 2]) == Differing(s, enable)
    ensures forall k :: 3 - offset <= k < 6 - offset ==> error[k] == old(error[k])
  {
    hide Vote, AsSeen, Unlike;
    for i := 0 to 3
      invariant forall k :: 0 <= k < 3 ==> bus[k] == error[offset + k]
      invariant forall k :: 0 <= k < 3 ==> bus[k] == (k < i && enable && Differs(s, k))
      invariant forall k :: 3 - offset <= k < 6 - offset ==> error[k] == old(error[k])
    {
      UnlikeIsVisible(voted, s.At(i));
      if Unlike(voted, s.At(i)) && enable {
        bus[i] := true;
        error[offset + i] := true;
      }
    }
  }

  /** The checker as coded: two loops that set the bits of three error vectors. */
  method Checker(instr: Trio<Req>, data: Trio<Req>, enable: bool) returns (error: bool, errorId: Trio<bool>)
    ensures Verdict(error, errorId) == Check(instr, data, enable)
  {
    hide Vote, Differs;
    var instrError, dataError := new bool[3](_ => false), new bool[3](_ => false);
    var errors := new bool[6](_ => false);
    var votedInstr, votedData := Vote(instr), Vote(data);
    Mark(votedInstr, instr, enable, instrError, errors, 0);
    Mark(votedData, data, enable, dataError, errors, 3);
    errorId := Trio(instrError[0] || dataError[0], instrError[1] || dataError[1], instrError[2] || dataError[2]);
    error := ((errors[0] || errors[1] || errors[2]) && votedInstr.req)
             || ((errors[3] || errors[4] || errors[5]) && votedData.req);
  }

  /** With two healthy cores only the third can be named, and it is named exactly when it visibly differs. */
  lemma BlamesTheFaulty(instr: Trio<Req>, data: Trio<Req>, f: nat, i: Req, d: Req)
    requires f < 3 && AllBut(instr, f, i) && AllBut(data, f, d)
    ensures var verdict := Check(instr, data, true);
            && (forall k :: 0 <= k < 3 ==>
                  verdict.errorId.At(k)
                      == (k == f && !(AsSeen(instr.At(f)) == AsSeen(i) && AsSeen(data.At(f)) == AsSeen(d))))
            && (verdict.error ==> verdict.errorId.At(f))
            && (verdict.error <==>
                  || (i.req && AsSeen(instr.At(f)) != AsSeen(i))
                  || (d.req && AsSeen(data.At(f)) != AsSeen(d)))
  {
    hide AsSeen, Vote, Differing;
    OnlyFaultyDiffers(instr, f, i);
    OnlyFaultyDiffers(data, f, d);
  }

  /** Switched off, as in dual and single mode, the checker names nobody and raises nothing. */
  lemma SwitchedOffIsSilent(instr: Trio<Req>, data: Trio<Req>)
    ensures Check(instr, data, false) == Verdict(false, Trio(false, false, false))
  {
  }

  lemma OnlyFaultyDiffers(s: Trio<Req>, f: nat, r: Req)
    requires f < 3 && AllBut(s, f, r)
    ensures Vote(s) == r
    ensures var seen := AsSeen(s.At(f)) != AsSeen(r);
            Differing(s, true) == Trio(seen && f == 0, seen && f == 1, seen && f == 2)
  {
    hide AsSeen, Vote;
    VoteMasks(s, f, r);
    assert 0 == f || s.At(0) == r;
    assert 1 == f || s.At(1) == r;
    assert 2 == f || s.At(2) == r;
  }

  /** No named core: all three ask the bus for the same thing, and the vote is what they ask for. */
  lemma SilenceMeansAgreement(instr: Trio<Req>, data: Trio<Req>)
    requires Check(instr, data, true).errorId == Trio(false, false, false)
    ensures forall k :: 0 <= k < 3 ==>
              AsSeen(instr.At(k)) == AsSeen(Vote(instr)) && AsSeen(data.At(k)) == AsSeen(Vote(data))
  {
  }
}
