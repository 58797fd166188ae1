/** Isolation as the mode controller drives it. */
module IsolationControl {
  import opened Obi
  import Fsm = SafeFsm
  import Port = Isolation

  /** What hart i requests in one cycle, and what the real bus answers. */
  datatype Fetch = Fetch(req: bool, bus: Resp)

  /** The cycles that the isolation port of hart i sees while the controller runs from s. */
  function Cycles(s: Fsm.State, run: seq<Fsm.In>, fetches: seq<Fetch>, i: nat): (cycles: seq<Port.Cycle>)
    requires |run| == |fetches| && i < 3
    ensures |cycles| == |run|
  {
    seq(|run|, k requires 0 <= k < |run| =>
      Port.Cycle(Fsm.IsolatedHarts(Fsm.After(s, run[..k])).At(i), fetches[k].req, fetches[k].bus))
  }

  /** A hart that signals sleep requests nothing in that cycle. */
  predicate SleepsSilently(run: seq<Fsm.In>, fetches: seq<Fetch>, i: nat)
    requires |run| == |fetches| && i < 3
  {
    forall k :: 0 <= k < |run| ==> run[k].wfi.At(i) ==> !fetches[k].req
  }

  lemma IsolationEndsAsleep(s: Fsm.State, x: Fsm.In, i: nat)
    requires i < 3 && Fsm.IsolatedHarts(s).At(i) && !Fsm.IsolatedHarts(Fsm.Step(s, x)).At(i)
    ensures x.wfi.At(i)
  {
    hide Fsm.NextSafe, Fsm.NextSingle, Fsm.NextTmr, Fsm.NextDelay, Fsm.NextError;
  }

  /** Under the controller isolation never ends right after a request. */
  lemma NeverTooEarly(s: Fsm.State, run: seq<Fsm.In>, fetches: seq<Fetch>, i: nat)
    requires |run| == |fetches| && i < 3 && SleepsSilently(run, fetches, i)
    ensures !Port.LeavesTooEarly(Cycles(s, run, fetches, i))
  {
    hide Fsm.Step;
    var cycles := Cycles(s, run, fetches, i);
    forall k | 0 <= k < |cycles| - 1
      ensures !Port.LeavesAt(cycles, k)
    {
      assert run[..k + 1][..k] == run[..k];
      if cycles[k].isolated && !cycles[k + 1].isolated {
        IsolationEndsAsleep(Fsm.After(s, run[..k]), run[k], i);
      }
    }
  }

  /**
   * For every run of the controller, whatever its inputs, and every hart that sleeps silently: each granted
   * fetch has been answered once, or is remembered by the flip-flops to be answered.
   */
  lemma IsolationLosesNothing(s: Fsm.State, run: seq<Fsm.In>, fetches: seq<Fetch>, i: nat)
    requires |run| == |fetches| && i < 3 && SleepsSilently(run, fetches, i) && Port.Legal(Cycles(s, run, fetches, i))
    ensures var cycles := Cycles(s, run, fetches, i);
            Port.Granted(cycles) == Port.Answered(cycles) + (if Port.After(cycles).Pending() then 1 else 0)
  {
    hide Port.Granted, Port.Answered, Port.Legal, Port.After;
    NeverTooEarly(s, run, fetches, i);
    Port.FetchesAreAnswered(Cycles(s, run, fetches, i));
  }
}
