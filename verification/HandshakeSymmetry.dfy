/** The two peers play the same role: exchanging them maps every run to a run. */
module HandshakeSymmetry {
  import opened Handshake
  import opened HandshakeOutcome

  function SwapEvent(e: Event): Event {
    match e
    case Proposed(p, side) => Proposed(Other(p), side)
    case Reported(p, side, cause) => Reported(Other(p), side, cause)
  }

  function SwapLog(log: seq<Event>): seq<Event> {
    seq(|log|, i requires 0 <= i < |log| => SwapEvent(log[i]))
  }

  function Swap(s: System): System {
    System(s.b, s.a, s.byB, s.byA, SwapLog(s.log), s.crashed)
  }

  function SwapStep(step: Step): Step {
    match step
    case Dial(p, connected) => Dial(Other(p), connected)
    case Accept(p) => Accept(Other(p))
    case Read(p, side, k) => Read(Other(p), side, k)
  }

  function SwapSteps(steps: seq<Step>): seq<Step> {
    seq(|steps|, i requires 0 <= i < |steps| => SwapStep(steps[i]))
  }

  function SwapNumbers(n: Numbers): Numbers {
    Numbers(n.b, n.ob, n.a, n.oa)
  }

  lemma SwapLogAppend(x: seq<Event>, y: seq<Event>)
    ensures SwapLog(x + y) == SwapLog(x) + SwapLog(y)
  {
  }

  lemma SwapOne(s: System, p: Party, e: Effect)
    ensures PerformOne(Swap(s), Other(p), e) == Swap(PerformOne(s, p, e))
  {
    SwapLogAppend(s.log, Events(p, e));
    assert SwapLog(Events(p, e)) == Events(Other(p), e);
  }

  lemma {:induction false} SwapPerform(s: System, p: Party, effects: seq<Effect>)
    ensures Perform(Swap(s), Other(p), effects) == Swap(Perform(s, p, effects))
    decreases |effects|
  {
    if effects == [] {
    } else {
      SwapOne(s, p, effects[0]);
      SwapPerform(PerformOne(s, p, effects[0]), p, effects[1..]);
    }
  }

  lemma SwapNext(s: System, step: Step)
    ensures Next(Swap(s), SwapStep(step)) == Swap(Next(s, step))
  {
    match step
    case Dial(p, connected) =>
    case Accept(p) =>
    case Read(p, side, k) =>
      if CanRead(s, p, side, k) {
        var o := Handle(s.Of(p), side, s.Inbox(p, side)[0]);
        if o.Ran? {
          SwapPerform(s.WithInbox(p, side, s.Inbox(p, side)[k..]).WithTask(p, o.task), p, o.effects);
        }
      }
  }

  /** Running the exchanged steps from the exchanged start ends in the exchanged state. */
  lemma {:induction false} SwapRun(n: Numbers, steps: seq<Step>)
    ensures Run(Start(SwapNumbers(n)), SwapSteps(steps)) == Swap(Run(Start(n), steps))
  {
    if steps == [] {
      assert SwapLog([]) == [];
    } else {
      var front, last := steps[..|steps| - 1], steps[|steps| - 1];
      SwapRun(n, front);
      SwapNext(Run(Start(n), front), last);
      assert SwapSteps(steps)[..|steps| - 1] == SwapSteps(front);
    }
  }

  lemma SwapReported(log: seq<Event>, p: Party, side: Side)
    ensures HasReported(SwapLog(log), Other(p), side) <==> HasReported(log, p, side)
  {
    if HasReported(log, p, side) {
      var i :| 0 <= i < |log| && log[i].Reported? && log[i].party == p && log[i].side == side;
      assert SwapLog(log)[i] in SwapLog(log);
    }
    if HasReported(SwapLog(log), Other(p), side) {
      var e :| e in SwapLog(log) && e.Reported? && e.party == Other(p) && e.side == side;
      var i :| 0 <= i < |log| && SwapLog(log)[i] == e;
      assert log[i] in log;
    }
  }
}
