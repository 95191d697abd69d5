/**
 Whether the handshake finishes: every run makes a bounded number of steps, and both ends of one
 connection are reported in every run that has come to rest exactly under a condition on the numbers.
 */
module HandshakeCompletion {
  import opened Handshake
  import opened HandshakeOutcome
  import opened HandshakeSymmetry

  /** Nothing more can happen: both peers have dialled and accepted, and no task reads on. */
  ghost predicate Settled(s: System) {
    forall step :: Next(s, step) == s
  }

  /** Both ends of the connection dialled by `owner` are reported, and no end of the other. */
  predicate Agreed(log: seq<Event>, owner: Party) {
    && HasReported(log, owner, Client) && HasReported(log, Other(owner), Server)
    && !HasReported(log, Other(owner), Client) && !HasReported(log, owner, Server)
  }

  /** Of the connection dialled by `p` exactly one end is reported. */
  predicate Half(log: seq<Event>, p: Party) {
    HasReported(log, p, Client) != HasReported(log, Other(p), Server)
  }

  // ---------------------------------------------------------------- every run comes to rest

  function Weight(m: Message): nat {
    if m.cmd.REQ? || m.cmd.OKSERVERREQ? || m.cmd.OKCLIENTREQ? then 2 else 1
  }

  function Load(box: seq<Message>): nat {
    if box == [] then 0 else Weight(box[0]) + Load(box[1..])
  }

  function TaskRank(t: Task): nat {
    (if t.checked then 0 else 2) + (if t.client.Absent? then 3 else 0) + (if t.server.Absent? then 1 else 0)
  }

  function LinkRank(l: Link): nat {
    Load(l.up) + Load(l.down)
  }

  /** What is still to be done at most; it falls with every step that changes anything. */
  function Rank(s: System): nat {
    TaskRank(s.a) + TaskRank(s.b) + LinkRank(s.byA) + LinkRank(s.byB)
  }

  lemma {:induction false} LoadMore(box: seq<Message>, m: Message)
    ensures Load(box + [m]) == Load(box) + Weight(m)
  {
    if box == [] {
      assert box + [m] == [m] && [m][1..] == [];
    } else {
      LoadMore(box[1..], m);
      assert (box + [m])[1..] == box[1..] + [m];
    }
  }

  lemma {:induction false} LoadLess(box: seq<Message>, k: nat)
    requires 0 < k <= |box|
    ensures Load(box[k..]) + Weight(box[0]) <= Load(box)
  {
    if k > 1 {
      LoadLess(box[1..], k - 1);
      assert box[1..][k - 1..] == box[k..];
    }
  }

  lemma SentRank(s: System, p: Party, side: Side, m: Message)
    ensures Rank(s.Sent(p, side, m)) == Rank(s) + Weight(m)
  {
    match (p, side)
    case (A, Client) => LoadMore(s.byA.up, m);
    case (B, Client) => LoadMore(s.byB.up, m);
    case (A, Server) => LoadMore(s.byB.down, m);
    case (B, Server) => LoadMore(s.byA.down, m);
  }

  /** The sum of what a list of effects sends. */
  function SentWeight(effects: seq<Effect>): nat {
    if effects == [] then 0 else (if effects[0].Send? then Weight(effects[0].msg) else 0) + SentWeight(effects[1..])
  }

  lemma {:induction false} PerformRank(s: System, p: Party, effects: seq<Effect>)
    ensures Rank(Perform(s, p, effects)) == Rank(s) + SentWeight(effects)
    decreases |effects|
  {
    if effects == [] {
    } else {
      var e := effects[0];
      if e.Send? { SentRank(s, p, e.side, e.msg); }
      PerformRank(PerformOne(s, p, e), p, effects[1..]);
    }
  }

  lemma {:induction false} SentWeightMore(effects: seq<Effect>, e: Effect)
    ensures SentWeight(effects + [e]) == SentWeight(effects) + if e.Send? then Weight(e.msg) else 0
  {
    if effects == [] {
      assert effects + [e] == [e];
    } else {
      SentWeightMore(effects[1..], e);
      assert (effects + [e])[1..] == effects[1..] + [e];
    }
  }

  /** A proposal costs the task its `checked` flag. */
  lemma CheckRank(t: Task)
    ensures var (u, sent) := Check(t); TaskRank(u) + SentWeight(sent) <= TaskRank(t)
  {
    var (u, sent) := Check(t);
    if sent != [] {
      assert sent == [] + [sent[0]];
      SentWeightMore([], sent[0]);
    }
  }

  /** A handler never sends more than the message it reads and its one proposal pay for. */
  lemma HandleRank(t: Task, side: Side, m: Message)
    requires Handle(t, side, m).Ran? && t.At(side).Present?
    ensures var o := Handle(t, side, m); TaskRank(o.task) + SentWeight(o.effects) < TaskRank(t) + Weight(m)
  {
    var o := Handle(t, side, m);
    if m.cmd.REQ? || m.cmd.ACK? {
      CheckRank(t);
      SentWeightMore(Check(t).1, Send(side, Message(ACK, t.selfnum)));
    } else if m.cmd.OKSERVERREQ? || m.cmd.OKCLIENTREQ? {
      assert o.effects == [] + [o.effects[0]] + [o.effects[1]];
      SentWeightMore([], o.effects[0]);
      SentWeightMore([] + [o.effects[0]], o.effects[1]);
    } else {
      assert o.effects == [] + [o.effects[0]];
      SentWeightMore([], o.effects[0]);
    }
  }

  lemma ReadRank(s: System, p: Party, side: Side, k: nat)
    requires CanRead(s, p, side, k) && Handle(s.Of(p), side, s.Inbox(p, side)[0]).Ran?
    ensures Rank(Next(s, Read(p, side, k))) < Rank(s)
  {
    var box := s.Inbox(p, side);
    var o := Handle(s.Of(p), side, box[0]);
    LoadLess(box, k);
    HandleRank(s.Of(p), side, box[0]);
    PerformRank(s.WithInbox(p, side, box[k..]).WithTask(p, o.task), p, o.effects);
  }

  lemma DialRank(s: System, p: Party, connected: bool)
    ensures Next(s, Dial(p, connected)) == s || Rank(Next(s, Dial(p, connected))) < Rank(s)
  {
    SentRank(s.WithTask(p, s.Of(p).(client := Present(true))), p, Client, Message(REQ, s.Of(p).selfnum));
  }

  lemma RankFalls(n: Numbers, s: System, step: Step)
    requires Inv(s, n) && Next(s, step) != s
    ensures Rank(Next(s, step)) < Rank(s)
  {
    match step
    case Dial(p, connected) => DialRank(s, p, connected);
    case Accept(p) =>
    case Read(p, side, k) =>
      ReadKeepsInv(s, n, p, side, k);
      ReadRank(s, p, side, k);
  }

  /** Both connections stand, and every socket still read from has an empty box. */
  predicate AtRest(s: System) {
    forall p, side :: s.Of(p).At(side).Present? && (s.Of(p).At(side) == Present(true) ==> s.Inbox(p, side) == [])
  }

  lemma AtRestSettles(s: System)
    requires AtRest(s)
    ensures Settled(s)
  {
    forall step ensures Next(s, step) == s {
      match step
      case Dial(p, connected) => assert s.Of(p).At(Client).Present?;
      case Accept(p) => assert s.Of(p).At(Server).Present?;
      case Read(p, side, k) =>
    }
  }

  lemma SettledIsAtRest(n: Numbers, s: System)
    requires Inv(s, n)
    ensures Settled(s) <==> AtRest(s)
  {
    if AtRest(s) {
      AtRestSettles(s);
    } else if Settled(s) {
      var p, side :| !(s.Of(p).At(side).Present? && (s.Of(p).At(side) == Present(true) ==> s.Inbox(p, side) == []));
      assert Next(s, Dial(A, true)) == s && Next(s, Dial(B, true)) == s;
      assert Next(s, Accept(A)) == s && Next(s, Accept(B)) == s;
      assert CanRead(s, p, side, 1);
      ReadKeepsInv(s, n, p, side, 1);
      ReadRank(s, p, side, 1);
    }
  }

  /** How many steps of a run changed anything. */
  function Moves(s: System, steps: seq<Step>): nat {
    if steps == [] then 0 else
    var front, last := steps[..|steps| - 1], steps[|steps| - 1];
    Moves(s, front) + if Next(Run(s, front), last) == Run(s, front) then 0 else 1
  }

  /** No run makes more than twelve steps, whatever is lost and however the peers interleave. */
  lemma {:induction false} MovesBounded(n: Numbers, steps: seq<Step>)
    ensures Moves(Start(n), steps) + Rank(Run(Start(n), steps)) <= 12
  {
    if steps == [] {
    } else {
      var front, last := steps[..|steps| - 1], steps[|steps| - 1];
      MovesBounded(n, front);
      Reachable(n, front);
      if Next(Run(Start(n), front), last) != Run(Start(n), front) {
        RankFalls(n, Run(Start(n), front), last);
      }
    }
  }

  // ---------------------------------------------------------------- the larger number wins

  /**
   Where a run stands when A's number is the larger and neither beats its initial one.  A
   connection is 0 not dialled, 1 dialled, 2 REQ read, 3 ACK read; `answer` counts A's proposal,
   B's report and A's report.
   */
  datatype Stage = Stage(byA: nat, acceptedByB: bool, byB: nat, acceptedByA: bool, answer: nat)

  predicate StageOk(g: Stage) {
    && g.byA <= 3 && g.byB <= 3 && g.answer <= 3
    && (g.acceptedByB ==> g.byA > 0) && (g.byA > 1 ==> g.acceptedByB)
    && (g.acceptedByA ==> g.byB > 0) && (g.byB > 1 ==> g.acceptedByA)
    && (g.answer > 0 <==> g.byA == 3 && g.byB >= 2)
  }

  function BoxIf(c: bool, m: Message): seq<Message> {
    if c then [m] else []
  }

  function OutcomeLog(): seq<Event> {
    [Proposed(A, Client), Reported(B, Server, OKSERVERREQ), Reported(A, Client, OKCLIENTACK)]
  }

  function TaskA(n: Numbers, g: Stage): Task {
    Task(n.a, if g.byA == 3 || g.byB >= 2 then n.b else n.oa, g.answer > 0,
         if g.byA == 0 then Absent else Present(g.answer < 3), if g.acceptedByA then Present(true) else Absent)
  }

  function TaskB(n: Numbers, g: Stage): Task {
    Task(n.b, if g.byA >= 2 || g.byB == 3 then n.a else n.ob, false,
         if g.byB == 0 then Absent else Present(true), if g.acceptedByB then Present(g.answer < 2) else Absent)
  }

  function LinkA(n: Numbers, g: Stage): Link {
    Link(BoxIf(g.byA == 1, Message(REQ, n.a)) + BoxIf(g.answer == 1, Message(OKSERVERREQ, 100)),
         BoxIf(g.byA == 2, Message(ACK, n.b)) + BoxIf(g.answer == 2, Message(OKCLIENTACK, 100)))
  }

  function LinkB(n: Numbers, g: Stage): Link {
    Link(BoxIf(g.byB == 1, Message(REQ, n.b)), BoxIf(g.byB == 2, Message(ACK, n.a)))
  }

  function At(n: Numbers, g: Stage): System
    requires StageOk(g)
  {
    System(TaskA(n, g), TaskB(n, g), LinkA(n, g), LinkB(n, g), OutcomeLog()[..g.answer], false)
  }

  /** The stage after both connections have come as far as `byA` and `byB`. */
  function Exchanged(g: Stage, byA: nat, byB: nat): Stage {
    g.(byA := byA, byB := byB, answer := if byA == 3 && byB >= 2 && g.answer == 0 then 1 else g.answer)
  }

  function Advance(g: Stage, step: Step): Stage {
    match step
    case Dial(p, connected) =>
      if !connected then g
      else if p.A? && g.byA == 0 then g.(byA := 1)
      else if p.B? && g.byB == 0 then g.(byB := 1)
      else g
    case Accept(p) =>
      if p.B? && g.byA > 0 then g.(acceptedByB := true)
      else if p.A? && g.byB > 0 then g.(acceptedByA := true)
      else g
    case Read(p, side, k) =>
      if k != 1 then g
      else if p.B? && side.Server? then
        if g.acceptedByB && g.byA == 1 then Exchanged(g, 2, g.byB)
        else if g.answer == 1 then g.(answer := 2) else g
      else if p.A? && side.Client? then
        if g.byA == 2 then Exchanged(g, 3, g.byB) else if g.answer == 2 then g.(answer := 3) else g
      else if p.A? then
        if g.acceptedByA && g.byB == 1 then Exchanged(g, g.byA, 2) else g
      else
        if g.byB == 2 then Exchanged(g, g.byA, 3) else g
  }

  /** The numbers under which the theorem below holds for A. */
  predicate AheadA(n: Numbers) {
    n.a > n.b && n.oa >= n.a && n.ob >= n.b
  }

  lemma DialAdvances(n: Numbers, g: Stage, p: Party, connected: bool)
    requires AheadA(n) && StageOk(g)
    ensures StageOk(Advance(g, Dial(p, connected)))
    ensures Next(At(n, g), Dial(p, connected)) == At(n, Advance(g, Dial(p, connected)))
  {
  }

  lemma AcceptAdvances(n: Numbers, g: Stage, p: Party)
    requires AheadA(n) && StageOk(g)
    ensures StageOk(Advance(g, Accept(p)))
    ensures Next(At(n, g), Accept(p)) == At(n, Advance(g, Accept(p)))
  {
  }

  lemma ServerBAdvances(n: Numbers, g: Stage, k: nat)
    requires AheadA(n) && StageOk(g)
    ensures StageOk(Advance(g, Read(B, Server, k)))
    ensures Next(At(n, g), Read(B, Server, k)) == At(n, Advance(g, Read(B, Server, k)))
  {
    var s := At(n, g);
    if CanRead(s, B, Server, k) {
      assert |s.byA.up| == 1 && s.byA.up[1..] == [];
      if g.byA == 1 {
        var ack := Send(Server, Message(ACK, n.b));
        assert Check(s.b) == (s.b, []) && [] + [ack] == [ack];
        PerformSingle(s.WithInbox(B, Server, []).WithTask(B, s.b.(othernum := n.a)), B, ack);
      } else {
        ReadProposal(s, B);
      }
    }
  }

  lemma ClientAAdvances(n: Numbers, g: Stage, k: nat)
    requires AheadA(n) && StageOk(g)
    ensures StageOk(Advance(g, Read(A, Client, k)))
    ensures Next(At(n, g), Read(A, Client, k)) == At(n, Advance(g, Read(A, Client, k)))
  {
    var s := At(n, g);
    if CanRead(s, A, Client, k) {
      assert |s.byA.down| == 1 && s.byA.down[1..] == [];
      if g.byA == 2 {
        ReadNumber(s, A, Client, n.b, k);
      } else {
        var d := s.WithInbox(A, Client, []).WithTask(A, s.a.(client := Present(false)));
        PerformSingle(d, A, Report(Client, OKCLIENTACK));
      }
    }
  }

  lemma ServerAAdvances(n: Numbers, g: Stage, k: nat)
    requires AheadA(n) && StageOk(g)
    ensures StageOk(Advance(g, Read(A, Server, k)))
    ensures Next(At(n, g), Read(A, Server, k)) == At(n, Advance(g, Read(A, Server, k)))
  {
    var s := At(n, g);
    if CanRead(s, A, Server, k) {
      assert |s.byB.up| == 1 && s.byB.up[1..] == [];
      if g.byA == 3 {
        ReadNumber(s, A, Server, n.b, k);
      } else {
        var ack := Send(Server, Message(ACK, n.a));
        assert Check(s.a) == (s.a, []) && [] + [ack] == [ack];
        PerformSingle(s.WithInbox(A, Server, []).WithTask(A, s.a.(othernum := n.b)), A, ack);
      }
    }
  }

  lemma ClientBAdvances(n: Numbers, g: Stage, k: nat)
    requires AheadA(n) && StageOk(g)
    ensures StageOk(Advance(g, Read(B, Client, k)))
    ensures Next(At(n, g), Read(B, Client, k)) == At(n, Advance(g, Read(B, Client, k)))
  {
    var s := At(n, g);
    if CanRead(s, B, Client, k) {
      assert |s.byB.down| == 1 && s.byB.down[1..] == [];
      ReadNumber(s, B, Client, n.a, k);
    }
  }

  /** Every state of every run stands at some stage; nothing is ever lost. */
  lemma {:induction false} Staged(n: Numbers, steps: seq<Step>) returns (g: Stage)
    requires AheadA(n)
    ensures StageOk(g) && Run(Start(n), steps) == At(n, g)
  {
    if steps == [] {
      g := Stage(0, false, 0, false, 0);
    } else {
      var before := Staged(n, steps[..|steps| - 1]);
      var last := steps[|steps| - 1];
      g := Advance(before, last);
      match last
      case Dial(p, connected) => DialAdvances(n, before, p, connected);
      case Accept(p) => AcceptAdvances(n, before, p);
      case Read(p, side, k) =>
        match (p, side)
        case (A, Client) => ClientAAdvances(n, before, k);
        case (A, Server) => ServerAAdvances(n, before, k);
        case (B, Client) => ClientBAdvances(n, before, k);
        case (B, Server) => ServerBAdvances(n, before, k);
    }
  }

  /** With A's number ahead, a settled run has reported exactly A's connection, at both ends. */
  lemma AheadAWins(n: Numbers, steps: seq<Step>)
    requires AheadA(n) && Settled(Run(Start(n), steps))
    ensures Run(Start(n), steps).log == OutcomeLog() && Agreed(OutcomeLog(), A)
  {
    var s := Run(Start(n), steps);
    var g := Staged(n, steps);
    Reachable(n, steps);
    SettledIsAtRest(n, s);
    assert s.Of(A).At(Client).Present? && s.Of(A).At(Server).Present?;
    assert s.Of(B).At(Client).Present? && s.Of(B).At(Server).Present?;
    assert g.byA == 3 && g.byB == 3 && g.answer == 3;
    OutcomeAgreed();
  }

  lemma OutcomeAgreed()
    ensures Agreed(OutcomeLog(), A)
  {
    assert OutcomeLog()[2] == Reported(A, Client, OKCLIENTACK) && OutcomeLog()[1] == Reported(B, Server, OKSERVERREQ);
  }

  lemma SwapSettled(s: System)
    requires Settled(s)
    ensures Settled(Swap(s))
  {
    forall step ensures Next(Swap(s), step) == Swap(s) {
      assert SwapStep(SwapStep(step)) == step;
      SwapNext(s, SwapStep(step));
    }
  }

  lemma SwapAgreed(log: seq<Event>, owner: Party)
    ensures Agreed(SwapLog(log), Other(owner)) <==> Agreed(log, owner)
  {
    SwapReported(log, owner, Client);
    SwapReported(log, owner, Server);
    SwapReported(log, Other(owner), Client);
    SwapReported(log, Other(owner), Server);
  }

  /**
   When no number beats its own initial one and the two differ, every run that has come to rest
   has reported both ends of the connection dialled by the larger number, and nothing else.
   */
  lemma LargerWins(n: Numbers, steps: seq<Step>)
    requires n.a != n.b && n.oa >= n.a && n.ob >= n.b && Settled(Run(Start(n), steps))
    ensures Agreed(Run(Start(n), steps).log, if n.a > n.b then A else B)
  {
    if n.a > n.b {
      AheadAWins(n, steps);
    } else {
      var s := Run(Start(n), steps);
      SwapRun(n, steps);
      SwapSettled(s);
      AheadAWins(SwapNumbers(n), SwapSteps(steps));
      SwapAgreed(s.log, B);
    }
  }

  // ---------------------------------------------------------------- the condition is exact

  /** B has read the REQ of A; it proposed if its number beats its initial one. */
  function ReadByB(n: Numbers): System {
    System(OpenTask(n.a, n.oa, false), OpenTask(n.b, n.a, n.b > n.ob),
           Link([], [Message(ACK, n.b)]), Link([Message(REQ, n.b)] + ProposalIf(n.b > n.ob), []),
           ProposedIf(n.b > n.ob, B), false)
  }

  /** A has read the REQ of B, losing what came with it, and has proposed in turn. */
  function ReadByA(n: Numbers): System {
    System(OpenTask(n.a, n.b, true), OpenTask(n.b, n.a, n.b > n.ob),
           Link([Message(OKSERVERREQ, 100)], [Message(ACK, n.b)]), Link([], [Message(ACK, n.a)]),
           ProposedIf(n.b > n.ob, B) + [Proposed(A, Client)], false)
  }

  /** B has reported and answered; its answer stands behind the ACK that A has yet to read. */
  function ReportedByB(n: Numbers): System {
    System(OpenTask(n.a, n.b, true), OpenTask(n.b, n.a, n.b > n.ob).(server := Present(false)),
           Link([], [Message(ACK, n.b), Message(OKCLIENTACK, 100)]), Link([], [Message(ACK, n.a)]),
           ProposedIf(n.b > n.ob, B) + [Proposed(A, Client), Reported(B, Server, OKSERVERREQ)], false)
  }

  /** A has read the ACK together with the answer, which is lost. */
  function AnswerLost(n: Numbers): System {
    ReportedByB(n).(byA := Link([], []))
  }

  lemma ReadByBNext(n: Numbers)
    ensures Next(Connected(n), Read(B, Server, 1)) == ReadByB(n)
  {
    ReadNumber(Connected(n), B, Server, n.a, 1);
  }

  lemma ReadByANext(n: Numbers)
    requires n.a > n.oa
    ensures Next(ReadByB(n), Read(A, Server, |ReadByB(n).byB.up|)) == ReadByA(n)
  {
    ReadNumber(ReadByB(n), A, Server, n.b, |ReadByB(n).byB.up|);
  }

  lemma ReportedByBNext(n: Numbers)
    ensures Next(ReadByA(n), Read(B, Server, 1)) == ReportedByB(n)
  {
    ReadProposal(ReadByA(n), B);
  }

  lemma AnswerLostNext(n: Numbers)
    ensures Next(ReportedByB(n), Read(A, Client, 2)) == AnswerLost(n)
  {
    ReadNumber(ReportedByB(n), A, Client, n.b, 2);
  }

  lemma AnswerLostReached(n: Numbers)
    requires n.a > n.oa
    ensures Reaches(true, n, AnswerLost(n))
  {
    ConnectedReached(n);
    ReadByBNext(n);
    ReachesNext(true, n, Connected(n), Read(B, Server, 1));
    ReadByANext(n);
    ReachesNext(true, n, ReadByB(n), Read(A, Server, |ReadByB(n).byB.up|));
    ReportedByBNext(n);
    ReachesNext(true, n, ReadByA(n), Read(B, Server, 1));
    AnswerLostNext(n);
    ReachesNext(true, n, ReportedByB(n), Read(A, Client, 2));
  }

  /** B has read the last ACK, and proposes its own connection if it has not done so and is ahead. */
  function LastAck(n: Numbers): System {
    var late := n.b > n.a && n.b <= n.ob;
    var s := AnswerLost(n);
    s.(b := s.b.(checked := s.b.checked || late), byB := Link(ProposalIf(late), []), log := s.log + ProposedIf(late, B))
  }

  lemma LastAckNext(n: Numbers)
    ensures Next(AnswerLost(n), Read(B, Client, 1)) == LastAck(n)
  {
    ReadNumber(AnswerLost(n), B, Client, n.a, 1);
    assert AnswerLost(n).log + [] == AnswerLost(n).log;
  }

  /** A has reported the connection of B, and B has read the answer. */
  function BothReported(n: Numbers): System {
    var s := LastAck(n);
    s.(a := s.a.(server := Present(false)), b := s.b.(client := Present(false)), byB := Link([], []),
       log := s.log + [Reported(A, Server, OKSERVERREQ)] + [Reported(B, Client, OKCLIENTACK)])
  }

  lemma BothReportedReached(n: Numbers)
    requires n.b > n.a && n.b <= n.ob && Reaches(true, n, LastAck(n))
    ensures Reaches(true, n, BothReported(n))
  {
    var s := LastAck(n);
    ReadProposal(s, A);
    var t := Next(s, Read(A, Server, 1));
    ReachesNext(true, n, s, Read(A, Server, 1));
    assert t.byB.down == [Message(OKCLIENTACK, 100)] && t.byB.down[1..] == [];
    var d := t.WithInbox(B, Client, []).WithTask(B, t.b.(client := Present(false)));
    PerformSingle(d, B, Report(Client, OKCLIENTACK));
    ReachesNext(true, n, t, Read(B, Client, 1));
    assert Next(t, Read(B, Client, 1)) == BothReported(n);
  }

  /** Where the run that loses the answer comes to rest. */
  function HalfEnd(n: Numbers): System {
    if n.b > n.a && n.b <= n.ob then BothReported(n) else LastAck(n)
  }

  lemma HalfEndIsHalf(n: Numbers)
    ensures AtRest(HalfEnd(n)) && Half(HalfEnd(n).log, A)
  {
    var log := HalfEnd(n).log;
    assert Reported(B, Server, OKSERVERREQ) in AnswerLost(n).log;
    assert Reported(B, Server, OKSERVERREQ) in log;
    assert !HasReported(log, A, Client);
  }

  lemma HalfReached(n: Numbers) returns (steps: seq<Step>)
    requires n.a > n.oa
    ensures Settled(Run(Start(n), steps)) && Half(Run(Start(n), steps).log, A)
  {
    AnswerLostReached(n);
    LastAckNext(n);
    ReachesNext(true, n, AnswerLost(n), Read(B, Client, 1));
    if n.b > n.a && n.b <= n.ob {
      BothReportedReached(n);
    }
    steps :| Run(Start(n), steps) == HalfEnd(n);
    HalfEndIsHalf(n);
    Reachable(n, steps);
    SettledIsAtRest(n, HalfEnd(n));
  }

  /** A number that beats its own initial one lets the loss of an answer leave one end unreported. */
  lemma HalfReachedBy(n: Numbers, p: Party) returns (steps: seq<Step>)
    requires n.Self(p) > n.Initial(p)
    ensures Settled(Run(Start(n), steps)) && Half(Run(Start(n), steps).log, p)
  {
    if p.A? {
      steps := HalfReached(n);
    } else {
      var swapped := HalfReached(SwapNumbers(n));
      steps := SwapSteps(swapped);
      var s := Run(Start(SwapNumbers(n)), swapped);
      SwapRun(SwapNumbers(n), swapped);
      SwapSettled(s);
      SwapReported(s.log, A, Client);
      SwapReported(s.log, B, Server);
    }
  }

  /** Equal numbers that beat neither initial one come to rest without a report. */
  lemma EqualNumbersRest(n: Numbers) returns (steps: seq<Step>)
    requires !n.MayPropose(A) && !n.MayPropose(B)
    ensures Settled(Run(Start(n), steps)) && !AnyReport(Run(Start(n), steps).log)
  {
    var log := AcknowledgedReached(n);
    steps :| Run(Start(n), steps) == Acknowledged(n, log);
    Reachable(n, steps);
    SettledIsAtRest(n, Acknowledged(n, log));
    NoProposerNoReport(n, steps);
  }

  lemma NoProposerNoReport(n: Numbers, steps: seq<Step>)
    requires !n.MayPropose(A) && !n.MayPropose(B)
    ensures !AnyReport(Run(Start(n), steps).log)
  {
    Reachable(n, steps);
    var log := Run(Start(n), steps).log;
    ProposedCounts(log, A);
    ProposedCounts(log, B);
    assert forall p, side :: !HasReported(log, p, side);
  }

  /** The run `steps` has come to rest without agreement on one connection. */
  ghost predicate Fails(n: Numbers, steps: seq<Step>) {
    var s := Run(Start(n), steps);
    Settled(s) && !Agreed(s.log, A) && !Agreed(s.log, B)
  }

  /**
   The handshake completes exactly when the two numbers differ and neither beats its own initial
   one: every run that has come to rest has reported both ends of one connection, and only these.
   */
  lemma CompletesExactly(n: Numbers)
    ensures (forall steps :: !Fails(n, steps)) <==> n.a != n.b && n.oa >= n.a && n.ob >= n.b
  {
    if n.a > n.oa || n.b > n.ob {
      var p := if n.a > n.oa then A else B;
      var steps := HalfReachedBy(n, p);
      assert Fails(n, steps);
    } else if n.a == n.b {
      var steps := EqualNumbersRest(n);
      assert Fails(n, steps);
    } else {
      forall steps ensures !Fails(n, steps) {
        if Settled(Run(Start(n), steps)) { LargerWins(n, steps); }
      }
    }
  }

  /** The run `steps` has come to rest with a connection reported at one end only. */
  ghost predicate HalfReported(n: Numbers, steps: seq<Step>) {
    var s := Run(Start(n), steps);
    Settled(s) && (Half(s.log, A) || Half(s.log, B))
  }

  /**
   Some run leaves one end of a reported connection unreported for ever exactly when a number
   beats its own initial one.
   */
  lemma HalfReportedExactly(n: Numbers)
    ensures (exists steps :: HalfReported(n, steps)) <==> n.a > n.oa || n.b > n.ob
  {
    if n.a > n.oa || n.b > n.ob {
      var p := if n.a > n.oa then A else B;
      var steps := HalfReachedBy(n, p);
      assert HalfReported(n, steps);
    } else {
      forall steps ensures !HalfReported(n, steps) {
        if n.a == n.b {
          NoProposerNoReport(n, steps);
        } else if Settled(Run(Start(n), steps)) {
          LargerWins(n, steps);
        }
      }
    }
  }

  lemma RunOneMore(n: Numbers, steps: seq<Step>, step: Step)
    ensures Run(Start(n), steps + [step]) == Next(Run(Start(n), steps), step)
  {
    assert (steps + [step])[..|steps|] == steps;
  }

  /** Every run can be continued until it comes to rest. */
  lemma {:induction false} ComesToRest(n: Numbers, steps: seq<Step>) returns (more: seq<Step>)
    ensures Settled(Run(Start(n), steps + more))
    decreases Rank(Run(Start(n), steps))
  {
    var s := Run(Start(n), steps);
    if step :| Next(s, step) != s {
      Reachable(n, steps);
      RankFalls(n, s, step);
      RunOneMore(n, steps, step);
      var rest := ComesToRest(n, steps + [step]);
      more := [step] + rest;
      assert steps + more == (steps + [step]) + rest;
    } else {
      more := [];
      assert steps + more == steps;
    }
  }
}
