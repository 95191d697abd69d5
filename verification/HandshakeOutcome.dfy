/** What the handshake guarantees over every run, and exactly when it selects a single connection. */
module HandshakeOutcome {
  import opened Handshake

  function Start(n: Numbers): System {
    Init(n.a, n.oa, n.b, n.ob)
  }

  // ---------------------------------------------------------------- safety of every run

  /** Each direction carries only its own commands, and no handler dereferences a null socket. */
  lemma ChannelsTyped(n: Numbers, steps: seq<Step>, p: Party)
    ensures var s := Run(Start(n), steps);
            && !s.crashed
            && (forall m :: m in s.DialledBy(p).up ==>
                  m.num == if m.cmd == REQ then n.Self(p) else 100)
            && (forall m :: m in s.DialledBy(p).up ==> m.cmd in {REQ, OKSERVERREQ, OKSERVERACK})
            && (forall m :: m in s.DialledBy(p).down ==>
                  m.num == if m.cmd == ACK then n.Self(Other(p)) else 100)
            && (forall m :: m in s.DialledBy(p).down ==> m.cmd in {ACK, OKCLIENTREQ, OKCLIENTACK})
  {
    Reachable(n, steps);
  }

  /** A task that is asked to read never dereferences a null socket, whatever it reads. */
  lemma HandlersRun(n: Numbers, steps: seq<Step>, p: Party, side: Side, k: nat)
    requires CanRead(Run(Start(n), steps), p, side, k)
    ensures var s := Run(Start(n), steps); Handle(s.Of(p), side, s.Inbox(p, side)[0]).Ran?
  {
    Reachable(n, steps);
    ReadKeepsInv(Run(Start(n), steps), n, p, side, k);
  }

  /** A report caused by an answer never comes before the report of the connection's other end. */
  lemma ReportsAgree(n: Numbers, steps: seq<Step>, i: nat)
    requires i < |Run(Start(n), steps).log|
    ensures var log := Run(Start(n), steps).log;
            AnswersReport(log[i]) ==> HasReported(log[..i], Other(log[i].party), Opposite(log[i].side))
  {
    Reachable(n, steps);
  }

  /** Every answer still in flight was sent by an end that has already reported. */
  lemma AnswersInFlight(n: Numbers, steps: seq<Step>, p: Party, m: Message)
    ensures var s := Run(Start(n), steps);
            && (m in s.DialledBy(p).up && m.cmd == OKSERVERACK ==> HasReported(s.log, p, Client))
            && (m in s.DialledBy(p).down && m.cmd == OKCLIENTACK ==> HasReported(s.log, Other(p), Server))
  {
    Reachable(n, steps);
  }

  /** A task proposes at most once, and each end of a connection is reported at most once. */
  lemma AtMostOnce(n: Numbers, steps: seq<Step>, p: Party, side: Side)
    ensures var log := Run(Start(n), steps).log; Proposals(log, p) <= 1 && Reports(log, p, side) <= 1
  {
    Reachable(n, steps);
  }

  // ---------------------------------------------------------------- who proposes

  lemma {:induction false} ProposedCounts(log: seq<Event>, p: Party)
    ensures Proposals(log, p) == 0 <==> !HasProposed(log, p, Client) && !HasProposed(log, p, Server)
    ensures HasProposed(log, p, Client) && HasProposed(log, p, Server) ==> Proposals(log, p) >= 2
  {
    if log == [] {
    } else {
      var front, e := log[..|log| - 1], log[|log| - 1];
      assert log == front + [e];
      ProposedCounts(front, p);
      LogGrows(front, e);
      if e.Proposed? && e.party == p {
        match e.side
        case Client => assert e == Proposed(p, Client);
        case Server => assert e == Proposed(p, Server);
      }
    }
  }

  /** Only a task whose number beats its initial `othernum` or the peer's number ever proposes. */
  lemma ProposerBeats(n: Numbers, steps: seq<Step>, p: Party)
    ensures Proposals(Run(Start(n), steps).log, p) > 0 ==> n.MayPropose(p)
  {
    Reachable(n, steps);
  }

  /** Both tasks can come to propose. */
  predicate Clash(n: Numbers) {
    n.MayPropose(A) && n.MayPropose(B)
  }

  /** All reports, of both peers, name one and the same connection. */
  predicate SelectsOne(log: seq<Event>) {
    forall e, f :: e in log && f in log && e.Reported? && f.Reported? ==>
      Owner(e.party, e.side) == Owner(f.party, f.side)
  }

  lemma OneProposer(n: Numbers, steps: seq<Step>)
    requires !Clash(n)
    ensures var log := Run(Start(n), steps).log; Proposals(log, A) + Proposals(log, B) <= 1
    ensures SelectsOne(Run(Start(n), steps).log)
  {
    Reachable(n, steps);
    var log := Run(Start(n), steps).log;
    ProposedCounts(log, A);
    ProposedCounts(log, B);
    forall e, f | e in log && f in log && e.Reported? && f.Reported?
      ensures Owner(e.party, e.side) == Owner(f.party, f.side)
    {
      assert HasReported(log, e.party, e.side) && HasReported(log, f.party, f.side);
      assert Proposal(log, Owner(e.party, e.side)) && Proposal(log, Owner(f.party, f.side));
    }
  }

  /** With both initial numbers at least the owners' own, one task at most proposes; with equal numbers, none. */
  lemma LargeInitialNumbers(n: Numbers, steps: seq<Step>)
    requires n.oa >= n.a && n.ob >= n.b
    ensures var log := Run(Start(n), steps).log;
            && SelectsOne(log)
            && Proposals(log, A) + Proposals(log, B) <= 1
            && (n.a == n.b ==> Proposals(log, A) == 0 && Proposals(log, B) == 0)
  {
    OneProposer(n, steps);
    ProposerBeats(n, steps, A);
    ProposerBeats(n, steps, B);
  }

  // ---------------------------------------------------------------- the condition is exact

  predicate OnlyADials(steps: seq<Step>) {
    forall i, c :: 0 <= i < |steps| ==> steps[i] != Dial(B, c)
  }

  /** Some run of the two tasks ends in `s`; without `both`, a run in which only A dials. */
  ghost predicate Reaches(both: bool, n: Numbers, s: System) {
    exists steps :: (both || OnlyADials(steps)) && Run(Start(n), steps) == s
  }

  lemma ReachesStart(both: bool, n: Numbers)
    ensures Reaches(both, n, Start(n))
  {
    assert OnlyADials([]) && Run(Start(n), []) == Start(n);
  }

  lemma ReachesNext(both: bool, n: Numbers, s: System, step: Step)
    requires Reaches(both, n, s)
    requires both || forall c :: step != Dial(B, c)
    ensures Reaches(both, n, Next(s, step))
  {
    var steps :| (both || OnlyADials(steps)) && Run(Start(n), steps) == s;
    var longer := steps + [step];
    assert longer[..|steps|] == steps;
    assert both || OnlyADials(longer);
    assert Run(Start(n), longer) == Next(s, step);
  }

  /** Both peers have dialled and accepted, and both REQs wait to be read. */
  function Connected(n: Numbers): System {
    System(Task(n.a, n.oa, false, Present(true), Present(true)), Task(n.b, n.ob, false, Present(true), Present(true)),
           Link([Message(REQ, n.a)], []), Link([Message(REQ, n.b)], []), [], false)
  }

  lemma ConnectedReached(n: Numbers)
    ensures Reaches(true, n, Connected(n))
  {
    var s0 := Start(n);
    var s1 := Next(s0, Dial(A, true));
    var s2 := Next(s1, Dial(B, true));
    var s3 := Next(s2, Accept(A));
    ReachesStart(true, n);
    ReachesNext(true, n, s0, Dial(A, true));
    ReachesNext(true, n, s1, Dial(B, true));
    ReachesNext(true, n, s2, Accept(A));
    ReachesNext(true, n, s3, Accept(B));
  }

  function OpenTask(self: nat, other: nat, checked: bool): Task {
    Task(self, other, checked, Present(true), Present(true))
  }

  function ProposalIf(c: bool): seq<Message> {
    if c then [Message(OKSERVERREQ, 100)] else []
  }

  function ProposedIf(c: bool, p: Party): seq<Event> {
    if c then [Proposed(p, Client)] else []
  }

  /** Reading a REQ or ACK once the own connection is dialled, spelled out. */
  lemma ReadNumber(s: System, p: Party, side: Side, num: nat, k: nat)
    requires s.Of(p).client.Present? && s.Of(p).At(side) == Present(true)
    requires 0 < k <= |s.Inbox(p, side)| && s.Inbox(p, side)[0] == Message(if side.Client? then ACK else REQ, num)
    ensures var t := s.Of(p);
            var beats := t.selfnum > t.othernum;
            var d := s.WithInbox(p, side, s.Inbox(p, side)[k..])
                     .WithTask(p, t.(othernum := num, checked := t.checked || beats));
            var e := if beats && !t.checked then PerformOne(d, p, Send(Client, Message(OKSERVERREQ, 100))) else d;
            Next(s, Read(p, side, k))
              == if side.Client? then e else PerformOne(e, p, Send(Server, Message(ACK, t.selfnum)))
  {
    var t := s.Of(p);
    var (u, sent) := Check(t);
    var d := s.WithInbox(p, side, s.Inbox(p, side)[k..]).WithTask(p, u.(othernum := num));
    if sent != [] {
      assert sent == [Send(Client, Message(OKSERVERREQ, 100))];
      PerformSingle(d, p, sent[0]);
    }
    PerformAppend(d, p, sent, Send(side, Message(ACK, t.selfnum)));
  }

  /** Both REQs are read: a task whose number beats its initial `othernum` has proposed. */
  function Requested(n: Numbers): System {
    System(OpenTask(n.a, n.b, n.a > n.oa), OpenTask(n.b, n.a, n.b > n.ob),
           Link(ProposalIf(n.a > n.oa), [Message(ACK, n.b)]),
           Link(ProposalIf(n.b > n.ob), [Message(ACK, n.a)]),
           ProposedIf(n.a > n.oa, A) + ProposedIf(n.b > n.ob, B), false)
  }

  /** A's REQ still waits; B's has been read. */
  function HalfRequested(n: Numbers): System {
    System(OpenTask(n.a, n.b, n.a > n.oa), Connected(n).b,
           Link([Message(REQ, n.a)] + ProposalIf(n.a > n.oa), []), Link([], [Message(ACK, n.a)]),
           ProposedIf(n.a > n.oa, A), false)
  }

  lemma HalfRequestedNext(n: Numbers)
    ensures Next(Connected(n), Read(A, Server, 1)) == HalfRequested(n)
  {
    ReadNumber(Connected(n), A, Server, n.b, 1);
  }

  lemma RequestedNext(n: Numbers)
    ensures Next(HalfRequested(n), Read(B, Server, 1)) == Requested(n)
  {
    ReadNumber(HalfRequested(n), B, Server, n.a, 1);
  }

  lemma RequestedReached(n: Numbers)
    ensures Reaches(true, n, Requested(n))
  {
    ConnectedReached(n);
    HalfRequestedNext(n);
    ReachesNext(true, n, Connected(n), Read(A, Server, 1));
    RequestedNext(n);
    ReachesNext(true, n, HalfRequested(n), Read(B, Server, 1));
  }

  /** Both ACKs are read as well: every task that may propose has done so. */
  function Acknowledged(n: Numbers, log: seq<Event>): System {
    System(OpenTask(n.a, n.b, n.MayPropose(A)), OpenTask(n.b, n.a, n.MayPropose(B)),
           Link(ProposalIf(n.MayPropose(A)), []), Link(ProposalIf(n.MayPropose(B)), []), log, false)
  }

  lemma AcknowledgedReached(n: Numbers) returns (log: seq<Event>)
    ensures Reaches(true, n, Acknowledged(n, log))
  {
    RequestedReached(n);
    var s := Requested(n);
    var t := Next(s, Read(A, Client, 1));
    ReadNumber(s, A, Client, n.b, 1);
    ReachesNext(true, n, s, Read(A, Client, 1));
    ReadNumber(t, B, Client, n.a, 1);
    ReachesNext(true, n, t, Read(B, Client, 1));
    log := Next(t, Read(B, Client, 1)).log;
    assert Next(t, Read(B, Client, 1)) == Acknowledged(n, log);
  }

  /** The reader of a proposal reports its accepted socket. */
  lemma ReadProposal(s: System, p: Party)
    requires s.Of(p).server == Present(true)
    requires s.Inbox(p, Server) == [Message(OKSERVERREQ, 100)]
    ensures var d := s.WithInbox(p, Server, []).WithTask(p, s.Of(p).(server := Present(false)));
            Next(s, Read(p, Server, 1))
              == d.(log := s.log + [Reported(p, Server, OKSERVERREQ)]).Sent(p, Server, Message(OKCLIENTACK, 100))
  {
  }

  /** When both tasks may propose, some run reports two different connections. */
  lemma ClashSelectsTwo(n: Numbers) returns (steps: seq<Step>)
    requires Clash(n)
    ensures !SelectsOne(Run(Start(n), steps).log)
  {
    var log := AcknowledgedReached(n);
    var s := Acknowledged(n, log);
    var t := Next(s, Read(B, Server, 1));
    var u := Next(t, Read(A, Server, 1));
    ReadProposal(s, B);
    ReachesNext(true, n, s, Read(B, Server, 1));
    ReadProposal(t, A);
    ReachesNext(true, n, t, Read(A, Server, 1));
    steps :| Run(Start(n), steps) == u;
    var e, f := Reported(B, Server, OKSERVERREQ), Reported(A, Server, OKSERVERREQ);
    assert u.log == log + [e] + [f];
    assert e in u.log && f in u.log;
    assert Owner(e.party, e.side) == A && Owner(f.party, f.side) == B;
  }

  /**
   The tie-break is safe exactly when the two tasks cannot both propose: every run selects one
   connection at most if and only if not both numbers beat the initial `othernum` or the peer's.
   */
  lemma TieBreakExact(n: Numbers)
    ensures (forall steps :: SelectsOne(Run(Start(n), steps).log))
       <==> !((n.a > n.oa || n.a > n.b) && (n.b > n.ob || n.b > n.a))
  {
    if Clash(n) {
      var steps := ClashSelectsTwo(n);
    } else {
      forall steps ensures SelectsOne(Run(Start(n), steps).log) { OneProposer(n, steps); }
    }
  }

  /** A task proposes in some run if and only if its number beats one of the two it may compare with. */
  lemma ProposesExactly(n: Numbers, p: Party)
    ensures (exists steps :: Proposals(Run(Start(n), steps).log, p) > 0)
       <==> n.Self(p) > n.Initial(p) || n.Self(p) > n.Self(Other(p))
  {
    if n.MayPropose(p) {
      var log := AcknowledgedReached(n);
      var s := Acknowledged(n, log);
      var steps :| Run(Start(n), steps) == s;
      Reachable(n, steps);
      assert Proposals(Run(Start(n), steps).log, p) > 0;
    } else {
      forall steps ensures Proposals(Run(Start(n), steps).log, p) == 0 { ProposerBeats(n, steps, p); }
    }
  }

  // ---------------------------------------------------------------- only one peer dials

  /**
   With a single connection every check() compares with an initial number, so nothing is ever sent
   but REQ and ACK.
   */
  predicate Quiet(s: System, n: Numbers) {
    && !s.crashed && s.log == []
    && s.b.client.Absent? && s.a.server.Absent? && s.byB == Link([], [])
    && s.a.selfnum == n.a && s.b.selfnum == n.b
    && (s.a.client.Absent? ==>
          s.byA == Link([], []) && s.b.server.Absent? && s.a.othernum == n.oa && s.b.othernum == n.ob)
    && (s.byA.up == [] ||
          (s.byA.up == [Message(REQ, n.a)] && s.byA.down == [] && s.a.othernum == n.oa && s.b.othernum == n.ob))
    && (s.byA.down == [] || (s.byA.down == [Message(ACK, n.b)] && s.byA.up == [] && s.a.othernum == n.oa))
  }

  lemma QuietNext(s: System, n: Numbers, step: Step)
    requires Quiet(s, n) && n.oa >= n.a && n.ob >= n.b
    requires forall c :: step != Dial(B, c)
    ensures Quiet(Next(s, step), n)
  {
    match step
    case Dial(p, connected) =>
    case Accept(p) =>
    case Read(p, side, k) =>
      if CanRead(s, p, side, k) {
        var t, m := s.Of(p), s.Inbox(p, side)[0];
        var d := s.WithInbox(p, side, []).WithTask(p, t.(othernum := m.num));
        var ack := Send(side, Message(ACK, t.selfnum));
        assert Check(t) == (t, []);
        assert s.Inbox(p, side)[k..] == [] && [] + [ack] == [ack];
        PerformSingle(d, p, ack);
        assert Next(s, step) == if side.Client? then d else PerformOne(d, p, ack);
      }
  }

  lemma {:induction false} QuietRun(n: Numbers, steps: seq<Step>)
    requires n.oa >= n.a && n.ob >= n.b && OnlyADials(steps)
    ensures Quiet(Run(Start(n), steps), n)
  {
    if steps == [] {
    } else {
      QuietRun(n, steps[..|steps| - 1]);
      QuietNext(Run(Start(n), steps[..|steps| - 1]), n, steps[|steps| - 1]);
    }
  }

  /** A has dialled, B has accepted and read the REQ; B proposed if its number beats its initial one. */
  function Answered(n: Numbers): System {
    var early := n.b > n.ob;
    System(Task(n.a, n.oa, false, Present(true), Absent), Task(n.b, n.a, early, Absent, Present(true)),
           Link([], (if early then [Message(OKCLIENTREQ, 100)] else []) + [Message(ACK, n.b)]), Link([], []),
           if early then [Proposed(B, Server)] else [], false)
  }

  /** A has dialled and B has accepted; the REQ waits. */
  function Dialled(n: Numbers): System {
    System(Task(n.a, n.oa, false, Present(true), Absent), Task(n.b, n.ob, false, Absent, Present(true)),
           Link([Message(REQ, n.a)], []), Link([], []), [], false)
  }

  lemma DialledReached(n: Numbers)
    ensures Reaches(false, n, Dialled(n))
  {
    var s0 := Start(n);
    var s1 := Next(s0, Dial(A, true));
    ReachesStart(false, n);
    ReachesNext(false, n, s0, Dial(A, true));
    ReachesNext(false, n, s1, Accept(B));
  }

  lemma AnsweredNext(n: Numbers)
    ensures Next(Dialled(n), Read(B, Server, 1)) == Answered(n)
  {
    var s := Dialled(n);
    var ack, proposal := Send(Server, Message(ACK, n.b)), Send(Server, Message(OKCLIENTREQ, 100));
    var d := s.WithInbox(B, Server, []).WithTask(B, Answered(n).b);
    assert s.byA.up[1..] == [];
    if n.b > n.ob {
      assert [proposal] + [ack] == [proposal, ack];
      PerformPair(d, B, proposal, ack);
    } else {
      assert [] + [ack] == [ack];
      PerformSingle(d, B, ack);
    }
  }

  lemma AnsweredReached(n: Numbers)
    ensures Reaches(false, n, Answered(n))
  {
    DialledReached(n);
    AnsweredNext(n);
    ReachesNext(false, n, Dialled(n), Read(B, Server, 1));
  }

  predicate AnyReport(log: seq<Event>) {
    exists e :: e in log && e.Reported?
  }

  lemma EarlyAcceptorReports(n: Numbers) returns (steps: seq<Step>)
    requires n.b > n.ob
    ensures OnlyADials(steps) && AnyReport(Run(Start(n), steps).log)
  {
    AnsweredReached(n);
    var s := Answered(n);
    ReachesNext(false, n, s, Read(A, Client, 1));
    steps :| OnlyADials(steps) && Run(Start(n), steps) == Next(s, Read(A, Client, 1));
    var box := s.byA.down;
    assert box == [Message(OKCLIENTREQ, 100), Message(ACK, n.b)];
    var d := s.WithInbox(A, Client, box[1..]).WithTask(A, s.a.(client := Present(false)));
    AnswerThenReport(d, A, Client, Message(OKSERVERACK, 100), OKCLIENTREQ);
    assert Reported(A, Client, OKCLIENTREQ) in Next(s, Read(A, Client, 1)).log;
  }

  lemma EarlyDiallerReports(n: Numbers) returns (steps: seq<Step>)
    requires n.a > n.oa && n.b <= n.ob
    ensures OnlyADials(steps) && AnyReport(Run(Start(n), steps).log)
  {
    AnsweredReached(n);
    var s := Answered(n);
    var proposal := Send(Client, Message(OKSERVERREQ, 100));
    assert s.byA.down == [Message(ACK, n.b)] && s.byA.down[1..] == [];
    PerformSingle(s.WithInbox(A, Client, []).WithTask(A, s.a.(othernum := n.b, checked := true)), A, proposal);
    ReachesNext(false, n, s, Read(A, Client, 1));
    var t := Next(s, Read(A, Client, 1));
    assert t.byA.up == [Message(OKSERVERREQ, 100)];
    ReadProposal(t, B);
    ReachesNext(false, n, t, Read(B, Server, 1));
    steps :| OnlyADials(steps) && Run(Start(n), steps) == Next(t, Read(B, Server, 1));
    assert Reported(B, Server, OKSERVERREQ) in Next(t, Read(B, Server, 1)).log;
  }

  /**
   When only one peer dials, the numbers exchanged never decide anything: some run selects the
   connection exactly when one of the two numbers beats the initial content of its own `othernum`.
   */
  lemma OneDialExact(n: Numbers)
    ensures (exists steps :: OnlyADials(steps) && AnyReport(Run(Start(n), steps).log))
       <==> n.a > n.oa || n.b > n.ob
  {
    if n.b > n.ob {
      var steps := EarlyAcceptorReports(n);
    } else if n.a > n.oa {
      var steps := EarlyDiallerReports(n);
    } else {
      forall steps | OnlyADials(steps) ensures !AnyReport(Run(Start(n), steps).log) { QuietRun(n, steps); }
    }
  }
}
