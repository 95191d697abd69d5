/**
 Runs in which only A dials.  A proposal always stands first in its box, so none is ever lost, and a
 run that has come to rest has reported both ends or nothing at all.
 */
module HandshakeOneDial {
  import opened Handshake
  import opened HandshakeOutcome
  import opened HandshakeCompletion

  predicate DialsB(step: Step) {
    step.Dial? && step.p.B?
  }

  /** No step but a dial of B changes anything any more. */
  ghost predicate RestsButForB(s: System) {
    forall step :: !DialsB(step) ==> Next(s, step) == s
  }

  /** Where a run stands: 0 not dialled, 1 dialled, 2 REQ read, and then the steps of the agreement. */
  datatype Point = Point(at: nat, accepted: bool, kept: bool)

  predicate PointOk(q: Point, last: nat) {
    q.at <= last && (q.accepted ==> q.at > 0) && (q.at > 1 ==> q.accepted)
  }

  function Beginning(n: Numbers, q: Point): System {
    System(Task(n.a, n.oa, false, if q.at == 0 then Absent else Present(true), Absent),
           Task(n.b, n.ob, false, Absent, if q.accepted then Present(true) else Absent),
           Link(if q.at == 0 then [] else [Message(REQ, n.a)], []), Link([], []), [], false)
  }

  lemma BeginningMoves(n: Numbers, q: Point, step: Step) returns (after: Point)
    requires PointOk(q, 1) && !DialsB(step)
    ensures PointOk(after, 2)
    ensures Next(Beginning(n, q), step) == if after.at < 2 then Beginning(n, after) else Answered(n)
  {
    match step
    case Dial(p, connected) => after := if connected && q.at == 0 then q.(at := 1) else q;
    case Accept(p) => after := if p.B? && q.at == 1 then q.(accepted := true) else q;
    case Read(p, side, k) =>
      if p.B? && side.Server? && q.accepted && k == 1 {
        AnsweredNext(n);
        assert Beginning(n, q) == Dialled(n);
        after := Point(2, true, false);
      } else {
        after := q;
      }
  }

  // ---------------------------------------------------------------- B's number beats its initial one

  function EarlyLog(): seq<Event> {
    [Proposed(B, Server), Reported(A, Client, OKCLIENTREQ), Reported(B, Server, OKSERVERACK)]
  }

  /** A reads the proposal, with or without the ACK behind it, and B reads the answer. */
  function Early(n: Numbers, q: Point): System
    requires PointOk(q, 4)
  {
    if q.at < 2 then Beginning(n, q) else if q.at == 2 then Answered(n) else
    System(Task(n.a, n.oa, false, Present(false), Absent), Task(n.b, n.a, true, Absent, Present(q.at == 3)),
           Link(if q.at == 3 then [Message(OKSERVERACK, 100)] else [], if q.kept then [Message(ACK, n.b)] else []),
           Link([], []), EarlyLog()[..q.at - 1], false)
  }

  lemma ProposalRead(n: Numbers, k: nat)
    requires n.b > n.ob && 1 <= k <= 2
    ensures Next(Answered(n), Read(A, Client, k)) == Early(n, Point(3, true, k == 1))
  {
    var s := Answered(n);
    var box := s.byA.down;
    assert box == [Message(OKCLIENTREQ, 100), Message(ACK, n.b)];
    assert box[k..] == if k == 1 then [Message(ACK, n.b)] else [];
    var d := s.WithInbox(A, Client, box[k..]).WithTask(A, s.a.(client := Present(false)));
    AnswerThenReport(d, A, Client, Message(OKSERVERACK, 100), OKCLIENTREQ);
  }

  lemma AnswerRead(n: Numbers, q: Point)
    requires PointOk(q, 4) && q.at == 3
    ensures Next(Early(n, q), Read(B, Server, 1)) == Early(n, q.(at := 4))
  {
    var s := Early(n, q);
    assert s.byA.up[1..] == [];
    var d := s.WithInbox(B, Server, []).WithTask(B, s.b.(server := Present(false)));
    PerformSingle(d, B, Report(Server, OKSERVERACK));
  }

  lemma EarlyMoves(n: Numbers, q: Point, step: Step) returns (after: Point)
    requires n.b > n.ob && PointOk(q, 4) && !DialsB(step)
    ensures PointOk(after, 4) && Next(Early(n, q), step) == Early(n, after)
  {
    if q.at < 2 {
      after := BeginningMoves(n, q, step);
    } else if q.at == 2 && step.Read? && step.p.A? && step.side.Client? && 1 <= step.k <= 2 {
      ProposalRead(n, step.k);
      after := Point(3, true, step.k == 1);
    } else if q.at == 3 && step == Read(B, Server, 1) {
      AnswerRead(n, q);
      after := q.(at := 4);
    } else {
      after := q;
    }
  }

  lemma EarlyRest(n: Numbers, q: Point)
    requires n.b > n.ob && PointOk(q, 4) && RestsButForB(Early(n, q))
    ensures q.at == 4
  {
    var s := Early(n, q);
    assert Next(s, Dial(A, true)) == s && Next(s, Accept(B)) == s;
    assert Next(s, Read(B, Server, 1)) == s && Next(s, Read(A, Client, 1)) == s;
    if q.at == 1 { AnsweredNext(n); }
    if q.at == 2 { ProposalRead(n, 1); }
    if q.at == 3 { AnswerRead(n, q); }
  }

  // ---------------------------------------------------------------- only A's number does

  function LateLog(): seq<Event> {
    [Proposed(A, Client), Reported(B, Server, OKSERVERREQ), Reported(A, Client, OKCLIENTACK)]
  }

  /** A reads the ACK and proposes, B reads the proposal, and A reads the answer. */
  function Late(n: Numbers, q: Point): System
    requires PointOk(q, 5)
  {
    if q.at < 2 then Beginning(n, q) else if q.at == 2 then Answered(n) else
    System(Task(n.a, n.b, true, Present(q.at < 5), Absent), Task(n.b, n.a, false, Absent, Present(q.at < 4)),
           Link(if q.at == 3 then [Message(OKSERVERREQ, 100)] else [],
                if q.at == 4 then [Message(OKCLIENTACK, 100)] else []),
           Link([], []), LateLog()[..q.at - 2], false)
  }

  lemma AckRead(n: Numbers)
    requires n.a > n.oa && n.b <= n.ob
    ensures Next(Answered(n), Read(A, Client, 1)) == Late(n, Point(3, true, false))
  {
    ReadNumber(Answered(n), A, Client, n.b, 1);
  }

  lemma LateProposalRead(n: Numbers, q: Point)
    requires PointOk(q, 5) && q.at == 3
    ensures Next(Late(n, q), Read(B, Server, 1)) == Late(n, q.(at := 4))
  {
    ReadProposal(Late(n, q), B);
  }

  lemma LateAnswerRead(n: Numbers, q: Point)
    requires PointOk(q, 5) && q.at == 4
    ensures Next(Late(n, q), Read(A, Client, 1)) == Late(n, q.(at := 5))
  {
    var s := Late(n, q);
    assert s.byA.down[1..] == [];
    var d := s.WithInbox(A, Client, []).WithTask(A, s.a.(client := Present(false)));
    PerformSingle(d, A, Report(Client, OKCLIENTACK));
  }

  lemma LateMoves(n: Numbers, q: Point, step: Step) returns (after: Point)
    requires n.a > n.oa && n.b <= n.ob && PointOk(q, 5) && !DialsB(step)
    ensures PointOk(after, 5) && Next(Late(n, q), step) == Late(n, after)
  {
    if q.at < 2 {
      after := BeginningMoves(n, q, step);
    } else if q.at == 2 && step == Read(A, Client, 1) {
      AckRead(n);
      after := Point(3, true, false);
    } else if q.at == 3 && step == Read(B, Server, 1) {
      LateProposalRead(n, q);
      after := q.(at := 4);
    } else if q.at == 4 && step == Read(A, Client, 1) {
      LateAnswerRead(n, q);
      after := q.(at := 5);
    } else {
      after := q;
    }
  }

  lemma LateRest(n: Numbers, q: Point)
    requires n.a > n.oa && n.b <= n.ob && PointOk(q, 5) && RestsButForB(Late(n, q))
    ensures q.at == 5
  {
    var s := Late(n, q);
    assert Next(s, Dial(A, true)) == s && Next(s, Accept(B)) == s;
    assert Next(s, Read(B, Server, 1)) == s && Next(s, Read(A, Client, 1)) == s;
    if q.at == 1 { AnsweredNext(n); }
    if q.at == 2 { AckRead(n); }
    if q.at == 3 { LateProposalRead(n, q); }
    if q.at == 4 { LateAnswerRead(n, q); }
  }

  // ---------------------------------------------------------------- whole runs

  lemma {:induction false} EarlyRun(n: Numbers, steps: seq<Step>) returns (q: Point)
    requires n.b > n.ob && OnlyADials(steps)
    ensures PointOk(q, 4) && Run(Start(n), steps) == Early(n, q)
  {
    if steps == [] {
      q := Point(0, false, false);
    } else {
      var before := EarlyRun(n, steps[..|steps| - 1]);
      q := EarlyMoves(n, before, steps[|steps| - 1]);
    }
  }

  lemma {:induction false} LateRun(n: Numbers, steps: seq<Step>) returns (q: Point)
    requires n.a > n.oa && n.b <= n.ob && OnlyADials(steps)
    ensures PointOk(q, 5) && Run(Start(n), steps) == Late(n, q)
  {
    if steps == [] {
      q := Point(0, false, false);
    } else {
      var before := LateRun(n, steps[..|steps| - 1]);
      q := LateMoves(n, before, steps[|steps| - 1]);
    }
  }

  lemma BothEnds(log: seq<Event>)
    requires log == EarlyLog() || log == LateLog()
    ensures Agreed(log, A)
  {
    assert log[1] in log && log[2] in log;
  }

  /**
   Every run in which only A dials and which has come to rest, but for a dial of B, has reported
   both ends of A's connection, and nothing else, if and only if one of the numbers beats the
   initial content of its own `othernum`.
   */
  lemma {:induction false} OneDialCompletes(n: Numbers, steps: seq<Step>)
    requires OnlyADials(steps) && RestsButForB(Run(Start(n), steps))
    ensures Agreed(Run(Start(n), steps).log, A) <==> n.a > n.oa || n.b > n.ob
  {
    if n.b > n.ob {
      var q := EarlyRun(n, steps);
      EarlyRest(n, q);
      BothEnds(EarlyLog());
    } else if n.a > n.oa {
      var q := LateRun(n, steps);
      LateRest(n, q);
      BothEnds(LateLog());
    } else {
      QuietRun(n, steps);
    }
  }
}
