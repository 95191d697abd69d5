/**
 The connection-selection handshake between two peers.  Each peer may dial the other, so up to
 two connections exist; REQ and ACK exchange random numbers, the peer that finds its own number
 larger proposes one connection by an OK..REQ, and the other end answers with an OK..ACK.
 */
module Handshake {

  // ---------------------------------------------------------------- one task

  datatype Cmd = REQ | ACK | OKSERVERREQ | OKCLIENTREQ | OKSERVERACK | OKCLIENTACK

  datatype Message = Message(cmd: Cmd, num: nat)

  /** The task's two sockets: the one it dialled and the one it accepted. */
  datatype Side = Client | Server

  /** `listening` says whether the read slot is still attached. */
  datatype Socket = Absent | Present(listening: bool)

  datatype Task = Task(selfnum: nat, othernum: nat, checked: bool, client: Socket, server: Socket) {
    function At(side: Side): Socket {
      if side.Client? then client else server
    }
  }

  datatype Effect = Send(side: Side, msg: Message) | Report(side: Side, cause: Cmd)

  /** A handler runs to its end, or dereferences a socket pointer that is still null. */
  datatype Outcome = Ran(task: Task, effects: seq<Effect>) | NullDereference

  function Check(t: Task): (Task, seq<Effect>) {
    if t.selfnum > t.othernum then
      if t.checked then (t, [])
      else if t.client.Present? then (t.(checked := true), [Send(Client, Message(OKSERVERREQ, 100))])
      else if t.server.Present? then (t.(checked := true), [Send(Server, Message(OKCLIENTREQ, 100))])
      else (t.(checked := true), [])
    else (t, [])
  }

  /** SlotRead on the first message that arrived on the socket `side`. */
  function Handle(t: Task, side: Side, msg: Message): Outcome {
    match msg.cmd
    case ACK =>
      var (u, sent) := Check(t);
      Ran(u.(othernum := msg.num), sent)
    case REQ =>
      var (u, sent) := Check(t);
      Ran(u.(othernum := msg.num), sent + [Send(side, Message(ACK, t.selfnum))])
    case OKSERVERREQ =>
      if t.server.Absent? then NullDereference else
      Ran(t.(server := Present(false)), [Send(Server, Message(OKCLIENTACK, 100)), Report(Server, OKSERVERREQ)])
    case OKCLIENTREQ =>
      if t.client.Absent? then NullDereference else
      Ran(t.(client := Present(false)), [Send(Client, Message(OKSERVERACK, 100)), Report(Client, OKCLIENTREQ)])
    case OKSERVERACK =>
      if t.server.Absent? then NullDereference else
      Ran(t.(server := Present(false)), [Report(Server, OKSERVERACK)])
    case OKCLIENTACK =>
      if t.client.Absent? then NullDereference else
      Ran(t.(client := Present(false)), [Report(Client, OKCLIENTACK)])
  }

  // ---------------------------------------------------------------- two tasks

  datatype Party = A | B

  function Other(p: Party): Party {
    if p.A? then B else A
  }

  /** A connection: `up` flows from the peer that dialled it, `down` to that peer. */
  datatype Link = Link(up: seq<Message>, down: seq<Message>)

  datatype Event =
    | Proposed(party: Party, side: Side)
    | Reported(party: Party, side: Side, cause: Cmd)

  datatype System = System(a: Task, b: Task, byA: Link, byB: Link, log: seq<Event>, crashed: bool) {
    function Of(p: Party): Task {
      if p.A? then a else b
    }

    /** The connection that `p` dials. */
    function DialledBy(p: Party): Link {
      if p.A? then byA else byB
    }

    function WithTask(p: Party, t: Task): System {
      if p.A? then this.(a := t) else this.(b := t)
    }

    function WithLink(p: Party, l: Link): System {
      if p.A? then this.(byA := l) else this.(byB := l)
    }

    /** What waits to be read on the socket `side` of `p`. */
    function Inbox(p: Party, side: Side): seq<Message> {
      if side.Client? then DialledBy(p).down else DialledBy(Other(p)).up
    }

    function WithInbox(p: Party, side: Side, box: seq<Message>): System {
      if side.Client? then WithLink(p, DialledBy(p).(down := box))
      else WithLink(Other(p), DialledBy(Other(p)).(up := box))
    }

    function Sent(p: Party, side: Side, msg: Message): System {
      if side.Client? then WithLink(p, DialledBy(p).(up := DialledBy(p).up + [msg]))
      else WithLink(Other(p), DialledBy(Other(p)).(down := DialledBy(Other(p)).down + [msg]))
    }
  }

  function Fresh(selfnum: nat, othernum: nat): Task {
    Task(selfnum, othernum, false, Absent, Absent)
  }

  /** `oa` and `ob` are whatever the uninitialised `othernum` fields happen to hold. */
  function Init(a: nat, oa: nat, b: nat, ob: nat): System {
    System(Fresh(a, oa), Fresh(b, ob), Link([], []), Link([], []), [], false)
  }

  function Events(p: Party, e: Effect): seq<Event> {
    match e
    case Send(side, msg) => if msg.cmd.OKSERVERREQ? || msg.cmd.OKCLIENTREQ? then [Proposed(p, side)] else []
    case Report(side, cause) => [Reported(p, side, cause)]
  }

  function PerformOne(s: System, p: Party, e: Effect): System {
    var t := if e.Send? then s.Sent(p, e.side, e.msg) else s;
    t.(log := t.log + Events(p, e))
  }

  function Perform(s: System, p: Party, effects: seq<Effect>): System
    decreases |effects|
  {
    if effects == [] then s else Perform(PerformOne(s, p, effects[0]), p, effects[1..])
  }

  /**
   One atomic step.  `Read` takes the first `k` waiting messages off a socket and handles only
   the first of them; a step that is not possible leaves the system as it is.
   */
  datatype Step =
    | Dial(p: Party, connected: bool)
    | Accept(p: Party)
    | Read(p: Party, side: Side, k: nat)

  function Next(s: System, step: Step): System {
    match step
    case Dial(p, connected) =>
      if s.Of(p).client.Present? || !connected then s else
      s.WithTask(p, s.Of(p).(client := Present(true))).Sent(p, Client, Message(REQ, s.Of(p).selfnum))
    case Accept(p) =>
      if s.Of(p).server.Present? || s.Of(Other(p)).client.Absent? then s else
      s.WithTask(p, s.Of(p).(server := Present(true)))
    case Read(p, side, k) =>
      var box := s.Inbox(p, side);
      if s.Of(p).At(side) != Present(true) || k == 0 || k > |box| then s else
      match Handle(s.Of(p), side, box[0])
      case NullDereference => s.(crashed := true)
      case Ran(t, effects) => Perform(s.WithInbox(p, side, box[k..]).WithTask(p, t), p, effects)
  }

  function Run(s: System, steps: seq<Step>): System {
    if steps == [] then s else Next(Run(s, steps[..|steps| - 1]), steps[|steps| - 1])
  }

  // ---------------------------------------------------------------- what every reachable state keeps

  predicate UpTyped(box: seq<Message>, num: nat) {
    forall m :: m in box ==>
      m == Message(OKSERVERREQ, 100) || m == Message(OKSERVERACK, 100) || m == Message(REQ, num)
  }

  predicate DownTyped(box: seq<Message>, num: nat) {
    forall m :: m in box ==>
      m == Message(OKCLIENTREQ, 100) || m == Message(OKCLIENTACK, 100) || m == Message(ACK, num)
  }

  predicate Carries(box: seq<Message>, cmd: Cmd) {
    exists m :: m in box && m.cmd == cmd
  }

  predicate HasReported(log: seq<Event>, p: Party, side: Side) {
    exists e :: e in log && e.Reported? && e.party == p && e.side == side
  }

  predicate HasProposed(log: seq<Event>, p: Party, side: Side) {
    Proposed(p, side) in log
  }

  /** The connection seen from `p`'s socket `side`, named by the peer that dialled it. */
  function Owner(p: Party, side: Side): Party {
    if side.Client? then p else Other(p)
  }

  predicate Proposal(log: seq<Event>, owner: Party) {
    HasProposed(log, owner, Client) || HasProposed(log, Other(owner), Server)
  }

  predicate AnswersReport(e: Event) {
    e.Reported? && (e.cause.OKSERVERACK? || e.cause.OKCLIENTACK?)
  }

  function Opposite(side: Side): Side {
    if side.Client? then Server else Client
  }

  /** Every report caused by an answer is preceded by the report of the connection's other end. */
  predicate AnswersFollow(log: seq<Event>) {
    forall i :: 0 <= i < |log| && AnswersReport(log[i]) ==>
      HasReported(log[..i], Other(log[i].party), Opposite(log[i].side))
  }

  function Proposals(log: seq<Event>, p: Party): nat {
    if log == [] then 0 else
    Proposals(log[..|log| - 1], p) + (if log[|log| - 1].Proposed? && log[|log| - 1].party == p then 1 else 0)
  }

  function Reports(log: seq<Event>, p: Party, side: Side): nat {
    if log == [] then 0 else
    var e := log[|log| - 1];
    Reports(log[..|log| - 1], p, side) + (if e.Reported? && e.party == p && e.side == side then 1 else 0)
  }

  /** Each peer's own number and the initial content of its `othernum`. */
  datatype Numbers = Numbers(a: nat, oa: nat, b: nat, ob: nat) {
    function Self(p: Party): nat {
      if p.A? then a else b
    }

    function Initial(p: Party): nat {
      if p.A? then oa else ob
    }

    /** `p` may come to propose: its own number beats the initial one or the peer's. */
    predicate MayPropose(p: Party) {
      Self(p) > Initial(p) || Self(p) > Self(Other(p))
    }
  }

  predicate TaskOk(t: Task, log: seq<Event>, p: Party, n: Numbers) {
    && t.selfnum == n.Self(p)
    && (t.othernum == n.Initial(p) || t.othernum == n.Self(Other(p)))
    && (t.checked ==> n.MayPropose(p))
    && Proposals(log, p) == (if t.checked then 1 else 0)
    && Reports(log, p, Client) == (if t.client == Present(false) then 1 else 0)
    && Reports(log, p, Server) == (if t.server == Present(false) then 1 else 0)
  }

  /** The connection dialled by `p`, given whether its two ends exist. */
  predicate LinkOk(l: Link, dialled: bool, accepted: bool, log: seq<Event>, p: Party, n: Numbers) {
    && UpTyped(l.up, n.Self(p)) && DownTyped(l.down, n.Self(Other(p)))
    && (accepted ==> dialled)
    && (!dialled ==> l.up == [])
    && (!accepted ==> l.down == [])
    && (Carries(l.up, OKSERVERREQ) ==> HasProposed(log, p, Client))
    && (Carries(l.down, OKCLIENTREQ) ==> HasProposed(log, Other(p), Server))
    && (Carries(l.up, OKSERVERACK) ==> HasReported(log, p, Client))
    && (Carries(l.down, OKCLIENTACK) ==> HasReported(log, Other(p), Server))
    && (HasReported(log, p, Client) || HasReported(log, Other(p), Server) ==> Proposal(log, p))
  }

  predicate Inv(s: System, n: Numbers) {
    && !s.crashed
    && TaskOk(s.a, s.log, A, n) && TaskOk(s.b, s.log, B, n)
    && LinkOk(s.byA, s.a.client.Present?, s.b.server.Present?, s.log, A, n)
    && LinkOk(s.byB, s.b.client.Present?, s.a.server.Present?, s.log, B, n)
    && AnswersFollow(s.log)
  }

  lemma LogGrows(log: seq<Event>, e: Event)
    ensures forall p, side :: HasReported(log + [e], p, side) <==>
              HasReported(log, p, side) || (e.Reported? && e.party == p && e.side == side)
    ensures forall p, side :: HasProposed(log + [e], p, side) <==> HasProposed(log, p, side) || e == Proposed(p, side)
    ensures forall p :: Proposals(log + [e], p) == Proposals(log, p) + (if e.Proposed? && e.party == p then 1 else 0)
    ensures forall p, side :: Reports(log + [e], p, side)
              == Reports(log, p, side) + (if e.Reported? && e.party == p && e.side == side then 1 else 0)
  {
  }

  lemma AnswersStillFollow(log: seq<Event>, e: Event)
    requires AnswersFollow(log)
    requires AnswersReport(e) ==> HasReported(log, Other(e.party), Opposite(e.side))
    ensures AnswersFollow(log + [e])
  {
    var longer := log + [e];
    forall i | 0 <= i < |longer| && AnswersReport(longer[i])
      ensures HasReported(longer[..i], Other(longer[i].party), Opposite(longer[i].side))
    {
      assert longer[..i] == if i < |log| then log[..i] else log;
    }
  }

  lemma BoxGrows(box: seq<Message>, m: Message)
    ensures forall cmd :: Carries(box + [m], cmd) <==> Carries(box, cmd) || m.cmd == cmd
  {
  }

  lemma DialKeepsInv(s: System, n: Numbers, p: Party, connected: bool)
    requires Inv(s, n)
    ensures Inv(Next(s, Dial(p, connected)), n)
  {
  }

  lemma AcceptKeepsInv(s: System, n: Numbers, p: Party)
    requires Inv(s, n)
    ensures Inv(Next(s, Accept(p)), n)
  {
  }

  predicate CanRead(s: System, p: Party, side: Side, k: nat) {
    s.Of(p).At(side) == Present(true) && 0 < k <= |s.Inbox(p, side)|
  }

  lemma LinkDrops(l: Link, dialled: bool, accepted: bool, log: seq<Event>, p: Party, n: Numbers, k: nat)
    requires LinkOk(l, dialled, accepted, log, p, n)
    ensures k <= |l.up| ==> LinkOk(l.(up := l.up[k..]), dialled, accepted, log, p, n)
    ensures k <= |l.down| ==> LinkOk(l.(down := l.down[k..]), dialled, accepted, log, p, n)
  {
    assert forall m :: k <= |l.up| && m in l.up[k..] ==> m in l.up;
    assert forall m :: k <= |l.down| && m in l.down[k..] ==> m in l.down;
  }

  /** Taking messages off a box, whatever becomes of them, harms nothing. */
  lemma DropKeepsInv(s: System, n: Numbers, p: Party, side: Side, k: nat)
    requires Inv(s, n) && CanRead(s, p, side, k)
    ensures Inv(s.WithInbox(p, side, s.Inbox(p, side)[k..]), n)
  {
    LinkDrops(s.byA, s.a.client.Present?, s.b.server.Present?, s.log, A, n, k);
    LinkDrops(s.byB, s.b.client.Present?, s.a.server.Present?, s.log, B, n, k);
  }

  /** Setting `othernum` from a REQ or ACK, without a proposal. */
  lemma LearnKeepsInv(s: System, n: Numbers, p: Party)
    requires Inv(s, n)
    ensures Inv(s.WithTask(p, s.Of(p).(othernum := n.Self(Other(p)))), n)
  {
  }

  /** Sending an ACK on the accepted socket. */
  lemma {:induction false} AckKeepsInv(s: System, n: Numbers, p: Party)
    requires Inv(s, n) && s.Of(p).server.Present?
    ensures Inv(PerformOne(s, p, Send(Server, Message(ACK, n.Self(p)))), n)
  {
    var e := Send(Server, Message(ACK, n.Self(p)));
    BoxGrows(s.DialledBy(Other(p)).down, Message(ACK, n.Self(p)));
    assert s.log + Events(p, e) == s.log;
  }

  lemma LinkLogGrows(l: Link, dialled: bool, accepted: bool, log: seq<Event>, e: Event, p: Party, n: Numbers)
    requires LinkOk(l, dialled, accepted, log, p, n)
    requires e.Reported? && Owner(e.party, e.side) == p ==> Proposal(log, p)
    ensures LinkOk(l, dialled, accepted, log + [e], p, n)
  {
  }

  /** An event enters the log, and the task that caused it changes accordingly. */
  lemma EventKeepsInv(s: System, n: Numbers, p: Party, t: Task, e: Event)
    requires Inv(s, n) && e.party == p
    requires t.client.Present? == s.Of(p).client.Present? && t.server.Present? == s.Of(p).server.Present?
    requires TaskOk(t, s.log + [e], p, n)
    requires e.Reported? ==> Proposal(s.log, Owner(p, e.side))
    requires AnswersReport(e) ==> HasReported(s.log, Other(p), Opposite(e.side))
    ensures Inv(s.WithTask(p, t).(log := s.log + [e]), n)
  {
    LogGrows(s.log, e);
    AnswersStillFollow(s.log, e);
    LinkLogGrows(s.byA, s.a.client.Present?, s.b.server.Present?, s.log, e, A, n);
    LinkLogGrows(s.byB, s.b.client.Present?, s.a.server.Present?, s.log, e, B, n);
  }

  /** A proposal or an answer may be sent once the log holds what justifies it. */
  predicate MaySend(s: System, p: Party, side: Side, cmd: Cmd) {
    && s.Of(p).At(side).Present?
    && match cmd
       case OKSERVERREQ => side.Client? && HasProposed(s.log, p, Client)
       case OKCLIENTREQ => side.Server? && HasProposed(s.log, p, Server)
       case OKSERVERACK => side.Client? && HasReported(s.log, p, Client)
       case OKCLIENTACK => side.Server? && HasReported(s.log, p, Server)
       case _ => false
  }

  lemma SendKeepsInv(s: System, n: Numbers, p: Party, side: Side, m: Message)
    requires Inv(s, n) && MaySend(s, p, side, m.cmd) && m.num == 100
    ensures Inv(s.Sent(p, side, m), n)
  {
    if side.Client? {
      BoxGrows(s.DialledBy(p).up, m);
    } else {
      BoxGrows(s.DialledBy(Other(p)).down, m);
    }
  }

  lemma ProposeKeepsInv(s: System, n: Numbers, p: Party, side: Side, m: Message)
    requires Inv(s, n) && s.Of(p).At(side).Present? && !s.Of(p).checked && n.MayPropose(p)
    requires m == Message(if side.Client? then OKSERVERREQ else OKCLIENTREQ, 100)
    ensures Inv(PerformOne(s.WithTask(p, s.Of(p).(checked := true)), p, Send(side, m)), n)
  {
    var e, t := Proposed(p, side), s.Of(p).(checked := true);
    LogGrows(s.log, e);
    EventKeepsInv(s, n, p, t, e);
    var u := s.WithTask(p, t).(log := s.log + [e]);
    SendKeepsInv(u, n, p, side, m);
    assert u.Sent(p, side, m) == PerformOne(s.WithTask(p, t), p, Send(side, m));
  }

  lemma PerformSingle(s: System, p: Party, e: Effect)
    ensures Perform(s, p, [e]) == PerformOne(s, p, e)
  {
  }

  lemma PerformPair(s: System, p: Party, e: Effect, f: Effect)
    ensures Perform(s, p, [e, f]) == PerformOne(PerformOne(s, p, e), p, f)
  {
    assert [e, f][1..] == [f];
    PerformSingle(PerformOne(s, p, e), p, f);
  }

  /** check() and the proposal it may send. */
  lemma CheckKeepsInv(s: System, n: Numbers, p: Party)
    requires Inv(s, n) && (s.Of(p).client.Present? || s.Of(p).server.Present?)
    ensures var (t, effects) := Check(s.Of(p)); Inv(Perform(s.WithTask(p, t), p, effects), n)
  {
    var (t, effects) := Check(s.Of(p));
    if effects == [] {
      assert t == s.Of(p);
    } else {
      var side := if s.Of(p).client.Present? then Client else Server;
      var m := Message(if side.Client? then OKSERVERREQ else OKCLIENTREQ, 100);
      assert effects == [Send(side, m)];
      ProposeKeepsInv(s, n, p, side, m);
      PerformSingle(s.WithTask(p, t), p, Send(side, m));
    }
  }

  /** An end is reported: its slot is cleared and the report enters the log. */
  lemma ReportKeepsInv(s: System, n: Numbers, p: Party, side: Side, cause: Cmd)
    requires Inv(s, n) && s.Of(p).At(side) == Present(true)
    requires Proposal(s.log, Owner(p, side))
    requires AnswersReport(Reported(p, side, cause)) ==> HasReported(s.log, Other(p), Opposite(side))
    ensures Inv(s.WithTask(p, Cleared(s.Of(p), side)).(log := s.log + [Reported(p, side, cause)]), n)
  {
    LogGrows(s.log, Reported(p, side, cause));
    EventKeepsInv(s, n, p, Cleared(s.Of(p), side), Reported(p, side, cause));
  }

  function Cleared(t: Task, side: Side): Task {
    if side.Client? then t.(client := Present(false)) else t.(server := Present(false))
  }

  /** Answering before reporting leaves the same state as reporting before answering. */
  lemma AnswerThenReport(s: System, p: Party, side: Side, answer: Message, cause: Cmd)
    requires answer.cmd.OKSERVERACK? || answer.cmd.OKCLIENTACK?
    ensures Perform(s, p, [Send(side, answer), Report(side, cause)])
         == s.(log := s.log + [Reported(p, side, cause)]).Sent(p, side, answer)
  {
    PerformPair(s, p, Send(side, answer), Report(side, cause));
    assert s.log + [] == s.log;
  }

  /** The handler of a proposal leaves the state in which the report was logged and the answer sent. */
  lemma ProposalRead(s: System, p: Party, side: Side, m: Message, answer: Message)
    requires s.Of(p).At(side) == Present(true)
    requires m.cmd == if side.Client? then OKCLIENTREQ else OKSERVERREQ
    requires answer == Message(if side.Client? then OKSERVERACK else OKCLIENTACK, 100)
    ensures Handle(s.Of(p), side, m).Ran?
    ensures var o, t := Handle(s.Of(p), side, m), s.WithTask(p, Cleared(s.Of(p), side));
            Perform(s.WithTask(p, o.task), p, o.effects)
              == t.(log := s.log + [Reported(p, side, m.cmd)]).Sent(p, side, answer)
  {
    AnswerThenReport(s.WithTask(p, Cleared(s.Of(p), side)), p, side, answer, m.cmd);
  }

  /** The handlers of the proposals: answer, then report. */
  lemma {:induction false} ProposalReadKeepsInv(s: System, n: Numbers, p: Party, side: Side, m: Message)
    requires Inv(s, n) && s.Of(p).At(side) == Present(true)
    requires Proposal(s.log, Owner(p, side))
    requires m.cmd == if side.Client? then OKCLIENTREQ else OKSERVERREQ
    ensures Handle(s.Of(p), side, m).Ran?
    ensures var o := Handle(s.Of(p), side, m); Inv(Perform(s.WithTask(p, o.task), p, o.effects), n)
  {
    var answer := Message(if side.Client? then OKSERVERACK else OKCLIENTACK, 100);
    var r := s.WithTask(p, Cleared(s.Of(p), side)).(log := s.log + [Reported(p, side, m.cmd)]);
    ProposalRead(s, p, side, m, answer);
    ReportKeepsInv(s, n, p, side, m.cmd);
    ReportedMayAnswer(s, p, side, m.cmd, answer.cmd);
    SendKeepsInv(r, n, p, side, answer);
  }

  lemma ReportedMayAnswer(s: System, p: Party, side: Side, cause: Cmd, answer: Cmd)
    requires s.Of(p).At(side).Present? && answer == if side.Client? then OKSERVERACK else OKCLIENTACK
    ensures MaySend(s.WithTask(p, Cleared(s.Of(p), side)).(log := s.log + [Reported(p, side, cause)]), p, side, answer)
  {
    LogGrows(s.log, Reported(p, side, cause));
  }

  lemma AnswerRead(s: System, p: Party, side: Side, m: Message)
    requires s.Of(p).At(side) == Present(true)
    requires m.cmd == if side.Client? then OKCLIENTACK else OKSERVERACK
    ensures Handle(s.Of(p), side, m).Ran?
    ensures var o := Handle(s.Of(p), side, m);
            Perform(s.WithTask(p, o.task), p, o.effects)
              == s.WithTask(p, Cleared(s.Of(p), side)).(log := s.log + [Reported(p, side, m.cmd)])
  {
    PerformSingle(s.WithTask(p, Cleared(s.Of(p), side)), p, Report(side, m.cmd));
  }

  /** The handlers of the answers: report only. */
  lemma AnswerReadKeepsInv(s: System, n: Numbers, p: Party, side: Side, m: Message)
    requires Inv(s, n) && s.Of(p).At(side) == Present(true)
    requires HasReported(s.log, Other(p), Opposite(side))
    requires m.cmd == if side.Client? then OKCLIENTACK else OKSERVERACK
    ensures Handle(s.Of(p), side, m).Ran?
    ensures var o := Handle(s.Of(p), side, m); Inv(Perform(s.WithTask(p, o.task), p, o.effects), n)
  {
    AnswerRead(s, p, side, m);
    ReportKeepsInv(s, n, p, side, m.cmd);
  }

  lemma PerformLeavesTasks(s: System, p: Party, t: Task, effects: seq<Effect>)
    ensures Perform(s.WithTask(p, t), p, effects) == Perform(s, p, effects).WithTask(p, t)
    decreases |effects|
  {
    if effects == [] {
    } else {
      PerformLeavesTasks(PerformOne(s, p, effects[0]), p, t, effects[1..]);
    }
  }

  lemma PerformAppend(s: System, p: Party, effects: seq<Effect>, e: Effect)
    ensures Perform(s, p, effects + [e]) == PerformOne(Perform(s, p, effects), p, e)
    decreases |effects|
  {
    if effects == [] {
      PerformSingle(s, p, e);
      assert effects + [e] == [e];
    } else {
      PerformAppend(PerformOne(s, p, effects[0]), p, effects[1..], e);
      assert (effects + [e])[1..] == effects[1..] + [e];
    }
  }

  /** check(), then the peer's number is learnt. */
  lemma CheckAndLearn(s: System, n: Numbers, p: Party)
    requires Inv(s, n) && (s.Of(p).client.Present? || s.Of(p).server.Present?)
    ensures var (t, sent) := Check(s.Of(p));
            Inv(Perform(s.WithTask(p, t.(othernum := n.Self(Other(p)))), p, sent), n)
  {
    var (t, sent) := Check(s.Of(p));
    var u := Perform(s.WithTask(p, t), p, sent);
    assert Inv(u, n) by { CheckKeepsInv(s, n, p); }
    PerformLeavesTasks(s, p, t, sent);
    PerformLeavesTasks(s, p, t.(othernum := n.Self(Other(p))), sent);
    LearnKeepsInv(u, n, p);
  }

  /** The handlers of REQ and ACK: check before the number is learnt, then the answer to a REQ. */
  lemma NumberReadKeepsInv(s: System, n: Numbers, p: Party, side: Side, m: Message)
    requires Inv(s, n) && s.Of(p).At(side) == Present(true)
    requires m == Message(if side.Client? then ACK else REQ, n.Self(Other(p)))
    ensures Handle(s.Of(p), side, m).Ran?
    ensures var o := Handle(s.Of(p), side, m); Inv(Perform(s.WithTask(p, o.task), p, o.effects), n)
  {
    var (t, sent) := Check(s.Of(p));
    CheckAndLearn(s, n, p);
    if side.Server? {
      var w := Perform(s.WithTask(p, t.(othernum := m.num)), p, sent);
      var ack := Send(Server, Message(ACK, n.Self(p)));
      assert w.Of(p).server.Present? by { PerformLeavesTasks(s, p, t.(othernum := m.num), sent); }
      AckKeepsInv(w, n, p);
      PerformAppend(s.WithTask(p, t.(othernum := m.num)), p, sent, ack);
    }
  }

  lemma {:induction false} ReadKeepsInv(s: System, n: Numbers, p: Party, side: Side, k: nat)
    requires Inv(s, n)
    ensures Inv(Next(s, Read(p, side, k)), n)
  {
    if CanRead(s, p, side, k) {
      var box := s.Inbox(p, side);
      var d := s.WithInbox(p, side, box[k..]);
      DropKeepsInv(s, n, p, side, k);
      assert box[0] in box;
      assert Carries(box, box[0].cmd);
      assert d.Of(p) == s.Of(p) && d.log == s.log;
      match box[0].cmd
      case REQ => NumberReadKeepsInv(d, n, p, side, box[0]);
      case ACK => NumberReadKeepsInv(d, n, p, side, box[0]);
      case OKSERVERREQ => ProposalReadKeepsInv(d, n, p, side, box[0]);
      case OKCLIENTREQ => ProposalReadKeepsInv(d, n, p, side, box[0]);
      case OKSERVERACK => AnswerReadKeepsInv(d, n, p, side, box[0]);
      case OKCLIENTACK => AnswerReadKeepsInv(d, n, p, side, box[0]);
    }
  }

  lemma {:induction false} Reachable(n: Numbers, steps: seq<Step>)
    ensures Inv(Run(Init(n.a, n.oa, n.b, n.ob), steps), n)
  {
    if steps == [] {
    } else {
      Reachable(n, steps[..|steps| - 1]);
      var s := Run(Init(n.a, n.oa, n.b, n.ob), steps[..|steps| - 1]);
      match steps[|steps| - 1]
      case Dial(p, connected) => DialKeepsInv(s, n, p, connected);
      case Accept(p) => AcceptKeepsInv(s, n, p);
      case Read(p, side, k) => ReadKeepsInv(s, n, p, side, k);
    }
  }
}
