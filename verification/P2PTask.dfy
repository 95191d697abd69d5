/** The task object that runs the handshake on its two sockets, tied to the step functions. */
module P2PTasks {
  import opened Handshake

  /** A received box: shorter than one message, or starting with one, whose command may be none of the six. */
  datatype Box = Short | Foreign(code: nat) | Holding(msg: Message)

  /**
   A socket as the task uses it: what was handed to send(), whether the read slot is attached, and
   whether it is deleted.
   */
  class TCPSocket {
    var sent: seq<Message>
    var attached: bool
    var deleted: bool

    constructor ()
      ensures sent == [] && !attached && !deleted
    {
      sent, attached, deleted := [], false, false;
    }
  }

  /** The messages a list of effects puts on the socket `side`. */
  function SendsOn(effects: seq<Effect>, side: Side): seq<Message> {
    if effects == [] then [] else
    (match effects[0]
     case Send(s, msg) => if s == side then [msg] else []
     case Report(_, _) => []) + SendsOn(effects[1..], side)
  }

  function ReportsIn(effects: seq<Effect>): seq<Side> {
    if effects == [] then [] else
    (match effects[0]
     case Send(_, _) => []
     case Report(side, _) => [side]) + ReportsIn(effects[1..])
  }

  function Checked(t: Task): Outcome {
    var (u, sent) := Handshake.Check(t);
    Ran(u, sent)
  }

  class P2PTask {
    var client: TCPSocket?
    var server: TCPSocket?
    var selfnum: nat
    var othernum: nat
    var checked: bool
    var time: int
    /** The sockets handed to the OnShakFinshed callback, oldest first. */
    var finished: seq<Side>

    ghost predicate Valid()
      reads this
    {
      client != null && server != null ==> client != server
    }

    ghost function View(): Task
      reads this, client, server
    {
      Task(selfnum, othernum, checked,
           if client == null then Absent else Present(client.attached),
           if server == null then Absent else Present(server.attached))
    }

    function SentOn(side: Side): seq<Message>
      reads this, client, server
    {
      var s := if side.Client? then client else server;
      if s == null then [] else s.sent
    }

    /** `number` is the random draw and `garbage` what the uninitialised othernum happens to hold. */
    constructor (number: nat, garbage: nat)
      ensures Valid() && View() == Fresh(number, garbage) && finished == [] && time == 10
    {
      client, server := null, null;
      selfnum, othernum, checked, time, finished := number, garbage, false, 10, [];
    }

    /** GetSocketTimeout() */
    method Tick() returns (left: int)
      modifies this`time
      ensures left == time == old(time) - 1
    {
      time := time - 1;
      left := time;
    }

    method SendOn(sc: TCPSocket, cmd: Cmd, num: nat)
      modifies sc`sent
      ensures sc.sent == old(sc.sent) + [Message(cmd, num)]
    {
      sc.sent := sc.sent + [Message(cmd, num)];
    }

    /** `status` is what connectToHost() returned on the fresh socket `ts`. */
    method Connect(ts: TCPSocket, status: int) returns (result: int)
      requires Valid() && ts != client && ts != server && ts.sent == []
      modifies this`client, ts
      ensures Valid()
      ensures old(client) != null ==> result == -1 && View() == old(View()) && unchanged(ts)
      ensures old(client) == null && status != 0 ==>
                result == status && View() == old(View()) && client == null && ts.deleted
      ensures old(client) == null && status == 0 ==>
                && result == 0 && client == ts
                && View() == old(View()).(client := Present(true))
                && SentOn(Client) == [Message(REQ, selfnum)]
      ensures SentOn(Server) == old(SentOn(Server))
    {
      if client != null {
        return -1;
      }
      if status != 0 {
        ts.deleted := true;
        return status;
      }
      client := ts;
      ts.attached := true;
      SendOn(ts, REQ, selfnum);
      return 0;
    }

    /** A second incoming connection is deleted. */
    method SetServerSocket(s: TCPSocket)
      requires Valid() && s != client && s != server
      modifies this`server, s`attached, s`deleted
      ensures Valid()
      ensures old(server) != null ==>
                View() == old(View()) && server == old(server) && s.deleted && s.attached == old(s.attached)
      ensures old(server) == null ==>
                server == s && View() == old(View()).(server := Present(true)) && s.deleted == old(s.deleted)
      ensures s.sent == old(s.sent)
    {
      if server != null {
        s.deleted := true;
        return;
      }
      server := s;
      s.attached := true;
    }

    /** The handler ran to its end: its task, its sends and its reports. */
    twostate predicate Did(o: Outcome)
      reads this, client, server
    {
      && o.Ran? && View() == o.task
      && SentOn(Client) == old(SentOn(Client)) + SendsOn(o.effects, Client)
      && SentOn(Server) == old(SentOn(Server)) + SendsOn(o.effects, Server)
      && finished == old(finished) + ReportsIn(o.effects)
    }

    method Check()
      requires Valid()
      modifies this`checked
      modifies if client != null then {client} else {}, if server != null then {server} else {}
      ensures Valid()
      ensures Did(old(Checked(View())))
    {
      if selfnum > othernum {
        if checked {
          return;
        }
        checked := true;
        if client != null {
          SendOn(client, OKSERVERREQ, 100);
          return;
        }
        if server != null {
          SendOn(server, OKCLIENTREQ, 100);
          return;
        }
      }
    }

    function SideOf(s: TCPSocket): Side
      reads this
    {
      if s == client then Client else Server
    }

    /** ACK: check() with the old number, then the new one is stored. */
    method OnAck(s: TCPSocket, num: nat)
      requires Valid() && (s == client || s == server)
      modifies this`checked, this`othernum
      modifies if client != null then {client} else {}, if server != null then {server} else {}
      ensures Valid() && Did(old(Handle(View(), SideOf(s), Message(ACK, num))))
    {
      Check();
      othernum := num;
    }

    /** SendSelf() on one of the task's own sockets. */
    method Answer(s: TCPSocket, cmd: Cmd, num: nat)
      requires Valid() && (s == client || s == server)
      modifies s`sent
      ensures View() == old(View())
      ensures SentOn(Client) == old(SentOn(Client)) + if SideOf(s).Client? then [Message(cmd, num)] else []
      ensures SentOn(Server) == old(SentOn(Server)) + if SideOf(s).Server? then [Message(cmd, num)] else []
    {
      SendOn(s, cmd, num);
    }

    /** REQ: the same, and the own number in answer. */
    method OnReq(s: TCPSocket, num: nat)
      requires Valid() && (s == client || s == server)
      modifies this`checked, this`othernum
      modifies if client != null then {client} else {}, if server != null then {server} else {}
      ensures Valid() && Did(old(Handle(View(), SideOf(s), Message(REQ, num))))
    {
      ghost var a, ack := Handle(View(), SideOf(s), Message(ACK, num)), [Message(ACK, selfnum)];
      ReqEffects(View(), SideOf(s), num);
      Regroup(SentOn(Client), SendsOn(a.effects, Client), if SideOf(s).Client? then ack else []);
      Regroup(SentOn(Server), SendsOn(a.effects, Server), if SideOf(s).Server? then ack else []);
      OnAck(s, num);
      Answer(s, ACK, selfnum);
    }

    /** OKSERVERREQ and OKCLIENTREQ: answer on the proposed connection and report it. */
    method OnProposal(side: Side)
      requires Valid() && (if side.Client? then client else server) != null
      modifies this`finished
      modifies if client != null then {client} else {}, if server != null then {server} else {}
      ensures Valid()
      ensures Did(old(Handle(View(), side, Message(if side.Client? then OKCLIENTREQ else OKSERVERREQ, 0))))
    {
      var socket, answer := if side.Client? then client else server, if side.Client? then OKSERVERACK else OKCLIENTACK;
      SendOn(socket, answer, 100);
      socket.attached := false;
      finished := finished + [side];
    }

    /** OKSERVERACK and OKCLIENTACK: report the answered connection. */
    method OnAnswer(side: Side)
      requires Valid() && (if side.Client? then client else server) != null
      modifies this`finished
      modifies if client != null then {client} else {}, if server != null then {server} else {}
      ensures Valid()
      ensures Did(old(Handle(View(), side, Message(if side.Client? then OKCLIENTACK else OKSERVERACK, 0))))
    {
      var socket := if side.Client? then client else server;
      socket.attached := false;
      finished := finished + [side];
    }

    /**
     Called on a socket whose slot is attached, with what recve() returned: only the first box
     counts, and nothing happens unless it holds a message.  The reachable states never make the
     handler dereference null.
     */
    method SlotRead(s: TCPSocket, re: seq<Box>)
      requires Valid() && (s == client || s == server)
      requires re != [] && re[0].Holding? ==> Handle(View(), SideOf(s), re[0].msg).Ran?
      modifies this`checked, this`othernum, this`finished
      modifies if client != null then {client} else {}, if server != null then {server} else {}
      ensures Valid()
      ensures re != [] && re[0].Holding? ==> Did(old(Handle(View(), SideOf(s), re[0].msg)))
      ensures re == [] || !re[0].Holding? ==>
                && View() == old(View()) && finished == old(finished)
                && SentOn(Client) == old(SentOn(Client)) && SentOn(Server) == old(SentOn(Server))
    {
      if |re| == 0 {
        return;
      }
      if re[0].Short? {
        return;
      }
      if re[0].Foreign? {
        return;
      }
      var sp := re[0].msg;
      match sp.cmd
      case ACK => OnAck(s, sp.num);
      case REQ => OnReq(s, sp.num);
      case OKSERVERREQ => OnProposal(Server);
      case OKCLIENTREQ => OnProposal(Client);
      case OKSERVERACK => OnAnswer(Server);
      case OKCLIENTACK => OnAnswer(Client);
    }

    /**
     A delivery inside a run of the two peers: this is the task of `p`, and the boxes hold the first
     messages that wait on its socket.  Its state, what it sends on either socket and what it reports
     are those of the read step.
     */
    method SlotReadInRun(s: TCPSocket, re: seq<Box>, ghost n: Numbers, ghost steps: seq<Step>,
                         ghost sys: System, ghost p: Party)
      returns (ghost onClient: seq<Message>, ghost onServer: seq<Message>, ghost reports: seq<Side>)
      requires Valid() && (s == client || s == server)
      requires sys == Run(Init(n.a, n.oa, n.b, n.ob), steps)
      requires View() == sys.Of(p) && CanRead(sys, p, SideOf(s), |re|)
      requires forall i :: 0 <= i < |re| ==> re[i] == Holding(sys.Inbox(p, SideOf(s))[i])
      modifies this`checked, this`othernum, this`finished
      modifies if client != null then {client} else {}, if server != null then {server} else {}
      ensures Valid() && SideOf(s) == old(SideOf(s))
      ensures var u := Next(sys, Read(p, SideOf(s), |re|));
              && View() == u.Of(p)
              && Outbox(u, p, Client) == Outbox(sys, p, Client) + onClient
              && Outbox(u, p, Server) == Outbox(sys, p, Server) + onServer
              && ReportsOf(u.log, p) == ReportsOf(sys.log, p) + reports
      ensures SentOn(Client) == old(SentOn(Client)) + onClient && SentOn(Server) == old(SentOn(Server)) + onServer
      ensures finished == old(finished) + reports
    {
      ReadIsHandle(n, steps, p, SideOf(s), |re|);
      ghost var o := Handle(View(), SideOf(s), re[0].msg);
      onClient, onServer, reports := SendsOn(o.effects, Client), SendsOn(o.effects, Server), ReportsIn(o.effects);
      SlotRead(s, re);
    }
  }

  lemma {:induction false} AppendedSends(effects: seq<Effect>, e: Effect, side: Side)
    ensures SendsOn(effects + [e], side)
         == SendsOn(effects, side) + (if e.Send? && e.side == side then [e.msg] else [])
  {
    if effects == [] {
      assert effects + [e] == [e];
    } else {
      AppendedSends(effects[1..], e, side);
      assert (effects + [e])[1..] == effects[1..] + [e];
      Regroup(if effects[0].Send? && effects[0].side == side then [effects[0].msg] else [], SendsOn(effects[1..], side),
              if e.Send? && e.side == side then [e.msg] else []);
    }
  }

  lemma {:induction false} AppendedReports(effects: seq<Effect>, e: Effect)
    ensures ReportsIn(effects + [e]) == ReportsIn(effects) + (if e.Report? then [e.side] else [])
  {
    if effects == [] {
      assert effects + [e] == [e];
    } else {
      AppendedReports(effects[1..], e);
      assert (effects + [e])[1..] == effects[1..] + [e];
    }
  }

  lemma Regroup(a: seq<Message>, b: seq<Message>, c: seq<Message>)
    ensures a + b + c == a + (b + c)
  {
  }

  /** A REQ has the effects of an ACK, and the answer. */
  lemma ReqEffects(t: Task, side: Side, num: nat)
    ensures var a, r := Handle(t, side, Message(ACK, num)), Handle(t, side, Message(REQ, num));
            var ack := [Message(ACK, t.selfnum)];
            && a.Ran? && r.Ran? && a.task == r.task && ReportsIn(a.effects) == ReportsIn(r.effects) == []
            && SendsOn(r.effects, Client) == SendsOn(a.effects, Client) + (if side.Client? then ack else [])
            && SendsOn(r.effects, Server) == SendsOn(a.effects, Server) + (if side.Server? then ack else [])
  {
    var sent, ack := Handshake.Check(t).1, Send(side, Message(ACK, t.selfnum));
    AppendedSends(sent, ack, Client);
    AppendedSends(sent, ack, Server);
    AppendedReports(sent, ack);
    if sent != [] {
      AppendedReports([], sent[0]);
      assert sent == [] + [sent[0]];
    }
  }

  /** Where the messages `p` sends on its socket `side` wait to be read. */
  function Outbox(s: System, p: Party, side: Side): seq<Message> {
    s.Inbox(Other(p), Opposite(side))
  }

  /** The sockets `p` has reported, oldest first. */
  function ReportsOf(log: seq<Event>, p: Party): seq<Side> {
    if log == [] then [] else
    ReportsOf(log[..|log| - 1], p) +
      (var e := log[|log| - 1]; if e.Reported? && e.party == p then [e.side] else [])
  }

  lemma ReportsOfOne(log: seq<Event>, p: Party, e: Effect)
    ensures ReportsOf(log + Events(p, e), p) == ReportsOf(log, p) + (if e.Report? then [e.side] else [])
  {
    if Events(p, e) == [] {
      assert log + [] == log;
    } else {
      assert (log + Events(p, e))[..|log|] == log;
    }
  }

  /** What a task sends is what its handler's effects add to the two connections. */
  lemma {:induction false} PerformIsSends(s: System, p: Party, effects: seq<Effect>, side: Side)
    ensures Outbox(Perform(s, p, effects), p, side) == Outbox(s, p, side) + SendsOn(effects, side)
    ensures Perform(s, p, effects).Inbox(p, side) == s.Inbox(p, side)
    decreases |effects|
  {
    if effects == [] {
    } else {
      var n := |effects| - 1;
      PerformIsSends(s, p, effects[..n], side);
      assert effects == effects[..n] + [effects[n]];
      PerformAppend(s, p, effects[..n], effects[n]);
      AppendedSends(effects[..n], effects[n], side);
    }
  }

  lemma JoinReports(a: seq<Side>, b: seq<Side>, c: seq<Side>)
    ensures a + b + c == a + (b + c)
  {
  }

  /** What a task reports is what its handler's effects add to the log. */
  lemma {:induction false} PerformIsReports(s: System, p: Party, effects: seq<Effect>)
    ensures ReportsOf(Perform(s, p, effects).log, p) == ReportsOf(s.log, p) + ReportsIn(effects)
    decreases |effects|
  {
    if effects == [] {
    } else {
      var e := effects[0];
      PerformIsReports(PerformOne(s, p, e), p, effects[1..]);
      ReportsOfOne(s.log, p, e);
      assert PerformOne(s, p, e).log == s.log + Events(p, e);
      JoinReports(ReportsOf(s.log, p), if e.Report? then [e.side] else [], ReportsIn(effects[1..]));
    }
  }

  /**
   The read step is the handler on the first of the messages it takes: the task becomes the
   handler's, both connections grow by its sends, the log by its reports, and the messages taken are gone.
   */
  lemma {:induction false} ReadIsHandle(n: Numbers, steps: seq<Step>, p: Party, side: Side, k: nat)
    requires CanRead(Run(Init(n.a, n.oa, n.b, n.ob), steps), p, side, k)
    ensures var s := Run(Init(n.a, n.oa, n.b, n.ob), steps);
            var o, u := Handle(s.Of(p), side, s.Inbox(p, side)[0]), Next(s, Read(p, side, k));
            && o.Ran? && u.Of(p) == o.task && u.Of(Other(p)) == s.Of(Other(p))
            && Outbox(u, p, Client) == Outbox(s, p, Client) + SendsOn(o.effects, Client)
            && Outbox(u, p, Server) == Outbox(s, p, Server) + SendsOn(o.effects, Server)
            && ReportsOf(u.log, p) == ReportsOf(s.log, p) + ReportsIn(o.effects)
            && u.Inbox(p, side) == s.Inbox(p, side)[k..]
            && u.Inbox(p, Opposite(side)) == s.Inbox(p, Opposite(side))
  {
    var s := Run(Init(n.a, n.oa, n.b, n.ob), steps);
    Reachable(n, steps);
    ReadKeepsInv(s, n, p, side, k);
    var o := Handle(s.Of(p), side, s.Inbox(p, side)[0]);
    var d := s.WithInbox(p, side, s.Inbox(p, side)[k..]);
    PerformIsSends(d.WithTask(p, o.task), p, o.effects, Client);
    PerformIsSends(d.WithTask(p, o.task), p, o.effects, Server);
    PerformIsReports(d.WithTask(p, o.task), p, o.effects);
    PerformLeavesTasks(d, p, o.task, o.effects);
    PerformLeavesOther(d.WithTask(p, o.task), p, o.effects);
  }

  lemma {:induction false} PerformLeavesOther(s: System, p: Party, effects: seq<Effect>)
    ensures Perform(s, p, effects).Of(Other(p)) == s.Of(Other(p))
    decreases |effects|
  {
    if effects == [] {
    } else {
      PerformLeavesOther(PerformOne(s, p, effects[0]), p, effects[1..]);
    }
  }
}
