/**
 Connecting a member function that is connected already.  The map entry is overwritten and the old
 slot is neither deleted nor reachable from the signal any more.
 */
module SignalReconnect {
  import opened SignalSteps
  import opened SignalDelivery
  import opened SignalSync

  /** The slot lives on, but no connection leads to it. */
  predicate Retired(s: State, slot: int) {
    slot in s.slots && forall p :: p in s.connections ==> s.connections[p].slot != slot
  }

  predicate Serves(m: Emitter, slot: int) {
    exists i :: 0 <= i < |m.todo| && m.todo[i].slot == slot
  }

  /** The emits under way that have yet to serve the slot. */
  function Servers(s: State, slot: int): set<int> {
    set e | e in s.emitters && Serves(s.emitters[e], slot)
  }

  lemma ServedServes(s: State, e: int, slot: int)
    requires e in s.emitters && s.emitters[e].todo != []
    ensures Servers(Served(s, e), slot) <= Servers(s, slot)
  {
    forall d | d in Servers(Served(s, e), slot) ensures d in Servers(s, slot) {
      if d == e {
        var i :| 0 <= i < |s.emitters[e].todo[1..]| && s.emitters[e].todo[1..][i].slot == slot;
        assert s.emitters[e].todo[i + 1].slot == slot;
      }
    }
  }

  lemma EmitAvoidsRetired(s: State, e: int, g: int, sync: bool, arg: Arg, order: seq<Port>, slot: int)
    requires Retired(s, slot) && WalkOf(s, g, order)
    ensures !Serves(Emitting(s, e, g, sync, arg, order).emitters[e], slot)
  {
  }

  lemma DeleteKeepsRetired(s: State, ports: set<Port>, slot: int)
    requires Retired(s, slot) && ports <= s.connections.Keys
    ensures Retired(Deleted(s, ports), slot)
  {
  }

  lemma OtherStepsKeepSlots(s: State, step: Step, slot: int)
    requires !step.Disconnect? && !step.Clear? && slot in s.slots
    ensures slot in Next(s, step).slots
  {
    if Enabled(s, step) {
      match step
      case PushArg(e, t) => assert slot in Pushed(s, e, t).slots;
      case Post(e, t) => assert slot in Posted(s, e, t).slots;
      case InvokeInPlace(e, t) => assert slot in InvokedInPlace(s, e, t).slots;
      case Invoke(w, t) => assert slot in InvokeTicket(s, t).slots;
      case _ =>
    }
  }

  lemma ConnectKeepsRetired(s: State, p: Port, obj: int, made: int, slot: int)
    requires Retired(s, slot) && made !in s.slots
    ensures Retired(Connected(s, p, obj, made), slot)
  {
  }

  lemma RetiredConnections(s: State, step: Step, slot: int)
    requires Retired(s, slot)
    ensures Retired(Next(s, step), slot)
  {
    if !step.Connect? && !step.Disconnect? && !step.Clear? {
      OtherStepsKeepConnections(s, step);
      OtherStepsKeepSlots(s, step, slot);
    } else if Enabled(s, step) {
      match step
      case Connect(p, obj, made) => ConnectKeepsRetired(s, p, obj, made, slot);
      case Disconnect(p) => if p in s.connections { DeleteKeepsRetired(s, {p}, slot); }
      case Clear(g) => DeleteKeepsRetired(s, PortsOf(s, g), slot);
    }
  }

  lemma RetiredServers(s: State, step: Step, slot: int)
    requires Retired(s, slot)
    ensures Servers(Next(s, step), slot) <= Servers(s, slot)
  {
    if Enabled(s, step) {
      match step
      case BeginEmit(e, g, sync, arg, order) => EmitAvoidsRetired(s, e, g, sync, arg, order, slot);
      case Post(e, t) => if s.emitters[e].todo != [] { ServedServes(s, e, slot); }
      case InvokeInPlace(e, t) => if s.emitters[e].todo != [] { ServedServes(s, e, slot); }
      case _ =>
    }
  }

  lemma {:induction false} RetiredForEver(s: State, steps: seq<Step>, slot: int)
    requires Retired(s, slot)
    ensures Retired(RunFrom(s, steps), slot) && Servers(RunFrom(s, steps), slot) <= Servers(s, slot)
  {
    if steps == [] {
    } else {
      var front, last := steps[..|steps| - 1], steps[|steps| - 1];
      RetiredForEver(s, front, slot);
      RetiredConnections(RunFrom(s, front), last, slot);
      RetiredServers(RunFrom(s, front), last, slot);
    }
  }

  lemma ConnectRetires(s: State, p: Port, obj: int, slot: int)
    requires Inv(s) && Enabled(s, Connect(p, obj, slot)) && p in s.connections
    ensures var u, former := Next(s, Connect(p, obj, slot)), s.connections[p].slot;
            && Retired(u, former) && former in s.slots
            && u.slots[former] == s.slots[former] && Servers(u, former) == Servers(s, former)
  {
    assert EntryOk(s.connections[p], s.slots, s.reg.bound);
  }

  /**
   After a second connect of the same function, no emit that begins later serves the old slot, in
   any continuation; the emits that still can were already on their way to it, and the slot, with
   whatever is queued for it, is never deleted.
   */
  lemma {:induction false} ReconnectRetires(s: State, p: Port, obj: int, slot: int, more: seq<Step>, emit: Step)
    requires Inv(s) && Enabled(s, Connect(p, obj, slot)) && p in s.connections
    ensures var former, r := s.connections[p].slot, RunFrom(Next(s, Connect(p, obj, slot)), more);
            && former in r.slots && Servers(r, former) <= Servers(s, former)
            && (emit.BeginEmit? && Enabled(r, emit) ==> emit.emitter !in Servers(Next(r, emit), former))
  {
    var former, u := s.connections[p].slot, Next(s, Connect(p, obj, slot));
    ConnectRetires(s, p, obj, slot);
    RetiredForEver(u, more, former);
    var r := RunFrom(u, more);
    if emit.BeginEmit? && Enabled(r, emit) {
      EmitAvoidsRetired(r, emit.emitter, emit.signal, emit.sync, emit.arg, emit.order, former);
    }
  }

  // ---------------------------------------------------------------- who still pushes to the old slot

  /** Some emit under way has an entry for the slot whose argument it has yet to push. */
  ghost predicate YetToPush(s: State, slot: int) {
    exists e, i :: e in s.emitters && PushAhead(s, slot, e, i)
  }

  predicate PushAhead(s: State, slot: int, e: int, i: int)
    requires e in s.emitters
  {
    0 <= i < |s.emitters[e].todo| && s.emitters[e].todo[i].slot == slot && (i > 0 || !Announcing(s, e))
  }

  /** A step that finds nobody about to push to the slot leaves nobody about to. */
  lemma NobodyPushes(s: State, step: Step, slot: int)
    requires Inv(s) && Retired(s, slot) && !YetToPush(s, slot)
    ensures !YetToPush(Next(s, step), slot)
  {
    var u := Next(s, step);
    RetiredServers(s, step, slot);
    if e, j :| e in u.emitters && PushAhead(u, slot, e, j) {
      assert u.emitters[e].todo[j].slot == slot;
      assert e in Servers(u, slot);
      assert e in Servers(s, slot);
      EmitterMoves(s, step, e);
      NextAnnounces(s, step, e);
      if ServesBy(s, step, e) {
        assert PushAhead(s, slot, e, j + 1);
      } else {
        assert PushAhead(s, slot, e, j);
      }
      assert false;
    }
  }

  lemma NobodyPushesNow(s: State, step: Step, slot: int)
    requires Inv(s) && Retired(s, slot) && !YetToPush(s, slot)
    ensures slot in Next(s, step).slots && Next(s, step).slots[slot].pushed == s.slots[slot].pushed
  {
    RetiredConnections(s, step, slot);
    SlotMoves(s, step, slot);
    if PushesTo(s, step, slot) {
      assert PushAhead(s, slot, step.emitter, 0);
    }
  }

  lemma {:induction false} NobodyEverPushes(s: State, steps: seq<Step>, slot: int)
    requires Inv(s) && Retired(s, slot) && !YetToPush(s, slot)
    ensures var u := RunFrom(s, steps);
            && Inv(u) && Retired(u, slot) && !YetToPush(u, slot) && u.slots[slot].pushed == s.slots[slot].pushed
  {
    if steps == [] {
    } else {
      var front, last := steps[..|steps| - 1], steps[|steps| - 1];
      NobodyEverPushes(s, front, slot);
      var r := RunFrom(s, front);
      NextKeeps(r, last);
      RetiredConnections(r, last, slot);
      NobodyPushes(r, last, slot);
      NobodyPushesNow(r, last, slot);
    }
  }

  // ---------------------------------------------------------------- and can always do so

  lemma OnePush(s: State, e: int) returns (t: int)
    requires Inv(s) && e in s.emitters && s.emitters[e].todo != [] && !Announcing(s, e)
    ensures Enabled(s, PushArg(e, t))
    ensures var u := Next(s, PushArg(e, t));
            Inv(u) && e in u.emitters && u.emitters[e] == s.emitters[e] && Announcing(u, e)
  {
    t := FreshIn(s.tickets.Keys);
    assert t !in s.tickets;
    NextKeeps(s, PushArg(e, t));
    EmitterMoves(s, PushArg(e, t), e);
    NextAnnounces(s, PushArg(e, t), e);
  }

  lemma OneServe(s: State, e: int) returns (step: Step)
    requires Inv(s) && e in s.emitters && Announcing(s, e)
    ensures s.emitters[e].todo != []
    ensures var u := Next(s, step);
            && Inv(u) && !Announcing(u, e)
            && e in u.emitters && u.emitters[e] == s.emitters[e].(todo := s.emitters[e].todo[1..])
  {
    var t :| t in s.tickets && s.tickets[t].stage == Announced(e);
    step := if s.emitters[e].sync then InvokeInPlace(e, t) else Post(e, t);
    assert ServesBy(s, step, e);
    NextKeeps(s, step);
    EmitterMoves(s, step, e);
    NextAnnounces(s, step, e);
  }

  /** The emit can serve its first entry, announced or not. */
  lemma ServeOneEntry(s: State, e: int) returns (steps: seq<Step>, u: State)
    requires Inv(s) && e in s.emitters && s.emitters[e].todo != []
    ensures u == RunFrom(s, steps) && Inv(u) && !Announcing(u, e)
    ensures e in u.emitters && u.emitters[e] == s.emitters[e].(todo := s.emitters[e].todo[1..])
  {
    if Announcing(s, e) {
      var serve := OneServe(s, e);
      steps, u := [serve], Next(s, serve);
      RunOne(s, serve, u);
    } else {
      var t := OnePush(s, e);
      var v := Next(s, PushArg(e, t));
      var serve := OneServe(v, e);
      steps, u := [PushArg(e, t)] + [serve], Next(v, serve);
      RunOne(s, PushArg(e, t), v);
      RunLast(s, [PushArg(e, t)], serve);
    }
  }

  /** An emit can come as far as the push of any entry it has yet to push. */
  lemma {:induction false} PushReached(s: State, e: int, i: nat) returns (front: seq<Step>, push: Step)
    requires Inv(s) && e in s.emitters && i < |s.emitters[e].todo| && (i > 0 || !Announcing(s, e))
    ensures PushesTo(RunFrom(s, front), push, s.emitters[e].todo[i].slot)
    decreases i
  {
    if i == 0 {
      var t := OnePush(s, e);
      front, push := [], PushArg(e, t);
    } else {
      var first, u := ServeOneEntry(s, e);
      var rest;
      rest, push := PushReached(u, e, i - 1);
      RunAppend(s, first, rest);
      front := first + rest;
    }
  }

  /** A push to a retired slot makes what has been pushed to it longer than it ever was. */
  lemma PushLengthens(s: State, front: seq<Step>, push: Step, slot: int)
    requires Inv(s) && Retired(s, slot) && PushesTo(RunFrom(s, front), push, slot)
    ensures Lengthens(s, front + [push], slot, |s.slots[slot].pushed|)
  {
    RetiredPushed(s, front, slot);
    RunKeeps(s, front);
    RunLast(s, front, push);
    RetiredConnections(RunFrom(s, front), push, slot);
    SlotMoves(RunFrom(s, front), push, slot);
  }

  lemma {:induction false} RetiredPushed(s: State, steps: seq<Step>, slot: int)
    requires Inv(s) && Retired(s, slot)
    ensures Retired(RunFrom(s, steps), slot)
    ensures |s.slots[slot].pushed| <= |RunFrom(s, steps).slots[slot].pushed|
  {
    if steps == [] {
    } else {
      var front, last := steps[..|steps| - 1], steps[|steps| - 1];
      RetiredPushed(s, front, slot);
      RunKeeps(s, front);
      RetiredConnections(RunFrom(s, front), last, slot);
      SlotMoves(RunFrom(s, front), last, slot);
    }
  }

  /** The run leaves more pushed to the slot than `n` arguments. */
  predicate Lengthens(s: State, steps: seq<Step>, slot: int, n: nat) {
    slot in RunFrom(s, steps).slots && |RunFrom(s, steps).slots[slot].pushed| > n
  }

  /**
   After a second connect of the same function some continuation pushes to the old slot again if
   and only if, at the connect, some emit under way still had an entry for it to push.
   */
  lemma {:induction false} OldSlotExactly(s: State, p: Port, obj: int, slot: int)
    requires Inv(s) && Enabled(s, Connect(p, obj, slot)) && p in s.connections
    ensures var former := s.connections[p].slot;
            former in s.slots &&
            ((exists more :: Lengthens(Next(s, Connect(p, obj, slot)), more, former, |s.slots[former].pushed|))
             <==> exists e, i :: e in s.emitters && PushAhead(s, former, e, i))
  {
    var former, u := s.connections[p].slot, Next(s, Connect(p, obj, slot));
    var n := |s.slots[former].pushed|;
    ConnectRetires(s, p, obj, slot);
    NextKeeps(s, Connect(p, obj, slot));
    ConnectKeepsEmits(s, p, obj, slot, former);
    if e, i :| e in s.emitters && PushAhead(s, former, e, i) {
      NextAnnounces(s, Connect(p, obj, slot), e);
      var front, push := PushReached(u, e, i);
      PushLengthens(u, front, push, former);
      assert Lengthens(u, front + [push], former, n);
    } else {
      forall more ensures !Lengthens(u, more, former, n) {
        NobodyEverPushes(u, more, former);
      }
    }
  }

  lemma ConnectKeepsEmits(s: State, p: Port, obj: int, slot: int, former: int)
    requires Inv(s) && Enabled(s, Connect(p, obj, slot))
    ensures Next(s, Connect(p, obj, slot)).emitters == s.emitters
    ensures YetToPush(Next(s, Connect(p, obj, slot)), former) <==> YetToPush(s, former)
  {
    var u := Next(s, Connect(p, obj, slot));
    OthersAnnounce(s, Connect(p, obj, slot));
    forall e, i | e in s.emitters ensures PushAhead(u, former, e, i) <==> PushAhead(s, former, e, i) {
      NextAnnounces(s, Connect(p, obj, slot), e);
    }
  }

  /** An emit that was about to serve the connection still pushes to the old slot. */
  lemma OldSlotServed(s: State, p: Port, obj: int, slot: int, e: int, t: int)
    requires Inv(s) && Enabled(s, Connect(p, obj, slot)) && p in s.connections
    requires Enabled(s, PushArg(e, t)) && s.emitters[e].sync && s.emitters[e].todo[0] == s.connections[p]
    ensures var former, u := s.connections[p].slot, Next(s, Connect(p, obj, slot));
            && Enabled(u, PushArg(e, t)) && former in s.slots
            && Next(u, PushArg(e, t)).slots == u.slots[former := AddArg(s.slots[former], s.emitters[e].arg)]
  {
    ConnectRetires(s, p, obj, slot);
    ConnectKeeps(s, p, obj, slot);
    assert Next(s, Connect(p, obj, slot)).emitters == s.emitters;
    PushWaits(Next(s, Connect(p, obj, slot)), e, t);
  }

  /** The program reaches such a state: a synchronous emit has copied the slots and given up the lock. */
  lemma OldSlotServedInARun(a: Arg, b: Arg) returns (steps: seq<Step>)
    ensures var s := Run(steps);
            var u := Next(s, Connect(PORT, 0, 1));
            && PORT in s.connections && s.connections[PORT] == Entry(0, 0) && Enabled(s, Connect(PORT, 0, 1))
            && PORT in u.connections && u.connections[PORT] == Entry(0, 1)
            && 0 in Next(u, PushArg(1, 1)).slots && Next(u, PushArg(1, 1)).slots[0].args == [a]
  {
    steps := TwoEmitsReached(a, b);
    Reachable(steps);
    OldSlotServed(TwoEmits(a, b), PORT, 0, 1, 1, 1);
  }
}
