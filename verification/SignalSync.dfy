/**
 What a synchronous emit delivers.  It pushes its argument and calls the slot in two steps, with no
 lock between them, so other emitters and loops may use the slot's queue in between.
 */
module SignalSync {
  import opened SignalSteps
  import opened SignalDelivery

  /** Emitter `e` has pushed its argument as ticket `t` and has yet to call the slot itself. */
  predicate Waiting(s: State, e: int, t: int) {
    e in s.emitters && s.emitters[e].sync && t in s.tickets && s.tickets[t].stage == Announced(e)
  }

  /** The step takes an argument of the slot: a loop's thread or an emitter calls it. */
  predicate CallsSlot(s: State, step: Step, slot: int) {
    Enabled(s, step) && (step.Invoke? || step.InvokeInPlace?) && s.tickets[step.ticket].slot == slot
  }

  predicate PushesTo(s: State, step: Step, slot: int) {
    Enabled(s, step) && step.PushArg? && s.emitters[step.emitter].todo[0].slot == slot
  }

  function Calls(s: State, steps: seq<Step>, slot: int): nat {
    if steps == [] then 0 else
    var front, last := steps[..|steps| - 1], steps[|steps| - 1];
    Calls(s, front, slot) + if CallsSlot(RunFrom(s, front), last, slot) then 1 else 0
  }

  function Pushes(s: State, steps: seq<Step>, slot: int): nat {
    if steps == [] then 0 else
    var front, last := steps[..|steps| - 1], steps[|steps| - 1];
    Pushes(s, front, slot) + if PushesTo(RunFrom(s, front), last, slot) then 1 else 0
  }

  /** The slot `b` has come from `a` by `pushes` more pushes and `calls` more calls. */
  predicate Moved(a: SlotState, b: SlotState, pushes: nat, calls: nat) {
    && a.pushed <= b.pushed && |b.pushed| == |a.pushed| + pushes
    && a.taken <= b.taken && |b.taken| == |a.taken| + calls
  }

  /** `u` still has what a waiting invocation of `s` needs. */
  predicate StillWaiting(s: State, u: State, e: int, t: int)
    requires Waiting(s, e, t)
  {
    Waiting(u, e, t) && u.tickets[t] == s.tickets[t] && u.emitters[e].arg == s.emitters[e].arg
  }

  lemma InvokeLeaves(s: State, k: int, e: int, t: int)
    requires Waiting(s, e, t) && k in s.tickets && k != t
    ensures StillWaiting(s, InvokeTicket(s, k), e, t)
  {
  }

  lemma ServedLeaves(s: State, f: int, e: int, t: int)
    requires Waiting(s, e, t) && f in s.emitters && s.emitters[f].todo != []
    ensures StillWaiting(s, Served(s, f), e, t)
  {
  }

  lemma InPlaceLeaves(s: State, f: int, k: int, e: int, t: int)
    requires Waiting(s, e, t) && k in s.tickets && f in s.emitters && k != t
    ensures StillWaiting(s, InvokedInPlace(s, f, k), e, t)
  {
    if s.emitters[f].todo != [] {
      ServedLeaves(s, f, e, t);
      InvokeLeaves(Served(s, f), k, e, t);
    }
  }

  lemma PostLeaves(s: State, f: int, k: int, e: int, t: int)
    requires Waiting(s, e, t) && k in s.tickets && f in s.emitters && k != t
    ensures StillWaiting(s, Posted(s, f, k), e, t)
  {
    if s.emitters[f].todo != [] {
      ServedLeaves(s, f, e, t);
    }
  }

  /** Nobody but the emitter itself can move a waiting invocation. */
  lemma TicketStays(s: State, e: int, t: int, step: Step)
    requires Waiting(s, e, t) && s.emitters[e].todo != [] && step != InvokeInPlace(e, t)
    ensures StillWaiting(s, Next(s, step), e, t)
  {
    if Enabled(s, step) {
      match step
      case Post(f, k) => PostLeaves(s, f, k, e, t);
      case InvokeInPlace(f, k) => InPlaceLeaves(s, f, k, e, t);
      case Invoke(w, k) => InvokeLeaves(s, k, e, t);
      case _ =>
    }
  }

  lemma HasSlot(s: State, t: int)
    requires Inv(s) && t in s.tickets
    ensures s.tickets[t].slot in s.slots
    ensures s.tickets[t].stage.Announced? ==>
              s.tickets[t].stage.emitter in s.emitters && s.emitters[s.tickets[t].stage.emitter].todo != []
  {
    assert TicketOk(s.tickets[t], s.slots, s.emitters, s.reg.loops);
  }

  lemma InvokeMoves(s: State, k: int, slot: int)
    requires Inv(s) && k in s.tickets && slot in s.slots
    ensures slot in InvokeTicket(s, k).slots
    ensures Moved(s.slots[slot], InvokeTicket(s, k).slots[slot], 0, if s.tickets[k].slot == slot then 1 else 0)
  {
    InvokeEffect(s, k);
  }

  lemma InPlaceMoves(s: State, e: int, k: int, slot: int)
    requires Inv(s) && k in s.tickets && s.tickets[k].stage == Announced(e) && e in s.emitters && slot in s.slots
    ensures InvokedInPlace(s, e, k).slots == InvokeTicket(s, k).slots
  {
    HasSlot(s, k);
  }

  lemma PushMoves(s: State, e: int, t: int, slot: int)
    requires Inv(s) && e in s.emitters && s.emitters[e].todo != [] && slot in s.slots
    ensures slot in Pushed(s, e, t).slots
    ensures Moved(s.slots[slot], Pushed(s, e, t).slots[slot], if s.emitters[e].todo[0].slot == slot then 1 else 0, 0)
  {
    assert EntryOk(s.emitters[e].todo[0], s.slots, s.reg.bound);
  }

  lemma DeleteMoves(s: State, ports: set<Port>, slot: int)
    requires ports <= s.connections.Keys && slot in Deleted(s, ports).slots
    ensures slot in s.slots && Deleted(s, ports).slots[slot] == s.slots[slot]
  {
  }

  lemma SlotStands(s: State, step: Step, slot: int)
    requires slot in s.slots && slot in Next(s, step).slots
    requires !step.PushArg? && !step.Invoke? && !step.InvokeInPlace?
    ensures Next(s, step).slots[slot] == s.slots[slot]
  {
    if Enabled(s, step) {
      match step
      case Disconnect(p) => if p in s.connections { DeleteMoves(s, {p}, slot); }
      case Clear(g) => DeleteMoves(s, PortsOf(s, g), slot);
      case _ =>
    }
  }

  lemma SlotMoves(s: State, step: Step, slot: int)
    requires Inv(s) && slot in s.slots && slot in Next(s, step).slots
    ensures Moved(s.slots[slot], Next(s, step).slots[slot],
                  if PushesTo(s, step, slot) then 1 else 0, if CallsSlot(s, step, slot) then 1 else 0)
  {
    if !step.PushArg? && !step.Invoke? && !step.InvokeInPlace? {
      SlotStands(s, step, slot);
    } else if Enabled(s, step) {
      match step
      case PushArg(e, t) => PushMoves(s, e, t, slot);
      case Invoke(w, k) => InvokeMoves(s, k, slot);
      case InvokeInPlace(e, k) =>
        InvokeMoves(s, k, slot);
        InPlaceMoves(s, e, k, slot);
    }
  }

  lemma {:induction false} WaitingRun(s: State, e: int, t: int, steps: seq<Step>)
    requires Inv(s) && Waiting(s, e, t)
    requires forall i :: 0 <= i < |steps| ==> steps[i] != InvokeInPlace(e, t)
    ensures var u, slot := RunFrom(s, steps), s.tickets[t].slot;
            && Inv(u) && Waiting(u, e, t) && u.tickets[t] == s.tickets[t] && slot in s.slots && slot in u.slots
            && u.emitters[e].arg == s.emitters[e].arg
            && Moved(s.slots[slot], u.slots[slot], Pushes(s, steps, slot), Calls(s, steps, slot))
  {
    RunKeeps(s, steps);
    if steps == [] {
      HasSlot(s, t);
    } else {
      var front, last := steps[..|steps| - 1], steps[|steps| - 1];
      WaitingRun(s, e, t, front);
      HasSlot(RunFrom(s, front), t);
      TicketStays(RunFrom(s, front), e, t, last);
      HasSlot(RunFrom(s, steps), t);
      SlotMoves(RunFrom(s, front), last, s.tickets[t].slot);
    }
  }

  // ---------------------------------------------------------------- what an emit has announced

  predicate PushBy(s: State, step: Step, e: int) {
    step.PushArg? && step.emitter == e && Enabled(s, step)
  }

  predicate PostBy(s: State, step: Step, e: int) {
    step.Post? && step.emitter == e && Enabled(s, step)
  }

  /** The emit is done with its first entry. */
  predicate ServesBy(s: State, step: Step, e: int) {
    PostBy(s, step, e) || (step.InvokeInPlace? && step.emitter == e && Enabled(s, step))
  }

  predicate EndBy(s: State, step: Step, e: int) {
    step == EndEmit(e) && Enabled(s, step)
  }

  /** Only beginning, serving and ending an emit touch the emitters and the locks. */
  lemma OthersKeepEmitters(s: State, step: Step)
    requires !step.BeginEmit? && !step.EndEmit? && !step.Post? && !step.InvokeInPlace?
    ensures Next(s, step).emitters == s.emitters && Next(s, step).locks == s.locks
  {
  }

  lemma PostMoves(s: State, f: int, t: int)
    requires Inv(s) && f in s.emitters && t in s.tickets && s.tickets[t].stage == Announced(f)
    ensures s.emitters[f].todo != [] && Posted(s, f, t).emitters == Served(s, f).emitters
  {
    HasSlot(s, t);
    assert EntryOk(s.emitters[f].todo[0], s.slots, s.reg.bound);
  }

  lemma InPlaceServes(s: State, f: int, t: int)
    requires Inv(s) && f in s.emitters && t in s.tickets && s.tickets[t].stage == Announced(f)
    ensures s.emitters[f].todo != [] && InvokedInPlace(s, f, t).emitters == Served(s, f).emitters
  {
    HasSlot(s, t);
  }

  /** An emit under way keeps what it is; it moves on by one entry when it serves one, until it ends. */
  lemma EmitterMoves(s: State, step: Step, e: int)
    requires Inv(s) && e in s.emitters && !EndBy(s, step, e)
    ensures var before, u := s.emitters[e], Next(s, step);
            && (ServesBy(s, step, e) ==> before.todo != [])
            && e in u.emitters
            && u.emitters[e] == if ServesBy(s, step, e) then before.(todo := before.todo[1..]) else before
  {
    if !step.BeginEmit? && !step.EndEmit? && !step.Post? && !step.InvokeInPlace? {
      OthersKeepEmitters(s, step);
    } else if Enabled(s, step) {
      match step
      case Post(f, t) => PostMoves(s, f, t);
      case InvokeInPlace(f, t) => InPlaceServes(s, f, t);
      case _ =>
    }
  }

  lemma TicketPut(s: State, u: State, t: int, k: Ticket, e: int)
    requires u.tickets == s.tickets[t := k]
    requires t in s.tickets ==> s.tickets[t].stage != Announced(e)
    ensures Announcing(u, e) <==> Announcing(s, e) || k.stage == Announced(e)
  {
    if Announcing(s, e) {
      var d :| d in s.tickets && s.tickets[d].stage == Announced(e);
      assert d in u.tickets && u.tickets[d].stage == Announced(e);
    } else if k.stage == Announced(e) {
      assert t in u.tickets;
    }
  }

  lemma TicketDropped(s: State, u: State, t: int, e: int)
    requires t in s.tickets && u.tickets == s.tickets - {t} && s.tickets[t].stage != Announced(e)
    ensures Announcing(u, e) <==> Announcing(s, e)
  {
    if Announcing(s, e) {
      var d :| d in s.tickets && s.tickets[d].stage == Announced(e);
      assert d in u.tickets && u.tickets[d].stage == Announced(e);
    }
  }

  lemma TicketServed(s: State, u: State, t: int, e: int)
    requires OneAtATime(s.tickets) && t in s.tickets && s.tickets[t].stage == Announced(e)
    requires u.tickets == s.tickets - {t} || exists k: Ticket :: !k.stage.Announced? && u.tickets == s.tickets[t := k]
    ensures !Announcing(u, e)
  {
  }

  lemma PushAnnounces(s: State, f: int, t: int, e: int)
    requires Inv(s) && f in s.emitters && s.emitters[f].todo != [] && t !in s.tickets
    ensures Announcing(Pushed(s, f, t), e) <==> Announcing(s, e) || e == f
  {
    assert EntryOk(s.emitters[f].todo[0], s.slots, s.reg.bound);
    TicketPut(s, Pushed(s, f, t), t, Ticket(s.emitters[f].todo[0].slot, Announced(f)), e);
  }

  lemma PostAnnounces(s: State, f: int, t: int, e: int)
    requires Inv(s) && f in s.emitters && t in s.tickets && s.tickets[t].stage == Announced(f)
    ensures Announcing(Posted(s, f, t), e) <==> Announcing(s, e) && e != f
  {
    HasSlot(s, t);
    assert EntryOk(s.emitters[f].todo[0], s.slots, s.reg.bound);
    var u := Posted(s, f, t);
    var k := u.tickets[t];
    assert u.tickets == s.tickets[t := k] && k.stage.Queued?;
    if e == f { TicketServed(s, u, t, e); } else { TicketPut(s, u, t, k, e); }
  }

  lemma InPlaceAnnounces(s: State, f: int, t: int, e: int)
    requires Inv(s) && f in s.emitters && t in s.tickets && s.tickets[t].stage == Announced(f)
    ensures Announcing(InvokedInPlace(s, f, t), e) <==> Announcing(s, e) && e != f
  {
    HasSlot(s, t);
    InvokeEffect(s, t);
    var u := InvokedInPlace(s, f, t);
    assert u.tickets == s.tickets - {t};
    if e == f { TicketServed(s, u, t, e); } else { TicketDropped(s, u, t, e); }
  }

  lemma LoopAnnounces(s: State, step: Step, e: int)
    requires Inv(s) && (step.Dequeue? || step.Invoke?)
    ensures Announcing(Next(s, step), e) <==> Announcing(s, e)
  {
    if Enabled(s, step) {
      match step
      case Dequeue(w, t) => TicketPut(s, Dequeued(s, w, t), t, Ticket(s.tickets[t].slot, Held(w)), e);
      case Invoke(w, t) =>
        InvokeEffect(s, t);
        TicketDropped(s, InvokeTicket(s, t), t, e);
    }
  }

  lemma OthersAnnounce(s: State, step: Step)
    requires !step.PushArg? && !step.Post? && !step.InvokeInPlace? && !step.Dequeue? && !step.Invoke?
    ensures Next(s, step).tickets == s.tickets
  {
  }

  /** An emit starts announcing an entry by its push and stops by serving it; nothing else matters. */
  lemma NextAnnounces(s: State, step: Step, e: int)
    requires Inv(s)
    ensures Announcing(Next(s, step), e) <==> PushBy(s, step, e) || (Announcing(s, e) && !ServesBy(s, step, e))
  {
    if step.Dequeue? || step.Invoke? {
      LoopAnnounces(s, step, e);
    } else if !step.PushArg? && !step.Post? && !step.InvokeInPlace? {
      OthersAnnounce(s, step);
    } else if Enabled(s, step) {
      match step
      case PushArg(f, t) => PushAnnounces(s, f, t, e);
      case Post(f, t) => PostAnnounces(s, f, t, e);
      case InvokeInPlace(f, t) => InPlaceAnnounces(s, f, t, e);
    }
  }

  // ---------------------------------------------------------------- which argument the call takes

  /** The push of `e` and everything that happens before its own call of the slot. */
  predicate PushThen(s: State, e: int, t: int, between: seq<Step>) {
    && Enabled(s, PushArg(e, t)) && s.emitters[e].sync
    && forall i :: 0 <= i < |between| ==> between[i] != InvokeInPlace(e, t)
  }

  lemma PushWaits(s: State, e: int, t: int)
    requires Inv(s) && Enabled(s, PushArg(e, t)) && s.emitters[e].sync
    ensures var u, slot := Next(s, PushArg(e, t)), s.emitters[e].todo[0].slot;
            && slot in s.slots && Inv(u) && Waiting(u, e, t) && u.tickets[t].slot == slot
            && u.slots == s.slots[slot := AddArg(s.slots[slot], s.emitters[e].arg)]
            && u.emitters[e].arg == s.emitters[e].arg
  {
    assert EntryOk(s.emitters[e].todo[0], s.slots, s.reg.bound);
    PushKeeps(s, e, t);
  }

  /** A waiting call takes the oldest argument not yet taken. */
  lemma CallTakesOldest(v: State, e: int, t: int)
    requires Inv(v) && Waiting(v, e, t)
    ensures var w, slot := Next(v, InvokeInPlace(e, t)), v.tickets[t].slot;
            && slot in v.slots && slot in w.slots && |v.slots[slot].taken| < |v.slots[slot].pushed|
            && w.slots[slot].taken == v.slots[slot].taken + [v.slots[slot].pushed[|v.slots[slot].taken|]]
  {
    HasSlot(v, t);
    InvokeEffect(v, t);
    InPlaceMoves(v, e, t, v.tickets[t].slot);
    var a := v.slots[v.tickets[t].slot];
    assert (a.taken + a.args)[|a.taken|] == a.args[0];
  }

  /**
   A synchronous emit calls its slot with the oldest argument not yet taken, whatever other
   emitters and loops did since its push.  That argument is its own push, the one numbered by
   what had been pushed before, if and only if exactly as many other calls of the slot came in
   between as arguments were queued before the push.
   */
  lemma {:induction false} SyncTakesOwn(s: State, e: int, t: int, between: seq<Step>)
    requires Inv(s) && PushThen(s, e, t, between)
    ensures var slot, u := s.emitters[e].todo[0].slot, Next(s, PushArg(e, t));
            var v := RunFrom(u, between);
            var w := Next(v, InvokeInPlace(e, t));
            && slot in s.slots && slot in v.slots && slot in w.slots
            && |s.slots[slot].pushed| < |v.slots[slot].pushed| && |v.slots[slot].taken| < |v.slots[slot].pushed|
            && v.slots[slot].pushed[|s.slots[slot].pushed|] == s.emitters[e].arg
            && w.slots[slot].taken == v.slots[slot].taken + [v.slots[slot].pushed[|v.slots[slot].taken|]]
            && (|v.slots[slot].taken| == |s.slots[slot].pushed| <==> Calls(u, between, slot) == |s.slots[slot].args|)
  {
    var slot, u := s.emitters[e].todo[0].slot, Next(s, PushArg(e, t));
    PushWaits(s, e, t);
    WaitingRun(u, e, t, between);
    CallTakesOldest(RunFrom(u, between), e, t);
    assert u.slots[slot].pushed[|s.slots[slot].pushed|] == s.emitters[e].arg;
  }

  /**
   For a caller: when the slot's queue is empty before the emit and nobody else pushes to the slot
   until its call, the call delivers the emitted argument.
   */
  lemma {:induction false} SyncAlone(s: State, e: int, t: int, between: seq<Step>)
    requires Inv(s) && PushThen(s, e, t, between)
    requires var slot := s.emitters[e].todo[0].slot;
             slot in s.slots && s.slots[slot].args == [] && Pushes(Next(s, PushArg(e, t)), between, slot) == 0
    ensures var slot := s.emitters[e].todo[0].slot;
            var w := Next(RunFrom(Next(s, PushArg(e, t)), between), InvokeInPlace(e, t));
            slot in w.slots && w.slots[slot].taken == s.slots[slot].taken + [s.emitters[e].arg]
  {
    var slot, u := s.emitters[e].todo[0].slot, Next(s, PushArg(e, t));
    var v := RunFrom(u, between);
    PushWaits(s, e, t);
    WaitingRun(u, e, t, between);
    SyncTakesOwn(s, e, t, between);
    assert v.slots[slot].taken == s.slots[slot].taken;
  }

  // ---------------------------------------------------------------- two emitters cross

  /** Two synchronous emitters are about to serve the same slot, whose queue is empty. */
  predicate Crossing(s: State, e: int, f: int, slot: int) {
    && e != f && e in s.emitters && f in s.emitters
    && s.emitters[e].sync && s.emitters[f].sync && s.emitters[e].todo != [] && s.emitters[f].todo != []
    && s.emitters[e].todo[0].slot == slot == s.emitters[f].todo[0].slot
    && !Announcing(s, e) && !Announcing(s, f)
    && slot in s.slots && s.slots[slot].args == []
  }

  lemma CrossedPushes(s: State, e: int, f: int, slot: int, t: int, k: int) returns (v: State)
    requires Inv(s) && Crossing(s, e, f, slot) && t !in s.tickets && k !in s.tickets && t != k
    ensures v == Next(Next(s, PushArg(e, t)), PushArg(f, k)) && Inv(v)
    ensures Waiting(v, e, t) && v.tickets[t].slot == slot
    ensures Waiting(v, f, k) && v.tickets[k].slot == slot && slot in v.slots
    ensures v.slots[slot] == AddArg(AddArg(s.slots[slot], s.emitters[e].arg), s.emitters[f].arg)
  {
    var u := Next(s, PushArg(e, t));
    PushWaits(s, e, t);
    assert !Announcing(u, f);
    v := Next(u, PushArg(f, k));
    PushWaits(u, f, k);
    TicketStays(u, e, t, PushArg(f, k));
  }

  lemma CrossedInvokes(v: State, e: int, f: int, t: int, k: int)
    requires Inv(v) && e != f && t != k
    requires Waiting(v, e, t) && Waiting(v, f, k) && v.tickets[t].slot == v.tickets[k].slot
    ensures var slot := v.tickets[t].slot;
            var w := Next(v, InvokeInPlace(f, k));
            var x := Next(w, InvokeInPlace(e, t));
            && slot in v.slots && |v.slots[slot].taken| + 2 <= |v.slots[slot].pushed|
            && slot in w.slots
            && w.slots[slot].taken == v.slots[slot].taken + [v.slots[slot].pushed[|v.slots[slot].taken|]]
            && slot in x.slots
            && x.slots[slot].taken == w.slots[slot].taken + [v.slots[slot].pushed[|v.slots[slot].taken| + 1]]
  {
    HasSlot(v, t);
    var w := Next(v, InvokeInPlace(f, k));
    CallTakesOldest(v, f, k);
    TicketStays(v, e, t, InvokeInPlace(f, k));
    NextKeeps(v, InvokeInPlace(f, k));
    SlotMoves(v, InvokeInPlace(f, k), v.tickets[t].slot);
    CallTakesOldest(w, e, t);
  }

  /** Both push and then call in the opposite order: each call delivers the argument of the other emitter. */
  lemma CrossedCalls(s: State, e: int, f: int, slot: int, t: int, k: int)
    requires Inv(s) && Crossing(s, e, f, slot) && t !in s.tickets && k !in s.tickets && t != k
    ensures var w := Next(Next(Next(s, PushArg(e, t)), PushArg(f, k)), InvokeInPlace(f, k));
            var x := Next(w, InvokeInPlace(e, t));
            && slot in w.slots && w.slots[slot].taken == s.slots[slot].taken + [s.emitters[e].arg]
            && slot in x.slots && x.slots[slot].taken == w.slots[slot].taken + [s.emitters[f].arg]
  {
    var v := CrossedPushes(s, e, f, slot, t, k);
    CrossedInvokes(v, e, f, t, k);
    assert s.slots[slot].pushed == s.slots[slot].taken;
  }

  // ---------------------------------------------------------------- such a crossing is reached

  const PORT: Port := Port(0, Fid(0))

  /** One object, one connected slot and two synchronous emits of it under way. */
  function TwoEmits(a: Arg, b: Arg): State {
    State(Loops(map[0 := 0], map[0 := 0], map[0 := 0], map[0 := 0]),
          map[0 := NewSlot()], map[PORT := Entry(0, 0)], map[],
          map[1 := Emitter(0, true, a, [Entry(0, 0)]), 2 := Emitter(0, true, b, [Entry(0, 0)])], map[], map[], false)
  }

  lemma EmitOne(s: State, e: int, arg: Arg)
    requires s.connections == map[PORT := Entry(0, 0)] && s.locks == map[] && e !in s.emitters
    ensures Next(s, BeginEmit(e, 0, true, arg, [PORT]))
         == s.(emitters := s.emitters[e := Emitter(0, true, arg, [Entry(0, 0)])])
  {
    assert [PORT][0] == PORT && WalkOf(s, 0, [PORT]);
    assert seq(|[PORT]|, i requires 0 <= i < |[PORT]| => s.connections[[PORT][i]]) == [Entry(0, 0)];
  }

  lemma TwoEmitsReached(a: Arg, b: Arg) returns (steps: seq<Step>)
    ensures Run(steps) == TwoEmits(a, b)
  {
    var s0 := Start();
    var s1 := Next(s0, Bind(0, 0, 0));
    assert s1 == s0.(reg := TwoEmits(a, b).reg);
    var s2 := Next(s1, Connect(PORT, 0, 0));
    assert s2 == s1.(slots := map[0 := NewSlot()], connections := map[PORT := Entry(0, 0)]);
    var s3 := Next(s2, BeginEmit(1, 0, true, a, [PORT]));
    EmitOne(s2, 1, a);
    EmitOne(s3, 2, b);
    assert s3 == s2.(emitters := map[1 := Emitter(0, true, a, [Entry(0, 0)])]);
    var s4 := Next(s3, BeginEmit(2, 0, true, b, [PORT]));
    assert s4 == TwoEmits(a, b);
    steps := [] + [Bind(0, 0, 0)] + [Connect(PORT, 0, 0)]
      + [BeginEmit(1, 0, true, a, [PORT])] + [BeginEmit(2, 0, true, b, [PORT])];
    RunLast(s0, [], Bind(0, 0, 0));
    RunLast(s0, [] + [Bind(0, 0, 0)], Connect(PORT, 0, 0));
    RunLast(s0, [] + [Bind(0, 0, 0)] + [Connect(PORT, 0, 0)], BeginEmit(1, 0, true, a, [PORT]));
    RunLast(s0, [] + [Bind(0, 0, 0)] + [Connect(PORT, 0, 0)] + [BeginEmit(1, 0, true, a, [PORT])],
            BeginEmit(2, 0, true, b, [PORT]));
  }

  lemma TwoEmitsCross(a: Arg, b: Arg)
    ensures var s := TwoEmits(a, b);
            Crossing(s, 1, 2, 0) && s.emitters[1].arg == a && s.emitters[2].arg == b && s.slots[0].taken == []
  {
  }

  /**
   From the start of the program: two synchronous emits of one slot, each finding its queue empty,
   and each delivering what the other emitted.
   */
  lemma EmitsCanCross(a: Arg, b: Arg) returns (steps: seq<Step>)
    ensures var s := Run(steps);
            var w := Next(Next(Next(s, PushArg(1, 1)), PushArg(2, 2)), InvokeInPlace(2, 2));
            && s == TwoEmits(a, b)
            && 0 in w.slots && w.slots[0].taken == [a]
            && 0 in Next(w, InvokeInPlace(1, 1)).slots && Next(w, InvokeInPlace(1, 1)).slots[0].taken == [a, b]
  {
    steps := TwoEmitsReached(a, b);
    var s := Run(steps);
    Reachable(steps);
    TwoEmitsCross(a, b);
    assert 1 !in s.tickets && 2 !in s.tickets;
    CrossedCalls(s, 1, 2, 0, 1, 2);
    assert [] + [a] == [a] && [a] + [b] == [a, b];
  }
}
