/** What the delivery of signals guarantees over every interleaving of emitters and loops. */
module SignalDelivery {
  import opened SignalSteps

  // ---------------------------------------------------------------- conservation

  /**
   In every reachable state the arguments taken from a slot, followed by those still queued, are
   the arguments pushed, in order; and the slot has exactly one pending invocation per queued
   argument, whatever event each loop picked.
   */
  lemma ArgumentsConserved(steps: seq<Step>, slot: int)
    requires slot in Run(steps).slots
    ensures var s := Run(steps);
            && s.slots[slot].taken + s.slots[slot].args == s.slots[slot].pushed
            && |s.slots[slot].args| == |Pending(s.tickets, slot)|
  {
    Reachable(steps);
  }

  /** No invocation ever finds its slot deleted or its queue empty, and no event is posted to a null loop. */
  lemma NeverCrashes(steps: seq<Step>, t: int)
    ensures var s := Run(steps);
            && !s.crashed
            && (t in s.tickets ==> s.tickets[t].slot in s.slots && s.slots[s.tickets[t].slot].args != [])
  {
    Reachable(steps);
    var s := Run(steps);
    if t in s.tickets {
      assert TicketOk(s.tickets[t], s.slots, s.emitters, s.reg.loops);
      InvokeInStep(s.slots, s.tickets, t);
    }
  }

  /** When nothing is pending, every argument ever pushed has been taken, once and in order. */
  lemma QuietMeansDelivered(steps: seq<Step>, slot: int)
    requires Run(steps).tickets == map[] && slot in Run(steps).slots
    ensures Run(steps).slots[slot].taken == Run(steps).slots[slot].pushed
  {
    Reachable(steps);
    assert Pending(Run(steps).tickets, slot) == {};
  }

  // ---------------------------------------------------------------- the loop registry

  /** An entry of the registry, once made, never changes. */
  lemma {:induction false} RegistryPermanent(s: State, steps: seq<Step>)
    requires Inv(s)
    ensures RegistryGrows(s.reg, RunFrom(s, steps).reg)
  {
    if steps == [] {
    } else {
      var front, last := steps[..|steps| - 1], steps[|steps| - 1];
      RegistryPermanent(s, front);
      RunKeeps(s, front);
      NextGrows(RunFrom(s, front), last);
    }
  }

  lemma NextGrows(s: State, step: Step)
    requires Inv(s)
    ensures RegistryGrows(s.reg, Next(s, step).reg)
  {
    if Enabled(s, step) && step.Bind? {
      SetObjectThreadKeeps(s.reg, step.obj, step.thread, step.newLoop);
    } else {
      assert Next(s, step).reg == s.reg;
    }
  }

  /** Objects last bound to the same thread id share one CoreData, whose work id is that thread's. */
  lemma SameThreadSameLoop(steps: seq<Step>, x: int, y: int)
    requires x in Run(steps).reg.bound && y in Run(steps).reg.bound
    ensures var s := Run(steps);
            && x in s.reg.thread && y in s.reg.thread
            && s.reg.bound[x] in s.reg.loops && s.reg.loops[s.reg.bound[x]] == s.reg.thread[x]
            && (s.reg.bound[x] == s.reg.bound[y] <==> s.reg.thread[x] == s.reg.thread[y])
  {
    Reachable(steps);
    LoopOf(Run(steps).reg, x);
    LoopOf(Run(steps).reg, y);
  }

  /** An asynchronous emit posts its event to the loop of the thread the entry's object is bound to now. */
  lemma PostedToOwner(s: State, e: int, t: int)
    requires Inv(s) && e in s.emitters && t in s.tickets && s.tickets[t].stage == Announced(e)
    ensures s.emitters[e].todo != []
    ensures var entry, u := s.emitters[e].todo[0], Posted(s, e, t);
            && entry.obj in s.reg.thread && s.reg.thread[entry.obj] in s.reg.registry
            && var loop := s.reg.registry[s.reg.thread[entry.obj]];
               && loop in s.reg.loops && s.reg.loops[loop] == s.reg.thread[entry.obj]
               && u.tickets == s.tickets[t := Ticket(entry.slot, Queued(loop))]
    ensures Posted(s, e, t).emitters[e].todo == s.emitters[e].todo[1..]
  {
    assert TicketOk(s.tickets[t], s.slots, s.emitters, s.reg.loops);
    assert EntryOk(s.emitters[e].todo[0], s.slots, s.reg.bound);
    LoopOf(s.reg, s.emitters[e].todo[0].obj);
  }

  // ---------------------------------------------------------------- nothing is ever stuck

  /** Some thread is inside exec() for every loop. */
  predicate LoopsServed(s: State) {
    forall loop :: loop in s.reg.loops ==> exists w :: w in s.workers && s.workers[w] == loop
  }

  /** `u` comes from `s` by finishing invocations only. */
  predicate Finishes(s: State, u: State) {
    && u.reg == s.reg && u.workers == s.workers && u.slots.Keys == s.slots.Keys
    && forall i :: i in s.slots ==> i in u.slots && u.slots[i].pushed == s.slots[i].pushed
  }

  lemma RunLast(s: State, front: seq<Step>, last: Step)
    ensures RunFrom(s, front + [last]) == Next(RunFrom(s, front), last)
  {
  }

  lemma {:induction false} RunAppend(s: State, first: seq<Step>, second: seq<Step>)
    ensures RunFrom(s, first + second) == RunFrom(RunFrom(s, first), second)
    decreases |second|
  {
    if second == [] {
      assert first + second == first;
    } else {
      var front, last := second[..|second| - 1], second[|second| - 1];
      assert second == front + [last] && first + second == (first + front) + [last];
      RunAppend(s, first, front);
      RunLast(s, first + front, last);
      RunLast(RunFrom(s, first), front, last);
    }
  }

  lemma RunOne(s: State, step: Step, u: State)
    requires Next(s, step) == u
    ensures RunFrom(s, [step]) == u
  {
  }

  lemma RunInvoke(s: State, w: int, t: int)
    requires t in s.tickets && s.tickets[t].stage == Held(w)
    ensures RunFrom(s, [Invoke(w, t)]) == InvokeTicket(s, t)
  {
  }

  lemma RunDequeue(s: State, w: int, t: int)
    requires w in s.workers && !Holding(s, w) && t in s.tickets && s.tickets[t].stage == Queued(s.workers[w])
    ensures RunFrom(s, [Dequeue(w, t)]) == Dequeued(s, w, t)
  {
  }

  lemma NextPost(s: State, e: int, t: int)
    requires e in s.emitters && !s.emitters[e].sync && t in s.tickets && s.tickets[t].stage == Announced(e)
    ensures Next(s, Post(e, t)) == Posted(s, e, t)
  {
  }

  lemma RunPost(s: State, e: int, t: int)
    requires e in s.emitters && !s.emitters[e].sync && t in s.tickets && s.tickets[t].stage == Announced(e)
    ensures RunFrom(s, [Post(e, t)]) == Posted(s, e, t)
  {
    NextPost(s, e, t);
    RunOne(s, Post(e, t), Posted(s, e, t));
  }

  lemma NextInPlace(s: State, e: int, t: int)
    requires e in s.emitters && s.emitters[e].sync && t in s.tickets && s.tickets[t].stage == Announced(e)
    ensures Next(s, InvokeInPlace(e, t)) == InvokedInPlace(s, e, t)
  {
  }

  lemma RunInPlace(s: State, e: int, t: int)
    requires e in s.emitters && s.emitters[e].sync && t in s.tickets && s.tickets[t].stage == Announced(e)
    ensures RunFrom(s, [InvokeInPlace(e, t)]) == InvokedInPlace(s, e, t)
  {
    NextInPlace(s, e, t);
    RunOne(s, InvokeInPlace(e, t), InvokedInPlace(s, e, t));
  }

  lemma SameCount(tickets: map<int, Ticket>, t: int, k: Ticket)
    requires t in tickets
    ensures |tickets[t := k]| == |tickets|
  {
  }

  lemma InvokeEffect(s: State, t: int)
    requires Inv(s) && t in s.tickets
    ensures var slot := s.tickets[t].slot;
            && slot in s.slots && s.slots[slot].args != []
            && InvokeTicket(s, t) == s.(slots := s.slots[slot := Invke(s.slots[slot])], tickets := s.tickets - {t})
  {
    assert TicketOk(s.tickets[t], s.slots, s.emitters, s.reg.loops);
    InvokeInStep(s.slots, s.tickets, t);
  }

  lemma FinishHeld(s: State, t: int)
    requires Inv(s) && t in s.tickets
    ensures var u := InvokeTicket(s, t); Inv(u) && Finishes(s, u) && |u.tickets| < |s.tickets|
  {
    assert Inv(InvokeTicket(s, t)) by { InvokeKeeps(s, t); }
    OneLess(s.tickets, t);
    InvokeEffect(s, t);
  }

  lemma FinishInPlace(s: State, e: int, t: int)
    requires Inv(s) && e in s.emitters && t in s.tickets && s.tickets[t].stage == Announced(e)
    ensures var u := InvokedInPlace(s, e, t); Inv(u) && Finishes(s, u) && |u.tickets| < |s.tickets|
  {
    assert Inv(InvokedInPlace(s, e, t)) by { InvokeInPlaceKeeps(s, e, t); }
    assert TicketOk(s.tickets[t], s.slots, s.emitters, s.reg.loops);
    InvokeEffect(s, t);
    OneLess(s.tickets, t);
  }

  /** An event waiting in a loop gets its turn, or the loop's thread finishes what it holds. */
  lemma {:induction false} FinishQueued(s: State, t: int) returns (steps: seq<Step>, u: State)
    requires Inv(s) && LoopsServed(s) && t in s.tickets && s.tickets[t].stage.Queued?
    ensures RunFrom(s, steps) == u && Inv(u) && Finishes(s, u) && |u.tickets| < |s.tickets|
  {
    assert TicketOk(s.tickets[t], s.slots, s.emitters, s.reg.loops);
    var w :| w in s.workers && s.workers[w] == s.tickets[t].stage.loop;
    if Holding(s, w) {
      var k :| k in s.tickets && s.tickets[k].stage == Held(w);
      steps, u := [Invoke(w, k)], InvokeTicket(s, k);
      RunInvoke(s, w, k);
      FinishHeld(s, k);
    } else {
      var v := Dequeued(s, w, t);
      DequeueKeeps(s, w, t);
      SameCount(s.tickets, t, v.tickets[t]);
      FinishHeld(v, t);
      RunDequeue(s, w, t);
      RunInvoke(v, w, t);
      RunAppend(s, [Dequeue(w, t)], [Invoke(w, t)]);
      steps, u := [Dequeue(w, t)] + [Invoke(w, t)], InvokeTicket(v, t);
    }
  }

  lemma {:induction false} FinishPosted(s: State, e: int, t: int) returns (steps: seq<Step>, u: State)
    requires Inv(s) && LoopsServed(s)
    requires e in s.emitters && !s.emitters[e].sync && t in s.tickets && s.tickets[t].stage == Announced(e)
    ensures RunFrom(s, steps) == u && Inv(u) && Finishes(s, u) && |u.tickets| < |s.tickets|
  {
    PostKeeps(s, e, t);
    PostedToOwner(s, e, t);
    var v := Posted(s, e, t);
    SameCount(s.tickets, t, v.tickets[t]);
    var rest;
    rest, u := FinishQueued(v, t);
    RunPost(s, e, t);
    RunAppend(s, [Post(e, t)], rest);
    steps := [Post(e, t)] + rest;
  }

  /** From any state with every loop served, some pending invocation can be finished. */
  lemma {:induction false} FinishOne(s: State) returns (steps: seq<Step>, u: State)
    requires Inv(s) && LoopsServed(s) && exists t :: t in s.tickets
    ensures RunFrom(s, steps) == u && Inv(u) && Finishes(s, u) && |u.tickets| < |s.tickets|
  {
    var t :| t in s.tickets;
    assert TicketOk(s.tickets[t], s.slots, s.emitters, s.reg.loops);
    match s.tickets[t].stage
    case Held(w) =>
      steps, u := [Invoke(w, t)], InvokeTicket(s, t);
      RunInvoke(s, w, t);
      FinishHeld(s, t);
    case Queued(loop) =>
      steps, u := FinishQueued(s, t);
    case Announced(e) =>
      if s.emitters[e].sync {
        steps, u := [InvokeInPlace(e, t)], InvokedInPlace(s, e, t);
        RunInPlace(s, e, t);
        FinishInPlace(s, e, t);
      } else {
        steps, u := FinishPosted(s, e, t);
      }
  }

  lemma {:induction false} DrainFrom(s: State) returns (steps: seq<Step>, u: State)
    requires Inv(s) && LoopsServed(s)
    ensures RunFrom(s, steps) == u && Inv(u) && Finishes(s, u) && u.tickets == map[]
    decreases |s.tickets|
  {
    if exists t :: t in s.tickets {
      var first, v := FinishOne(s);
      var rest;
      rest, u := DrainFrom(v);
      RunAppend(s, first, rest);
      steps := first + rest;
    } else {
      steps, u := [], s;
      assert s.tickets == map[];
    }
  }

  lemma {:induction false} FreshIn(keys: set<int>) returns (x: int)
    ensures forall k :: k in keys ==> k < x
    decreases |keys|
  {
    if k :| k in keys {
      var y := FreshIn(keys - {k});
      x := if k < y then y else k + 1;
      assert forall j :: j in keys ==> j == k || j in keys - {k};
    } else {
      x := 0;
    }
  }

  /** `u` comes from `s` by binding and entering loops only. */
  predicate OnlyServes(s: State, u: State) {
    && u.slots == s.slots && u.tickets == s.tickets && u.reg.loops == s.reg.loops
    && forall w :: w in s.workers ==> w in u.workers && u.workers[w] == s.workers[w]
  }

  predicate IsServed(s: State, loop: int) {
    exists w :: w in s.workers && s.workers[w] == loop
  }

  function Unserved(s: State): set<int> {
    set loop | loop in s.reg.loops && !IsServed(s, loop)
  }

  /** A thread can be put inside any loop: the registry still names it for its work id. */
  lemma ServeLoop(s: State, loop: int) returns (steps: seq<Step>, u: State)
    requires Inv(s) && loop in s.reg.loops
    ensures RunFrom(s, steps) == u && Inv(u) && OnlyServes(s, u) && IsServed(u, loop)
  {
    var id := s.reg.loops[loop];
    var obj := FreshIn(s.reg.bound.Keys);
    var w := FreshIn(s.workers.Keys);
    assert id in s.reg.registry && s.reg.registry[id] == loop;
    var bind, enter := Bind(obj, id, 0), EnterLoop(w, obj);
    var v := Next(s, bind);
    assert v == s.(reg := s.reg.(bound := s.reg.bound[obj := loop], thread := s.reg.thread[obj := id]));
    u := Next(v, enter);
    assert u == v.(workers := s.workers[w := loop]);
    steps := [bind] + [enter];
    RunOne(s, bind, v);
    RunLast(s, [bind], enter);
    RunKeeps(s, steps);
    assert w in u.workers && u.workers[w] == loop;
  }

  lemma FewerUnserved(s: State, u: State, loop: int)
    requires OnlyServes(s, u) && loop in Unserved(s) && IsServed(u, loop)
    ensures |Unserved(u)| < |Unserved(s)|
  {
    forall k | IsServed(s, k) ensures IsServed(u, k) {
      var w :| w in s.workers && s.workers[w] == k;
      assert u.workers[w] == k;
    }
    SmallerSet(Unserved(u), Unserved(s) - {loop});
  }

  lemma {:induction false} SmallerSet<T>(a: set<T>, b: set<T>)
    requires a <= b
    ensures |a| <= |b|
    decreases |a|
  {
    if a != {} {
      var x :| x in a;
      SmallerSet(a - {x}, b - {x});
    }
  }

  lemma {:induction false} ServeAll(s: State) returns (steps: seq<Step>, u: State)
    requires Inv(s)
    ensures RunFrom(s, steps) == u && Inv(u) && OnlyServes(s, u) && LoopsServed(u)
    decreases |Unserved(s)|
  {
    if loop :| loop in Unserved(s) {
      var first, v := ServeLoop(s, loop);
      FewerUnserved(s, v, loop);
      var rest;
      rest, u := ServeAll(v);
      RunAppend(s, first, rest);
      steps := first + rest;
    } else {
      steps, u := [], s;
      forall loop | loop in s.reg.loops ensures exists w :: w in s.workers && s.workers[w] == loop {
        assert loop !in Unserved(s);
      }
    }
  }

  /**
   Nothing pushed is ever lost: every run can be continued, without another emit, to a state in
   which each slot has taken exactly what had been pushed to it, in order.
   */
  lemma EverythingCanBeDelivered(steps: seq<Step>)
    ensures exists more :: var s, u := Run(steps), Run(steps + more);
              forall i :: i in s.slots ==> i in u.slots && u.slots[i].taken == s.slots[i].pushed == u.slots[i].pushed
  {
    Reachable(steps);
    var s := Run(steps);
    var first, v := ServeAll(s);
    var rest, u := DrainFrom(v);
    var more := first + rest;
    RunAppend(s, first, rest);
    RunAppend(Start(), steps, more);
    assert Run(steps + more) == u;
    forall i | i in s.slots ensures i in u.slots && u.slots[i].taken == s.slots[i].pushed == u.slots[i].pushed {
      QuietMeansDelivered(steps + more, i);
    }
  }
}
