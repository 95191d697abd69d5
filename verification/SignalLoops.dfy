/**
 Which thread runs a callback.  An event stays in the loop it was posted to until a thread inside
 exec() of that loop takes it, and that thread then makes the call.
 */
module SignalLoops {
  import opened SignalSteps
  import opened SignalDelivery
  import opened SignalEmit

  /** The invocation is an event of `loop`, or has been taken by a thread that serves this loop. */
  predicate InLoop(s: State, t: int, slot: int, loop: int) {
    && t in s.tickets && s.tickets[t].slot == slot
    && match s.tickets[t].stage
       case Announced(_) => false
       case Queued(l) => l == loop
       case Held(w) => w in s.workers && s.workers[w] == loop
  }

  /** A thread makes the call. */
  predicate CallBy(s: State, step: Step, t: int) {
    step.Invoke? && step.ticket == t && Enabled(s, step)
  }

  lemma InvokeInLoop(s: State, k: int, t: int, slot: int, loop: int)
    requires InLoop(s, t, slot, loop) && k in s.tickets && k != t
    ensures InLoop(InvokeTicket(s, k), t, slot, loop)
  {
  }

  lemma InPlaceInLoop(s: State, e: int, k: int, t: int, slot: int, loop: int)
    requires InLoop(s, t, slot, loop) && e in s.emitters && k in s.tickets && k != t
    ensures InLoop(InvokedInPlace(s, e, k), t, slot, loop)
  {
    if s.emitters[e].todo != [] {
      InvokeInLoop(Served(s, e), k, t, slot, loop);
    }
  }

  lemma OthersInLoop(s: State, step: Step, t: int, slot: int, loop: int)
    requires InLoop(s, t, slot, loop) && !CallBy(s, step, t)
    ensures InLoop(Next(s, step), t, slot, loop)
  {
    if Enabled(s, step) {
      match step
      case Invoke(w, k) => InvokeInLoop(s, k, t, slot, loop);
      case InvokeInPlace(e, k) => InPlaceInLoop(s, e, k, t, slot, loop);
      case _ =>
    }
  }

  /** Whatever step takes an event off its queue is taken by a thread inside the loop it was posted to. */
  lemma TakenInOwnLoop(s: State, step: Step, t: int, loop: int, w: int)
    requires t in s.tickets && s.tickets[t].stage == Queued(loop)
    requires t in Next(s, step).tickets && Next(s, step).tickets[t].stage == Held(w)
    ensures step == Dequeue(w, t) && w in s.workers && s.workers[w] == loop
    ensures Next(s, step).tickets[t].slot == s.tickets[t].slot && Next(s, step).workers == s.workers
  {
  }

  /** The call is not made during these steps. */
  predicate Uncalled(s: State, steps: seq<Step>, t: int) {
    steps == [] ||
    var front, last := steps[..|steps| - 1], steps[|steps| - 1];
    Uncalled(s, front, t) && !CallBy(RunFrom(s, front), last, t)
  }

  lemma {:induction false} StaysInLoop(s: State, steps: seq<Step>, t: int, slot: int, loop: int)
    requires InLoop(s, t, slot, loop) && Uncalled(s, steps, t)
    ensures InLoop(RunFrom(s, steps), t, slot, loop)
  {
    if steps == [] {
    } else {
      var front, last := steps[..|steps| - 1], steps[|steps| - 1];
      StaysInLoop(s, front, t, slot, loop);
      OthersInLoop(RunFrom(s, front), last, t, slot, loop);
    }
  }

  /**
   From the post of an asynchronous emit to the call, whatever happens in between: the thread that
   makes the call is inside the loop registered, at the post, for the thread which the connection's
   object was bound to then.  The call is one of the connection's slot.
   */
  lemma {:induction false} CalledInOwnLoop(r: State, post: Step, e: int, entry: Entry, steps: seq<Step>, w: int)
    requires Inv(r) && PostsEntry(r, post, e, entry) && Uncalled(Next(r, post), steps, post.ticket)
    requires CallBy(RunFrom(Next(r, post), steps), Invoke(w, post.ticket), post.ticket)
    ensures var v := RunFrom(Next(r, post), steps);
            && entry.obj in r.reg.thread && r.reg.thread[entry.obj] in r.reg.registry
            && w in v.workers && v.workers[w] == r.reg.registry[r.reg.thread[entry.obj]]
            && v.workers[w] in v.reg.loops && v.reg.loops[v.workers[w]] == r.reg.thread[entry.obj]
            && entry.slot in v.slots && v.slots[entry.slot].args != []
            && Next(v, Invoke(w, post.ticket)).slots == v.slots[entry.slot := Invke(v.slots[entry.slot])]
  {
    var u, loop := Next(r, post), r.reg.registry[r.reg.thread[entry.obj]];
    StaysInLoop(u, steps, post.ticket, entry.slot, loop);
    NextKeeps(r, post);
    RunKeeps(u, steps);
    NextGrows(r, post);
    RegistryPermanent(u, steps);
    CallTakesTicket(RunFrom(u, steps), Invoke(w, post.ticket), post.ticket);
  }

  lemma CallTakesTicket(s: State, step: Step, t: int)
    requires Inv(s) && CallBy(s, step, t)
    ensures var slot := s.tickets[t].slot;
            && slot in s.slots && s.slots[slot].args != []
            && Next(s, step).slots == s.slots[slot := Invke(s.slots[slot])]
            && s.tickets[t].stage == Held(step.worker)
  {
    InvokeEffect(s, t);
  }

  /** exec() serves the loop registered for the thread its object is bound to when it is entered. */
  lemma EnterServes(s: State, w: int, obj: int)
    requires Inv(s) && obj in s.reg.bound && w !in s.workers
    ensures obj in s.reg.thread && s.reg.thread[obj] in s.reg.registry
    ensures Next(s, EnterLoop(w, obj)) == s.(workers := s.workers[w := s.reg.registry[s.reg.thread[obj]]])
  {
    LoopOf(s.reg, obj);
  }

  lemma WorkersStand(s: State, step: Step, w: int)
    requires w in Next(s, step).workers
    ensures if w in s.workers then Next(s, step).workers[w] == s.workers[w]
            else step.EnterLoop? && step.worker == w && step.obj in s.reg.bound
  {
  }

  /** Every thread inside exec() entered it on some object, and serves the loop of that object's thread. */
  lemma {:induction false} WorkerEntered(steps: seq<Step>, w: int) returns (k: nat)
    requires w in Run(steps).workers
    ensures k < |steps| && steps[k].EnterLoop? && steps[k].worker == w
    ensures var r := Run(steps[..k]);
            && steps[k].obj in r.reg.thread && r.reg.thread[steps[k].obj] in r.reg.registry
            && Run(steps).workers[w] == r.reg.registry[r.reg.thread[steps[k].obj]]
  {
    var front, last := steps[..|steps| - 1], steps[|steps| - 1];
    WorkersStand(Run(front), last, w);
    if w in Run(front).workers {
      k := WorkerEntered(front, w);
      assert steps[..k] == front[..k];
    } else {
      k := |front|;
      Reachable(front);
      EnterServes(Run(front), w, last.obj);
    }
  }
}
