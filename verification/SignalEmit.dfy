/**
 A whole emit.  An asynchronous one holds its signal's lock from its first step to its last, so the
 connections it walks stay what they were, whatever other emits, loops and threads do meanwhile; a
 synchronous one has copied them.
 */
module SignalEmit {
  import opened SignalSteps
  import opened SignalDelivery
  import opened SignalSync

  // ---------------------------------------------------------------- the lock

  /** Every asynchronous emit under way holds its signal's lock, and only such emits hold one. */
  predicate LocksOk(emitters: map<int, Emitter>, locks: map<int, int>) {
    && (forall e :: e in emitters && !emitters[e].sync ==>
                      emitters[e].signal in locks && locks[emitters[e].signal] == e)
    && (forall g :: g in locks ==>
                      locks[g] in emitters && !emitters[locks[g]].sync && emitters[locks[g]].signal == g)
  }

  predicate Locked(s: State) {
    LocksOk(s.emitters, s.locks)
  }

  lemma ServedLocked(s: State, e: int)
    requires Locked(s) && e in s.emitters && s.emitters[e].todo != []
    ensures Locked(Served(s, e)) && Served(s, e).locks == s.locks
  {
  }

  lemma BeginLocked(s: State, e: int, g: int, sync: bool, arg: Arg, order: seq<Port>)
    requires Locked(s) && Enabled(s, BeginEmit(e, g, sync, arg, order))
    ensures Locked(Emitting(s, e, g, sync, arg, order))
  {
  }

  lemma EndLocked(s: State, e: int)
    requires Locked(s) && e in s.emitters
    ensures Locked(Ended(s, e))
  {
  }

  lemma PostLocked(s: State, e: int, t: int)
    requires Locked(s) && e in s.emitters && t in s.tickets
    ensures Locked(Posted(s, e, t)) && Posted(s, e, t).locks == s.locks
  {
    if s.emitters[e].todo != [] { ServedLocked(s, e); }
  }

  lemma InPlaceLocked(s: State, e: int, t: int)
    requires Locked(s) && e in s.emitters && t in s.tickets
    ensures Locked(InvokedInPlace(s, e, t)) && InvokedInPlace(s, e, t).locks == s.locks
  {
    if s.emitters[e].todo != [] { ServedLocked(s, e); }
  }

  lemma NextLocked(s: State, step: Step)
    requires Locked(s)
    ensures Locked(Next(s, step))
  {
    if !step.BeginEmit? && !step.EndEmit? && !step.Post? && !step.InvokeInPlace? {
      OthersKeepEmitters(s, step);
    } else if Enabled(s, step) {
      match step
      case BeginEmit(e, g, sync, arg, order) => BeginLocked(s, e, g, sync, arg, order);
      case EndEmit(e) => EndLocked(s, e);
      case Post(e, t) => PostLocked(s, e, t);
      case InvokeInPlace(e, t) => InPlaceLocked(s, e, t);
    }
  }

  lemma {:induction false} RunLocked(s: State, steps: seq<Step>)
    requires Locked(s)
    ensures Locked(RunFrom(s, steps))
  {
    if steps == [] {
    } else {
      RunLocked(s, steps[..|steps| - 1]);
      NextLocked(RunFrom(s, steps[..|steps| - 1]), steps[|steps| - 1]);
    }
  }

  lemma ReachableLocked(steps: seq<Step>)
    ensures Inv(Run(steps)) && Locked(Run(steps))
  {
    Reachable(steps);
    RunLocked(Start(), steps);
  }

  /** Two asynchronous emits of one signal are never under way together. */
  lemma LockExcludes(steps: seq<Step>, e: int, f: int)
    requires e in Run(steps).emitters && !Run(steps).emitters[e].sync
    requires f in Run(steps).emitters && !Run(steps).emitters[f].sync
    requires Run(steps).emitters[e].signal == Run(steps).emitters[f].signal
    ensures e == f
  {
    ReachableLocked(steps);
  }

  // ---------------------------------------------------------------- one step while an emit is under way

  /** The connections of one signal. */
  function ConnectionsOf(s: State, g: int): map<Port, Entry> {
    map p | p in s.connections && p.signal == g :: s.connections[p]
  }

  /** The emit that began as `m` is under way, and done with its first `served` entries. */
  predicate UnderWay(s: State, e: int, m: Emitter, served: nat) {
    served <= |m.todo| && e in s.emitters && s.emitters[e] == m.(todo := m.todo[served..])
  }

  lemma StepKeepsConnections(s: State, step: Step, e: int, m: Emitter, served: nat)
    requires Locked(s) && UnderWay(s, e, m, served) && !m.sync
    ensures ConnectionsOf(Next(s, step), m.signal) == ConnectionsOf(s, m.signal)
  {
    assert m.signal in s.locks;
    if !step.Connect? && !step.Disconnect? && !step.Clear? {
      OtherStepsKeepConnections(s, step);
    } else if Enabled(s, step) {
      match step
      case Connect(p, obj, slot) => assert p.signal != m.signal;
      case Disconnect(p) => assert p.signal != m.signal;
      case Clear(h) => assert h != m.signal;
    }
  }

  /** Only its own posts, or calls, move the emit on, one entry each. */
  lemma StepMovesEmit(s: State, step: Step, e: int, m: Emitter, served: nat)
    requires Inv(s) && UnderWay(s, e, m, served) && !EndBy(s, step, e)
    ensures ServesBy(s, step, e) ==> served < |m.todo|
    ensures UnderWay(Next(s, step), e, m, served + if ServesBy(s, step, e) then 1 else 0)
  {
    EmitterMoves(s, step, e);
    if ServesBy(s, step, e) {
      assert m.todo[served..][1..] == m.todo[served + 1..];
    }
  }

  // ---------------------------------------------------------------- a whole emit

  datatype Act = Pushing | Serving

  predicate ActsBy(s: State, step: Step, e: int, act: Act) {
    if act.Pushing? then PushBy(s, step, e) else ServesBy(s, step, e)
  }

  /** When, counted in steps, the emit pushes an argument, or is done with an entry. */
  function Times(s: State, steps: seq<Step>, e: int, act: Act): seq<nat> {
    if steps == [] then [] else
    var front, last := steps[..|steps| - 1], steps[|steps| - 1];
    Times(s, front, e, act) + if ActsBy(RunFrom(s, front), last, e, act) then [|front|] else []
  }

  /** Time number `j` is a step at which the emit acts, with `j` such steps before it. */
  lemma {:induction false} TimeIsRight(s: State, steps: seq<Step>, e: int, act: Act, j: nat)
    requires j < |Times(s, steps, e, act)|
    ensures var k := Times(s, steps, e, act)[j];
            k < |steps| && ActsBy(RunFrom(s, steps[..k]), steps[k], e, act) && |Times(s, steps[..k], e, act)| == j
  {
    var front := steps[..|steps| - 1];
    if j < |Times(s, front, e, act)| {
      TimeIsRight(s, front, e, act, j);
      assert steps[..Times(s, front, e, act)[j]] == front[..Times(s, front, e, act)[j]];
    }
  }

  /** Every step at which the emit acts is listed. */
  lemma {:induction false} ActIsListed(s: State, steps: seq<Step>, e: int, act: Act, k: nat)
    requires k < |steps| && ActsBy(RunFrom(s, steps[..k]), steps[k], e, act)
    ensures k in Times(s, steps, e, act)
  {
    var front := steps[..|steps| - 1];
    if k < |front| {
      assert steps[..k] == front[..k];
      ActIsListed(s, front, e, act, k);
    }
  }

  /** The emit does not end during these steps. */
  predicate GoesOn(s: State, steps: seq<Step>, e: int) {
    steps == [] ||
    var front, last := steps[..|steps| - 1], steps[|steps| - 1];
    GoesOn(s, front, e) && !EndBy(RunFrom(s, front), last, e)
  }

  lemma {:induction false} GoesOnBefore(s: State, steps: seq<Step>, e: int, k: nat)
    requires GoesOn(s, steps, e) && k <= |steps|
    ensures GoesOn(s, steps[..k], e)
    decreases |steps|
  {
    if k == |steps| {
      assert steps[..k] == steps;
    } else {
      var front := steps[..|steps| - 1];
      GoesOnBefore(s, front, e, k);
      assert front[..k] == steps[..k];
    }
  }

  /** An emit under way has pushed for the entries it has served, and for one more if it announces one. */
  predicate Stage(r: State, e: int, m: Emitter, served: nat, pushes: nat) {
    UnderWay(r, e, m, served) && pushes == served + if Announcing(r, e) then 1 else 0
  }

  lemma StageMoves(r: State, step: Step, e: int, m: Emitter, served: nat, pushes: nat)
    requires Inv(r) && Stage(r, e, m, served, pushes) && !EndBy(r, step, e)
    ensures Stage(Next(r, step), e, m, served + if ServesBy(r, step, e) then 1 else 0,
                  pushes + if PushBy(r, step, e) then 1 else 0)
  {
    StepMovesEmit(r, step, e, m, served);
    NextAnnounces(r, step, e);
    if ServesBy(r, step, e) {
      ServedWhileAnnouncing(r, step, e);
    }
  }

  lemma ServedWhileAnnouncing(r: State, step: Step, e: int)
    requires ServesBy(r, step, e)
    ensures Announcing(r, e)
  {
  }

  predicate Progress(s: State, steps: seq<Step>, e: int, m: Emitter) {
    Stage(RunFrom(s, steps), e, m, |Times(s, steps, e, Serving)|, |Times(s, steps, e, Pushing)|)
  }

  lemma TimesLast(s: State, front: seq<Step>, last: Step, e: int, act: Act)
    ensures |Times(s, front + [last], e, act)|
         == |Times(s, front, e, act)| + if ActsBy(RunFrom(s, front), last, e, act) then 1 else 0
  {
    assert (front + [last])[..|front|] == front;
  }

  lemma ProgressOne(s: State, front: seq<Step>, last: Step, e: int, m: Emitter)
    requires Inv(RunFrom(s, front)) && Progress(s, front, e, m) && !EndBy(RunFrom(s, front), last, e)
    ensures Progress(s, front + [last], e, m)
  {
    RunLast(s, front, last);
    TimesLast(s, front, last, e, Serving);
    TimesLast(s, front, last, e, Pushing);
    StageMoves(RunFrom(s, front), last, e, m, |Times(s, front, e, Serving)|, |Times(s, front, e, Pushing)|);
  }

  lemma {:induction false} EmitProgress(s: State, steps: seq<Step>, e: int, m: Emitter)
    requires Inv(s) && UnderWay(s, e, m, 0) && !Announcing(s, e) && GoesOn(s, steps, e)
    ensures Progress(s, steps, e, m)
  {
    if steps == [] {
    } else {
      var front, last := steps[..|steps| - 1], steps[|steps| - 1];
      EmitProgress(s, front, e, m);
      RunKeeps(s, front);
      ProgressOne(s, front, last, e, m);
      assert steps == front + [last];
    }
  }

  predicate Stands(s: State, steps: seq<Step>, g: int) {
    ConnectionsOf(RunFrom(s, steps), g) == ConnectionsOf(s, g)
  }

  lemma ConnectionsOne(s: State, front: seq<Step>, last: Step, e: int, m: Emitter)
    requires Locked(RunFrom(s, front)) && Progress(s, front, e, m) && !m.sync && Stands(s, front, m.signal)
    ensures Stands(s, front + [last], m.signal)
  {
    RunLast(s, front, last);
    StepKeepsConnections(RunFrom(s, front), last, e, m, |Times(s, front, e, Serving)|);
  }

  lemma {:induction false} ConnectionsStand(s: State, steps: seq<Step>, e: int, m: Emitter)
    requires Inv(s) && Locked(s) && UnderWay(s, e, m, 0) && !m.sync && !Announcing(s, e) && GoesOn(s, steps, e)
    ensures Stands(s, steps, m.signal)
  {
    if steps == [] {
    } else {
      var front, last := steps[..|steps| - 1], steps[|steps| - 1];
      ConnectionsStand(s, front, e, m);
      EmitProgress(s, front, e, m);
      RunLocked(s, front);
      ConnectionsOne(s, front, last, e, m);
      assert steps == front + [last];
    }
  }

  /** The step pushes the emit's argument to the entry's slot. */
  predicate PushesEntry(r: State, step: Step, e: int, entry: Entry, arg: Arg) {
    && PushBy(r, step, e) && entry.slot in r.slots
    && Next(r, step).slots == r.slots[entry.slot := AddArg(r.slots[entry.slot], arg)]
    && Next(r, step).tickets == r.tickets[step.ticket := Ticket(entry.slot, Announced(e))]
  }

  /** The step posts the entry's event to the loop registered for the thread its object is bound to. */
  predicate PostsEntry(r: State, step: Step, e: int, entry: Entry) {
    && PostBy(r, step, e) && entry.obj in r.reg.thread && r.reg.thread[entry.obj] in r.reg.registry
    && var loop := r.reg.registry[r.reg.thread[entry.obj]];
       && loop in r.reg.loops && r.reg.loops[loop] == r.reg.thread[entry.obj]
       && Next(r, step).tickets == r.tickets[step.ticket := Ticket(entry.slot, Queued(loop))]
  }

  /** The step calls the entry's slot in place. */
  predicate CallsEntry(r: State, step: Step, e: int, entry: Entry) {
    && step.InvokeInPlace? && step.emitter == e && Enabled(r, step)
    && entry.slot in r.slots && r.slots[entry.slot].args != []
    && Next(r, step).slots == r.slots[entry.slot := Invke(r.slots[entry.slot])]
    && Next(r, step).tickets == r.tickets - {step.ticket}
  }

  predicate ServesEntry(r: State, step: Step, e: int, entry: Entry, sync: bool) {
    if sync then CallsEntry(r, step, e, entry) else PostsEntry(r, step, e, entry)
  }

  lemma EntryPushed(r: State, step: Step, e: int, m: Emitter, served: nat)
    requires Inv(r) && UnderWay(r, e, m, served) && PushBy(r, step, e)
    ensures served < |m.todo| && PushesEntry(r, step, e, m.todo[served], m.arg)
  {
    assert EntryOk(r.emitters[e].todo[0], r.slots, r.reg.bound);
  }

  lemma EntryFinished(r: State, step: Step, e: int, m: Emitter, served: nat)
    requires Inv(r) && UnderWay(r, e, m, served) && ServesBy(r, step, e)
    ensures served < |m.todo| && ServesEntry(r, step, e, m.todo[served], m.sync)
  {
    if m.sync {
      EntryCalled(r, step, e, m, served);
    } else {
      PostedToOwner(r, e, step.ticket);
    }
  }

  lemma EntryCalled(r: State, step: Step, e: int, m: Emitter, served: nat)
    requires Inv(r) && UnderWay(r, e, m, served) && m.sync && ServesBy(r, step, e)
    ensures served < |m.todo| && CallsEntry(r, step, e, m.todo[served])
  {
    HasSlot(r, step.ticket);
    assert TicketOk(r.tickets[step.ticket], r.slots, r.emitters, r.reg.loops);
    InvokeEffect(r, step.ticket);
    InPlaceMoves(r, e, step.ticket, m.todo[served].slot);
  }

  /** The connections of the signal in the order in which they are walked. */
  function Entries(s: State, order: seq<Port>): seq<Entry>
    requires forall i :: 0 <= i < |order| ==> order[i] in s.connections
  {
    seq(|order|, i requires 0 <= i < |order| => s.connections[order[i]])
  }

  lemma BeginsUnderWay(s: State, e: int, g: int, sync: bool, arg: Arg, order: seq<Port>)
    requires Inv(s) && Locked(s) && Enabled(s, BeginEmit(e, g, sync, arg, order))
    ensures var u := Next(s, BeginEmit(e, g, sync, arg, order));
            && Inv(u) && Locked(u) && ConnectionsOf(u, g) == ConnectionsOf(s, g)
            && UnderWay(u, e, Emitter(g, sync, arg, Entries(s, order)), 0) && !Announcing(u, e) && u.slots == s.slots
  {
    NextKeeps(s, BeginEmit(e, g, sync, arg, order));
    BeginLocked(s, e, g, sync, arg, order);
    forall t | t in s.tickets ensures s.tickets[t].stage != Announced(e) {
      HasSlot(s, t);
    }
    assert Entries(s, order)[0..] == Entries(s, order);
  }

  /** What the emit does for entry number `j`: one push, then one post or call, then the next push. */
  predicate EntryDone(u: State, steps: seq<Step>, e: int, j: nat, entry: Entry, arg: Arg, sync: bool) {
    var pushes, serves := Times(u, steps, e, Pushing), Times(u, steps, e, Serving);
    && j < |pushes| && j < |serves| && pushes[j] < serves[j] < |steps|
    && (j + 1 < |pushes| ==> serves[j] < pushes[j + 1])
    && PushesEntry(RunFrom(u, steps[..pushes[j]]), steps[pushes[j]], e, entry, arg)
    && ServesEntry(RunFrom(u, steps[..serves[j]]), steps[serves[j]], e, entry, sync)
  }

  /**
   A whole emit, interleaved with anything at all.  When it can end, it has pushed its argument
   exactly once to the slot of each connection its signal had when it began, in the order of the
   walk.  After each push it has done exactly one thing more for that slot: posted an event to the
   loop of the thread which the connection's object was bound to at that moment or, when it is
   synchronous, called the slot itself.  While an asynchronous emit goes on, the connections of its
   signal stay what they were.
   */
  lemma {:induction false} WholeEmit(s: State, e: int, g: int, sync: bool, arg: Arg, order: seq<Port>,
                                     steps: seq<Step>)
    requires Inv(s) && Locked(s) && Enabled(s, BeginEmit(e, g, sync, arg, order))
    requires var u := Next(s, BeginEmit(e, g, sync, arg, order));
             GoesOn(u, steps, e) && Enabled(RunFrom(u, steps), EndEmit(e))
    ensures var u := Next(s, BeginEmit(e, g, sync, arg, order));
            && (!sync ==> ConnectionsOf(RunFrom(u, steps), g) == ConnectionsOf(s, g))
            && |Times(u, steps, e, Pushing)| == |Times(u, steps, e, Serving)| == |order|
            && forall j :: 0 <= j < |order| ==> EntryDone(u, steps, e, j, s.connections[order[j]], arg, sync)
  {
    var u, m := Next(s, BeginEmit(e, g, sync, arg, order)), Emitter(g, sync, arg, Entries(s, order));
    BeginsUnderWay(s, e, g, sync, arg, order);
    EmitDone(u, steps, e, m);
    if !sync {
      ConnectionsStand(u, steps, e, m);
    }
    forall j | 0 <= j < |order| ensures EntryDone(u, steps, e, j, s.connections[order[j]], arg, sync) {
      EntryServed(u, steps, e, m, j);
    }
  }

  lemma EmitDone(u: State, steps: seq<Step>, e: int, m: Emitter)
    requires Inv(u) && UnderWay(u, e, m, 0) && !Announcing(u, e) && GoesOn(u, steps, e)
    requires Enabled(RunFrom(u, steps), EndEmit(e))
    ensures |Times(u, steps, e, Pushing)| == |Times(u, steps, e, Serving)| == |m.todo|
  {
    RunKeeps(u, steps);
    EmitProgress(u, steps, e, m);
    NotAnnouncingAtEnd(RunFrom(u, steps), e);
  }

  lemma NotAnnouncingAtEnd(s: State, e: int)
    requires Inv(s) && e in s.emitters && s.emitters[e].todo == []
    ensures !Announcing(s, e)
  {
    forall t | t in s.tickets ensures s.tickets[t].stage != Announced(e) {
      HasSlot(s, t);
    }
  }

  /** A time before the first `k` steps are over is a time of these steps. */
  lemma {:induction false} TimeBefore(s: State, steps: seq<Step>, k: nat, e: int, act: Act, j: nat)
    requires k <= |steps| && j < |Times(s, steps[..k], e, act)|
    ensures j < |Times(s, steps, e, act)| && Times(s, steps, e, act)[j] < k
    decreases |steps|
  {
    if k == |steps| {
      assert steps[..k] == steps;
      TimeIsRight(s, steps, e, act, j);
    } else {
      var front := steps[..|steps| - 1];
      assert front[..k] == steps[..k];
      TimeBefore(s, front, k, e, act, j);
    }
  }

  /** At its push numbered `j` the emit has served `j` entries and announces entry `j`. */
  lemma PushMoment(u: State, steps: seq<Step>, e: int, m: Emitter, j: nat)
    requires Inv(u) && UnderWay(u, e, m, 0) && !Announcing(u, e) && GoesOn(u, steps, e)
    requires j < |Times(u, steps, e, Pushing)|
    ensures var k := Times(u, steps, e, Pushing)[j];
            && k < |steps| && j < |m.todo| && |Times(u, steps[..k], e, Serving)| == j
            && PushesEntry(RunFrom(u, steps[..k]), steps[k], e, m.todo[j], m.arg)
  {
    var k := Times(u, steps, e, Pushing)[j];
    TimeIsRight(u, steps, e, Pushing, j);
    GoesOnBefore(u, steps, e, k);
    RunKeeps(u, steps[..k]);
    EmitProgress(u, steps[..k], e, m);
    EntryPushed(RunFrom(u, steps[..k]), steps[k], e, m, j);
  }

  /** When it is done with entry `j` the emit has pushed `j + 1` arguments. */
  lemma ServeMoment(u: State, steps: seq<Step>, e: int, m: Emitter, j: nat)
    requires Inv(u) && UnderWay(u, e, m, 0) && !Announcing(u, e) && GoesOn(u, steps, e)
    requires j < |Times(u, steps, e, Serving)|
    ensures var k := Times(u, steps, e, Serving)[j];
            && k < |steps| && j < |m.todo| && |Times(u, steps[..k], e, Pushing)| == j + 1
            && ServesEntry(RunFrom(u, steps[..k]), steps[k], e, m.todo[j], m.sync)
  {
    var k := Times(u, steps, e, Serving)[j];
    TimeIsRight(u, steps, e, Serving, j);
    GoesOnBefore(u, steps, e, k);
    RunKeeps(u, steps[..k]);
    EmitProgress(u, steps[..k], e, m);
    EntryFinished(RunFrom(u, steps[..k]), steps[k], e, m, j);
    ServedWhileAnnouncing(RunFrom(u, steps[..k]), steps[k], e);
  }

  /** The push and the post or call numbered `j` are those of entry `j`. */
  lemma EntryServed(u: State, steps: seq<Step>, e: int, m: Emitter, j: nat)
    requires Inv(u) && UnderWay(u, e, m, 0) && !Announcing(u, e) && GoesOn(u, steps, e)
    requires j < |m.todo| == |Times(u, steps, e, Serving)| == |Times(u, steps, e, Pushing)|
    ensures EntryDone(u, steps, e, j, m.todo[j], m.arg, m.sync)
  {
    var pushes, serves := Times(u, steps, e, Pushing), Times(u, steps, e, Serving);
    PushMoment(u, steps, e, m, j);
    ServeMoment(u, steps, e, m, j);
    TimeBefore(u, steps, serves[j], e, Pushing, j);
    if j + 1 < |pushes| {
      PushMoment(u, steps, e, m, j + 1);
      TimeBefore(u, steps, pushes[j + 1], e, Serving, j);
    }
  }

  // ---------------------------------------------------------------- two emits of one signal

  lemma {:induction false} FirstEnd(s: State, steps: seq<Step>, e: int) returns (c: nat)
    requires !GoesOn(s, steps, e)
    ensures c < |steps| && EndBy(RunFrom(s, steps[..c]), steps[c], e) && GoesOn(s, steps[..c], e)
  {
    var front := steps[..|steps| - 1];
    if GoesOn(s, front, e) {
      c := |front|;
    } else {
      c := FirstEnd(s, front, e);
      assert steps[..c] == front[..c];
    }
  }

  /** Before the lock is free for another emit, the emit under way has ended. */
  lemma EmitEnds(s: State, steps: seq<Step>, e: int, m: Emitter) returns (c: nat)
    requires Inv(s) && Locked(s) && UnderWay(s, e, m, 0) && !m.sync && !Announcing(s, e)
    requires m.signal !in RunFrom(s, steps).locks
    ensures c < |steps| && EndBy(RunFrom(s, steps[..c]), steps[c], e) && GoesOn(s, steps[..c], e)
  {
    if GoesOn(s, steps, e) {
      EmitProgress(s, steps, e, m);
      RunLocked(s, steps);
      assert false;
    }
    c := FirstEnd(s, steps, e);
  }

  /** The slot is not deleted during these steps. */
  predicate Lives(s: State, steps: seq<Step>, slot: int) {
    forall k :: 0 <= k <= |steps| ==> slot in RunFrom(s, steps[..k]).slots
  }

  lemma {:induction false} PushedStays(s: State, steps: seq<Step>, i: nat, slot: int)
    requires Inv(s) && Lives(s, steps, slot) && i <= |steps|
    ensures slot in RunFrom(s, steps).slots && slot in RunFrom(s, steps[..i]).slots
    ensures RunFrom(s, steps[..i]).slots[slot].pushed <= RunFrom(s, steps).slots[slot].pushed
    decreases |steps|
  {
    assert steps[..|steps|] == steps;
    if i < |steps| {
      var front, last := steps[..|steps| - 1], steps[|steps| - 1];
      assert forall k :: 0 <= k <= |front| ==> front[..k] == steps[..k];
      PushedStays(s, front, i, slot);
      RunKeeps(s, front);
      SlotMoves(RunFrom(s, front), last, slot);
    }
  }

  lemma PushedGrows(s: State, steps: seq<Step>, slot: int)
    requires Inv(s) && Lives(s, steps, slot)
    ensures slot in s.slots && slot in RunFrom(s, steps).slots
    ensures s.slots[slot].pushed <= RunFrom(s, steps).slots[slot].pushed
  {
    PushedStays(s, steps, 0, slot);
    assert steps[..0] == [];
  }

  lemma LivesBefore(s: State, steps: seq<Step>, k: nat, slot: int)
    requires Lives(s, steps, slot) && k <= |steps|
    ensures Lives(s, steps[..k], slot)
  {
    forall i | 0 <= i <= k ensures slot in RunFrom(s, steps[..k][..i]).slots {
      assert steps[..k][..i] == steps[..i];
    }
  }

  /** `pushed` holds the argument at a place from `n` on. */
  predicate HoldsFrom(pushed: seq<Arg>, n: nat, arg: Arg) {
    exists i :: n <= i < |pushed| && pushed[i] == arg
  }

  /** An argument pushed at step `k` is still there at the end, behind what was there before the run. */
  lemma PushIsKept(u: State, steps: seq<Step>, k: nat, slot: int, arg: Arg)
    requires Inv(u) && Lives(u, steps, slot) && k < |steps|
    requires slot in RunFrom(u, steps[..k]).slots
    requires Next(RunFrom(u, steps[..k]), steps[k]).slots
          == RunFrom(u, steps[..k]).slots[slot := AddArg(RunFrom(u, steps[..k]).slots[slot], arg)]
    ensures slot in u.slots && slot in RunFrom(u, steps).slots
    ensures HoldsFrom(RunFrom(u, steps).slots[slot].pushed, |u.slots[slot].pushed|, arg)
  {
    var before := RunFrom(u, steps[..k]).slots[slot].pushed;
    LivesBefore(u, steps, k, slot);
    PushedGrows(u, steps[..k], slot);
    AfterStep(u, steps, k);
    PushedStays(u, steps, k + 1, slot);
    KeptAt(before, arg, RunFrom(u, steps).slots[slot].pushed, |u.slots[slot].pushed|);
  }

  lemma AfterStep(u: State, steps: seq<Step>, k: nat)
    requires k < |steps|
    ensures RunFrom(u, steps[..k + 1]) == Next(RunFrom(u, steps[..k]), steps[k])
  {
    assert steps[..k + 1] == steps[..k] + [steps[k]];
    RunLast(u, steps[..k], steps[k]);
  }

  lemma KeptAt(before: seq<Arg>, arg: Arg, after: seq<Arg>, n: nat)
    requires n <= |before| && before + [arg] <= after
    ensures HoldsFrom(after, n, arg)
  {
    assert after[|before|] == (before + [arg])[|before|];
  }

  /** An emit that leaves the lock to another has pushed its argument to every slot of its walk. */
  lemma EmitHasPushed(u: State, steps: seq<Step>, e: int, m: Emitter, j: nat)
    requires Inv(u) && Locked(u) && UnderWay(u, e, m, 0) && !m.sync && !Announcing(u, e)
    requires m.signal !in RunFrom(u, steps).locks && j < |m.todo| && Lives(u, steps, m.todo[j].slot)
    ensures var slot := m.todo[j].slot;
            && slot in u.slots && slot in RunFrom(u, steps).slots
            && HoldsFrom(RunFrom(u, steps).slots[slot].pushed, |u.slots[slot].pushed|, m.arg)
  {
    var c := EmitEnds(u, steps, e, m);
    EmitDone(u, steps[..c], e, m);
    EntryServed(u, steps[..c], e, m, j);
    var k := Times(u, steps[..c], e, Pushing)[j];
    assert steps[..c][..k] == steps[..k];
    PushIsKept(u, steps, k, m.todo[j].slot, m.arg);
  }

  /**
   Two asynchronous emits of one signal, the second beginning at any later time.  By then the
   first has pushed its argument to every slot of its walk, so whatever the second pushes to a
   slot they share stands behind it: all the slots they share see the two in the same order.
   */
  lemma {:induction false} EmitsInOrder(s: State, e: int, g: int, arg: Arg, order: seq<Port>, j: nat,
                     steps: seq<Step>, second: Step, later: seq<Step>)
    requires Inv(s) && Locked(s) && Enabled(s, BeginEmit(e, g, false, arg, order)) && j < |order|
    requires var u, slot := Next(s, BeginEmit(e, g, false, arg, order)), s.connections[order[j]].slot;
             && second.BeginEmit? && !second.sync && second.signal == g && Enabled(RunFrom(u, steps), second)
             && Lives(u, steps, slot) && Lives(Next(RunFrom(u, steps), second), later, slot)
    ensures var slot := s.connections[order[j]].slot;
            var v := RunFrom(Next(s, BeginEmit(e, g, false, arg, order)), steps);
            var w := RunFrom(Next(v, second), later);
            && slot in s.slots && slot in v.slots && slot in w.slots
            && HoldsFrom(v.slots[slot].pushed, |s.slots[slot].pushed|, arg)
            && v.slots[slot].pushed <= w.slots[slot].pushed
  {
    var u := Next(s, BeginEmit(e, g, false, arg, order));
    BeginsUnderWay(s, e, g, false, arg, order);
    EmitHasPushed(u, steps, e, Emitter(g, false, arg, Entries(s, order)), j);
    var v, slot := RunFrom(u, steps), s.connections[order[j]].slot;
    RunKeeps(u, steps);
    BeginLeavesSlots(v, second, later, slot);
  }

  lemma BeginLeavesSlots(v: State, second: Step, later: seq<Step>, slot: int)
    requires Inv(v) && second.BeginEmit? && Enabled(v, second) && Lives(Next(v, second), later, slot)
    ensures slot in v.slots && slot in RunFrom(Next(v, second), later).slots
    ensures v.slots[slot].pushed <= RunFrom(Next(v, second), later).slots[slot].pushed
  {
    NextKeeps(v, second);
    PushedGrows(Next(v, second), later, slot);
  }
}
