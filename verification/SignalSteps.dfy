/**
 Delivery of signal arguments as a system of atomic steps.  An emitter puts the argument into the
 slot's own queue and a bare event into the queue of a loop; a loop later takes some event and the
 slot then takes the oldest argument.  Nothing but the order of these steps keeps the two in step.
 */
module SignalSteps {

  type Arg(==)

  // ---------------------------------------------------------------- one slot

  /** `args` is the slot's queue; `pushed` and `taken` are everything that went in and came out. */
  datatype SlotState = SlotState(pushed: seq<Arg>, args: seq<Arg>, taken: seq<Arg>)

  function NewSlot(): SlotState {
    SlotState([], [], [])
  }

  function AddArg(s: SlotState, a: Arg): SlotState {
    SlotState(s.pushed + [a], s.args + [a], s.taken)
  }

  /** Slot::Invke: args.front() and args.pop(), then the callback. */
  function Invke(s: SlotState): SlotState
    requires s.args != []
  {
    SlotState(s.pushed, s.args[1..], s.taken + [s.args[0]])
  }

  // ---------------------------------------------------------------- the whole program

  /** A member function is connected under its address, a lambda under its place in the vector. */
  datatype Key = Fid(address: int) | Lambda(place: int)

  datatype Port = Port(signal: int, key: Key)

  /** A connected slot and the object on whose loop it runs. */
  datatype Entry = Entry(obj: int, slot: int)

  /** An emit() in progress: the entries it has yet to serve. */
  datatype Emitter = Emitter(signal: int, sync: bool, arg: Arg, todo: seq<Entry>)

  /** Where one pending invocation of a slot is. */
  datatype Stage =
    | Announced(emitter: int)  // argument queued, event not yet posted (or not yet invoked in place)
    | Queued(loop: int)        // an event in a loop's priority queue
    | Held(worker: int)        // taken off by exec(), callback not yet started

  datatype Ticket = Ticket(slot: int, stage: Stage)

  /** The loops of the program and the objects bound to them. */
  datatype Loops = Loops(
    loops: map<int, int>,     // every CoreData and its work_id
    registry: map<int, int>,  // object_map: thread id to CoreData
    bound: map<int, int>,     // object_loop of every object
    thread: map<int, int>     // the thread id each object was last bound to
  )

  datatype State = State(
    reg: Loops,
    slots: map<int, SlotState>,
    connections: map<Port, Entry>, // slots and lamda_slots of every signal
    locks: map<int, int>,          // signals whose lock an asynchronous emit holds
    emitters: map<int, Emitter>,
    workers: map<int, int>,        // threads inside exec() and the loop each serves
    tickets: map<int, Ticket>,     // every pending invocation
    crashed: bool                  // front() was called on an empty queue, or a null loop used
  )

  function Start(): State {
    State(Loops(map[], map[], map[], map[]), map[], map[], map[], map[], map[], map[], false)
  }

  datatype Step =
    | Bind(obj: int, thread: int, newLoop: int)
    | Connect(port: Port, obj: int, slot: int)
    | Disconnect(port: Port)
    | Clear(signal: int)
    | BeginEmit(emitter: int, signal: int, sync: bool, arg: Arg, order: seq<Port>)
    | PushArg(emitter: int, ticket: int)
    | Post(emitter: int, ticket: int)
    | InvokeInPlace(emitter: int, ticket: int)
    | EndEmit(emitter: int)
    | EnterLoop(worker: int, obj: int)
    | Dequeue(worker: int, ticket: int)
    | Invoke(worker: int, ticket: int)

  /** setObjectThread: the CoreData of the thread, made (under a fresh identity) if there is none. */
  function SetObjectThread(r: Loops, obj: int, id: int, newLoop: int): Loops {
    if id in r.registry then
      r.(bound := r.bound[obj := r.registry[id]], thread := r.thread[obj := id])
    else
      Loops(r.loops[newLoop := id], r.registry[id := newLoop], r.bound[obj := newLoop], r.thread[obj := id])
  }

  /** emit() walks the slot map by ascending address, then the vector of lambdas by place. */
  predicate Before(a: Key, b: Key) {
    match (a, b)
    case (Fid(x), Fid(y)) => x < y
    case (Fid(_), Lambda(_)) => true
    case (Lambda(_), Fid(_)) => false
    case (Lambda(i), Lambda(j)) => i < j
  }

  predicate WalkOf(s: State, signal: int, order: seq<Port>) {
    && (forall i :: 0 <= i < |order| ==> order[i] in s.connections && order[i].signal == signal)
    && (forall p :: p in s.connections && p.signal == signal ==> p in order)
    && (forall i, j :: 0 <= i < j < |order| ==> Before(order[i].key, order[j].key))
  }

  predicate Announcing(s: State, emitter: int) {
    exists t :: t in s.tickets && s.tickets[t].stage == Announced(emitter)
  }

  predicate Holding(s: State, worker: int) {
    exists t :: t in s.tickets && s.tickets[t].stage == Held(worker)
  }

  /** Nothing pending or in progress refers to the slot. */
  predicate Unused(s: State, slot: int) {
    && (forall t :: t in s.tickets ==> s.tickets[t].slot != slot)
    && (forall e, i :: e in s.emitters && 0 <= i < |s.emitters[e].todo| ==> s.emitters[e].todo[i].slot != slot)
  }

  /** When a step can happen; connect, disconnect, Clear and emit all wait for the signal's lock. */
  predicate Enabled(s: State, step: Step) {
    match step
    case Bind(obj, thread, newLoop) => thread in s.reg.registry || newLoop !in s.reg.loops
    case Connect(p, obj, slot) => p.signal !in s.locks && obj in s.reg.bound && slot !in s.slots
    case Disconnect(p) => p.signal !in s.locks && (p in s.connections ==> Unused(s, s.connections[p].slot))
    case Clear(g) =>
      g !in s.locks && forall p :: p in s.connections && p.signal == g ==> Unused(s, s.connections[p].slot)
    case BeginEmit(e, g, sync, arg, order) => g !in s.locks && e !in s.emitters && WalkOf(s, g, order)
    case PushArg(e, t) => e in s.emitters && s.emitters[e].todo != [] && !Announcing(s, e) && t !in s.tickets
    case Post(e, t) => e in s.emitters && !s.emitters[e].sync && t in s.tickets && s.tickets[t].stage == Announced(e)
    case InvokeInPlace(e, t) =>
      e in s.emitters && s.emitters[e].sync && t in s.tickets && s.tickets[t].stage == Announced(e)
    case EndEmit(e) => e in s.emitters && s.emitters[e].todo == []
    case EnterLoop(w, obj) => obj in s.reg.bound && w !in s.workers
    case Dequeue(w, t) =>
      w in s.workers && !Holding(s, w) && t in s.tickets && s.tickets[t].stage == Queued(s.workers[w])
    case Invoke(w, t) => t in s.tickets && s.tickets[t].stage == Held(w)
  }

  function InvokeTicket(s: State, t: int): (u: State)
    requires t in s.tickets
    ensures u.connections == s.connections && u.slots.Keys == s.slots.Keys && u.workers == s.workers
  {
    var slot := s.tickets[t].slot;
    if slot !in s.slots || s.slots[slot].args == [] then s.(crashed := true)
    else s.(slots := s.slots[slot := Invke(s.slots[slot])], tickets := s.tickets - {t})
  }

  /** The emitter is done with its first entry. */
  function Served(s: State, e: int): State
    requires e in s.emitters && s.emitters[e].todo != []
  {
    s.(emitters := s.emitters[e := s.emitters[e].(todo := s.emitters[e].todo[1..])])
  }

  function Connected(s: State, p: Port, obj: int, slot: int): State {
    s.(slots := s.slots[slot := NewSlot()], connections := s.connections[p := Entry(obj, slot)])
  }

  /** disconnect() deletes the slot with its connection; Clear() does so for the whole signal. */
  function Deleted(s: State, ports: set<Port>): State
    requires ports <= s.connections.Keys
  {
    s.(slots := s.slots - (set p | p in ports :: s.connections[p].slot), connections := s.connections - ports)
  }

  function Emitting(s: State, e: int, g: int, sync: bool, arg: Arg, order: seq<Port>): State
    requires WalkOf(s, g, order)
  {
    var todo := seq(|order|, i requires 0 <= i < |order| => s.connections[order[i]]);
    s.(emitters := s.emitters[e := Emitter(g, sync, arg, todo)], locks := if sync then s.locks else s.locks[g := e])
  }

  function Pushed(s: State, e: int, t: int): (u: State)
    requires e in s.emitters && s.emitters[e].todo != []
    ensures u.connections == s.connections && u.slots.Keys == s.slots.Keys && u.workers == s.workers
  {
    var slot := s.emitters[e].todo[0].slot;
    if slot !in s.slots then s.(crashed := true) else
    s.(slots := s.slots[slot := AddArg(s.slots[slot], s.emitters[e].arg)],
       tickets := s.tickets[t := Ticket(slot, Announced(e))])
  }

  function Posted(s: State, e: int, t: int): (u: State)
    requires e in s.emitters && t in s.tickets
    ensures u.connections == s.connections && u.slots == s.slots && u.workers == s.workers
  {
    if s.emitters[e].todo == [] || s.emitters[e].todo[0].obj !in s.reg.bound then s.(crashed := true) else
    var loop := s.reg.bound[s.emitters[e].todo[0].obj];
    Served(s, e).(tickets := s.tickets[t := Ticket(s.tickets[t].slot, Queued(loop))])
  }

  function InvokedInPlace(s: State, e: int, t: int): (u: State)
    requires e in s.emitters && t in s.tickets
    ensures u.connections == s.connections && u.slots.Keys == s.slots.Keys && u.workers == s.workers
  {
    if s.emitters[e].todo == [] then s.(crashed := true) else InvokeTicket(Served(s, e), t)
  }

  function Ended(s: State, e: int): State
    requires e in s.emitters
  {
    var g := s.emitters[e].signal;
    s.(emitters := s.emitters - {e}, locks := if g in s.locks && s.locks[g] == e then s.locks - {g} else s.locks)
  }

  function Dequeued(s: State, w: int, t: int): State
    requires t in s.tickets
  {
    s.(tickets := s.tickets[t := Ticket(s.tickets[t].slot, Held(w))])
  }

  function PortsOf(s: State, g: int): set<Port> {
    set p | p in s.connections && p.signal == g
  }

  function Next(s: State, step: Step): State {
    if !Enabled(s, step) then s else
    match step
    case Bind(obj, thread, newLoop) => s.(reg := SetObjectThread(s.reg, obj, thread, newLoop))
    case Connect(p, obj, slot) => Connected(s, p, obj, slot)
    case Disconnect(p) => if p in s.connections then Deleted(s, {p}) else s
    case Clear(g) => Deleted(s, PortsOf(s, g))
    case BeginEmit(e, g, sync, arg, order) => Emitting(s, e, g, sync, arg, order)
    case PushArg(e, t) => Pushed(s, e, t)
    case Post(e, t) => Posted(s, e, t)
    case InvokeInPlace(e, t) => InvokedInPlace(s, e, t)
    case EndEmit(e) => Ended(s, e)
    case EnterLoop(w, obj) => s.(workers := s.workers[w := s.reg.bound[obj]])
    case Dequeue(w, t) => Dequeued(s, w, t)
    case Invoke(w, t) => InvokeTicket(s, t)
  }

  function RunFrom(s: State, steps: seq<Step>): State {
    if steps == [] then s else Next(RunFrom(s, steps[..|steps| - 1]), steps[|steps| - 1])
  }

  function Run(steps: seq<Step>): State {
    RunFrom(Start(), steps)
  }

  // ---------------------------------------------------------------- what every reachable state keeps

  /** The invocations of a slot that are still to come. */
  function Pending(tickets: map<int, Ticket>, slot: int): set<int> {
    set t | t in tickets && tickets[t].slot == slot
  }

  predicate SlotsInStep(slots: map<int, SlotState>, tickets: map<int, Ticket>) {
    forall i :: i in slots ==>
                  && slots[i].taken + slots[i].args == slots[i].pushed
                  && |slots[i].args| == |Pending(tickets, i)|
  }

  predicate TicketOk(k: Ticket, slots: map<int, SlotState>, emitters: map<int, Emitter>, loops: map<int, int>) {
    && k.slot in slots
    && match k.stage
       case Announced(e) => e in emitters && emitters[e].todo != [] && emitters[e].todo[0].slot == k.slot
       case Queued(loop) => loop in loops
       case Held(_) => true
  }

  predicate TicketsOk(tickets: map<int, Ticket>, slots: map<int, SlotState>,
                      emitters: map<int, Emitter>, loops: map<int, int>) {
    forall t :: t in tickets ==> TicketOk(tickets[t], slots, emitters, loops)
  }

  /** An emitter announces one invocation at a time, and a worker holds one at a time. */
  predicate OneAtATime(tickets: map<int, Ticket>) {
    forall t, u :: t in tickets && u in tickets && tickets[t].stage == tickets[u].stage ==>
                     tickets[t].stage.Queued? || t == u
  }

  predicate EntryOk(e: Entry, slots: map<int, SlotState>, bound: map<int, int>) {
    e.slot in slots && e.obj in bound
  }

  predicate TodoOk(emitters: map<int, Emitter>, slots: map<int, SlotState>, bound: map<int, int>) {
    forall e, i :: e in emitters && 0 <= i < |emitters[e].todo| ==> EntryOk(emitters[e].todo[i], slots, bound)
  }

  /** Connected slots exist, have an object, and are shared by no two connections. */
  predicate ConnectionsOk(connections: map<Port, Entry>, slots: map<int, SlotState>, bound: map<int, int>) {
    && (forall p :: p in connections ==> EntryOk(connections[p], slots, bound))
    && (forall p, q :: p in connections && q in connections && connections[p].slot == connections[q].slot ==> p == q)
  }

  predicate RegistryOk(r: Loops) {
    && (forall id :: id in r.registry ==> r.registry[id] in r.loops && r.loops[r.registry[id]] == id)
    && (forall loop :: loop in r.loops ==> r.loops[loop] in r.registry && r.registry[r.loops[loop]] == loop)
    && (forall obj :: obj in r.bound ==>
                        obj in r.thread && r.thread[obj] in r.registry && r.bound[obj] == r.registry[r.thread[obj]])
  }

  predicate WorkersOk(workers: map<int, int>, r: Loops) {
    forall w :: w in workers ==> workers[w] in r.loops
  }

  predicate Inv(s: State) {
    && !s.crashed
    && SlotsInStep(s.slots, s.tickets)
    && TicketsOk(s.tickets, s.slots, s.emitters, s.reg.loops)
    && OneAtATime(s.tickets)
    && TodoOk(s.emitters, s.slots, s.reg.bound)
    && ConnectionsOk(s.connections, s.slots, s.reg.bound)
    && RegistryOk(s.reg)
    && WorkersOk(s.workers, s.reg)
  }

  lemma OneLess<K, V>(m: map<K, V>, k: K)
    requires k in m
    ensures |m - {k}| < |m|
  {
    assert (m - {k}).Keys == m.Keys - {k};
  }

  lemma TicketAdded(tickets: map<int, Ticket>, t: int, k: Ticket)
    requires t !in tickets
    ensures forall i :: |Pending(tickets[t := k], i)| == |Pending(tickets, i)| + (if i == k.slot then 1 else 0)
  {
    forall i
      ensures |Pending(tickets[t := k], i)| == |Pending(tickets, i)| + (if i == k.slot then 1 else 0)
    {
      assert Pending(tickets[t := k], i) == if i == k.slot then Pending(tickets, i) + {t} else Pending(tickets, i);
    }
  }

  lemma TicketRemoved(tickets: map<int, Ticket>, t: int)
    requires t in tickets
    ensures forall i :: |Pending(tickets - {t}, i)| == |Pending(tickets, i)| - (if i == tickets[t].slot then 1 else 0)
  {
    forall i
      ensures |Pending(tickets - {t}, i)| == |Pending(tickets, i)| - (if i == tickets[t].slot then 1 else 0)
    {
      assert Pending(tickets - {t}, i)
          == if i == tickets[t].slot then Pending(tickets, i) - {t} else Pending(tickets, i);
    }
  }

  lemma TicketMoved(tickets: map<int, Ticket>, t: int, stage: Stage)
    requires t in tickets
    ensures forall i :: Pending(tickets[t := Ticket(tickets[t].slot, stage)], i) == Pending(tickets, i)
  {
  }

  /** Each thread id keeps the CoreData it was first given. */
  predicate RegistryGrows(r: Loops, q: Loops) {
    && (forall id :: id in r.registry ==> id in q.registry && q.registry[id] == r.registry[id])
    && (forall loop :: loop in r.loops ==> loop in q.loops && q.loops[loop] == r.loops[loop])
    && (forall obj :: obj in r.bound ==> obj in q.bound)
  }

  lemma SetObjectThreadKeeps(r: Loops, obj: int, id: int, newLoop: int)
    requires RegistryOk(r) && (id in r.registry || newLoop !in r.loops)
    ensures var q := SetObjectThread(r, obj, id, newLoop);
            && RegistryOk(q) && RegistryGrows(r, q)
            && q.thread == r.thread[obj := id] && q.bound.Keys == r.bound.Keys + {obj}
  {
  }

  /** An object's loop is the one its thread is registered under. */
  lemma LoopOf(r: Loops, obj: int)
    requires RegistryOk(r) && obj in r.bound
    ensures obj in r.thread && r.thread[obj] in r.registry && r.bound[obj] == r.registry[r.thread[obj]]
    ensures r.bound[obj] in r.loops && r.loops[r.bound[obj]] == r.thread[obj]
  {
    var id := r.thread[obj];
    assert id in r.registry;
  }

  lemma BindKeeps(s: State, obj: int, thread: int, newLoop: int)
    requires Inv(s) && (thread in s.reg.registry || newLoop !in s.reg.loops)
    ensures Inv(s.(reg := SetObjectThread(s.reg, obj, thread, newLoop)))
  {
    SetObjectThreadKeeps(s.reg, obj, thread, newLoop);
    var q := SetObjectThread(s.reg, obj, thread, newLoop);
    forall t | t in s.tickets ensures TicketOk(s.tickets[t], s.slots, s.emitters, q.loops) {
      assert TicketOk(s.tickets[t], s.slots, s.emitters, s.reg.loops);
    }
    forall e, i | e in s.emitters && 0 <= i < |s.emitters[e].todo|
      ensures EntryOk(s.emitters[e].todo[i], s.slots, q.bound)
    {
      assert EntryOk(s.emitters[e].todo[i], s.slots, s.reg.bound);
    }
    assert ConnectionsOk(s.connections, s.slots, q.bound);
  }

  lemma ConnectKeeps(s: State, p: Port, obj: int, slot: int)
    requires Inv(s) && obj in s.reg.bound && slot !in s.slots
    ensures Inv(Connected(s, p, obj, slot))
  {
    assert Pending(s.tickets, slot) == {} by {
      forall t | t in s.tickets ensures s.tickets[t].slot != slot {
        assert TicketOk(s.tickets[t], s.slots, s.emitters, s.reg.loops);
      }
    }
  }

  lemma DeleteKeeps(s: State, ports: set<Port>)
    requires Inv(s) && ports <= s.connections.Keys
    requires forall p :: p in ports ==> Unused(s, s.connections[p].slot)
    ensures Inv(Deleted(s, ports))
  {
  }

  lemma EmitKeeps(s: State, e: int, g: int, sync: bool, arg: Arg, order: seq<Port>)
    requires Inv(s) && e !in s.emitters && WalkOf(s, g, order)
    ensures Inv(Emitting(s, e, g, sync, arg, order))
  {
  }

  lemma PushInStep(slots: map<int, SlotState>, tickets: map<int, Ticket>, t: int, k: Ticket, arg: Arg)
    requires SlotsInStep(slots, tickets) && t !in tickets && k.slot in slots
    ensures SlotsInStep(slots[k.slot := AddArg(slots[k.slot], arg)], tickets[t := k])
  {
    TicketAdded(tickets, t, k);
    var a := slots[k.slot];
    assert a.taken + (a.args + [arg]) == a.taken + a.args + [arg];
  }

  lemma PushKeeps(s: State, e: int, t: int)
    requires Inv(s) && e in s.emitters && s.emitters[e].todo != [] && !Announcing(s, e) && t !in s.tickets
    ensures Inv(Pushed(s, e, t))
  {
    var k := Ticket(s.emitters[e].todo[0].slot, Announced(e));
    assert EntryOk(s.emitters[e].todo[0], s.slots, s.reg.bound);
    PushInStep(s.slots, s.tickets, t, k, s.emitters[e].arg);
    assert OneAtATime(s.tickets[t := k]);
    var u := Pushed(s, e, t);
    assert u.slots.Keys == s.slots.Keys;
  }

  /** Every emitter still points at the slot it announced, except the one whose ticket is `t`. */
  lemma OthersStand(s: State, e: int, t: int)
    requires TicketsOk(s.tickets, s.slots, s.emitters, s.reg.loops) && OneAtATime(s.tickets)
    requires t in s.tickets && s.tickets[t].stage == Announced(e) && e in s.emitters && s.emitters[e].todo != []
    ensures TicketsOk(s.tickets - {t}, s.slots, Served(s, e).emitters, s.reg.loops)
    ensures TodoOk(s.emitters, s.slots, s.reg.bound) ==> TodoOk(Served(s, e).emitters, s.slots, s.reg.bound)
  {
  }

  lemma PostKeeps(s: State, e: int, t: int)
    requires Inv(s) && e in s.emitters && t in s.tickets && s.tickets[t].stage == Announced(e)
    ensures Inv(Posted(s, e, t))
  {
    assert TicketOk(s.tickets[t], s.slots, s.emitters, s.reg.loops);
    assert EntryOk(s.emitters[e].todo[0], s.slots, s.reg.bound);
    LoopOf(s.reg, s.emitters[e].todo[0].obj);
    OthersStand(s, e, t);
    var u := Posted(s, e, t);
    TicketMoved(s.tickets, t, u.tickets[t].stage);
    forall k | k in u.tickets ensures TicketOk(u.tickets[k], u.slots, u.emitters, u.reg.loops) {
      if k != t { assert TicketOk(s.tickets[k], s.slots, u.emitters, s.reg.loops); }
    }
  }

  /** A pending invocation finds an argument, and taking it keeps both queues in step. */
  lemma InvokeInStep(slots: map<int, SlotState>, tickets: map<int, Ticket>, t: int)
    requires SlotsInStep(slots, tickets) && t in tickets && tickets[t].slot in slots
    ensures slots[tickets[t].slot].args != []
    ensures SlotsInStep(slots[tickets[t].slot := Invke(slots[tickets[t].slot])], tickets - {t})
  {
    var slot := tickets[t].slot;
    assert t in Pending(tickets, slot);
    TicketRemoved(tickets, t);
    var a := slots[slot];
    assert a.taken + a.args == a.taken + [a.args[0]] + a.args[1..];
  }

  lemma InvokeKeeps(s: State, t: int)
    requires Inv(s) && t in s.tickets
    ensures Inv(InvokeTicket(s, t))
    ensures InvokeTicket(s, t).emitters == s.emitters && InvokeTicket(s, t).tickets == s.tickets - {t}
  {
    assert TicketOk(s.tickets[t], s.slots, s.emitters, s.reg.loops);
    InvokeInStep(s.slots, s.tickets, t);
    var u := InvokeTicket(s, t);
    assert u.slots.Keys == s.slots.Keys;
    forall k | k in u.tickets ensures TicketOk(u.tickets[k], u.slots, u.emitters, u.reg.loops) {
      assert TicketOk(s.tickets[k], s.slots, s.emitters, s.reg.loops);
    }
  }

  /** The emitter invokes the slot itself, and is done with the entry. */
  lemma InvokeInPlaceKeeps(s: State, e: int, t: int)
    requires Inv(s) && e in s.emitters && t in s.tickets && s.tickets[t].stage == Announced(e)
    ensures Inv(InvokedInPlace(s, e, t))
  {
    assert TicketOk(s.tickets[t], s.slots, s.emitters, s.reg.loops);
    InvokeKeeps(s, t);
    OthersStand(s, e, t);
    var v := InvokeTicket(s, t);
    var u := InvokedInPlace(s, e, t);
    assert u == Served(v, e);
    forall k | k in u.tickets ensures TicketOk(u.tickets[k], u.slots, u.emitters, u.reg.loops) {
      assert TicketOk(s.tickets[k], s.slots, Served(s, e).emitters, s.reg.loops);
    }
    assert TodoOk(u.emitters, u.slots, u.reg.bound) by {
      forall d, i | d in u.emitters && 0 <= i < |u.emitters[d].todo|
        ensures EntryOk(u.emitters[d].todo[i], u.slots, u.reg.bound)
      {
        assert EntryOk(Served(s, e).emitters[d].todo[i], s.slots, s.reg.bound);
      }
    }
  }

  lemma EndKeeps(s: State, e: int)
    requires Inv(s) && e in s.emitters && s.emitters[e].todo == []
    ensures Inv(Ended(s, e))
  {
  }

  lemma DequeueKeeps(s: State, w: int, t: int)
    requires Inv(s) && t in s.tickets && !Holding(s, w)
    ensures Inv(Dequeued(s, w, t))
  {
    TicketMoved(s.tickets, t, Held(w));
    var u := Dequeued(s, w, t);
    forall k | k in u.tickets ensures TicketOk(u.tickets[k], u.slots, u.emitters, u.reg.loops) {
      assert TicketOk(s.tickets[k], s.slots, s.emitters, s.reg.loops);
    }
  }

  lemma NextKeeps(s: State, step: Step)
    requires Inv(s)
    ensures Inv(Next(s, step))
  {
    if Enabled(s, step) {
      match step
      case Bind(obj, thread, newLoop) => BindKeeps(s, obj, thread, newLoop);
      case Connect(p, obj, slot) => ConnectKeeps(s, p, obj, slot);
      case Disconnect(p) => if p in s.connections { DeleteKeeps(s, {p}); }
      case Clear(g) => DeleteKeeps(s, PortsOf(s, g));
      case BeginEmit(e, g, sync, arg, order) => EmitKeeps(s, e, g, sync, arg, order);
      case PushArg(e, t) => PushKeeps(s, e, t);
      case Post(e, t) => PostKeeps(s, e, t);
      case InvokeInPlace(e, t) => InvokeInPlaceKeeps(s, e, t);
      case EndEmit(e) => EndKeeps(s, e);
      case EnterLoop(w, obj) => LoopOf(s.reg, obj);
      case Dequeue(w, t) => DequeueKeeps(s, w, t);
      case Invoke(w, t) => InvokeKeeps(s, t);
    }
  }

  lemma OtherStepsKeepConnections(s: State, step: Step)
    requires !step.Connect? && !step.Disconnect? && !step.Clear?
    ensures Next(s, step).connections == s.connections
  {
  }

  lemma {:induction false} RunKeeps(s: State, steps: seq<Step>)
    requires Inv(s)
    ensures Inv(RunFrom(s, steps))
  {
    if steps == [] {
    } else {
      RunKeeps(s, steps[..|steps| - 1]);
      NextKeeps(RunFrom(s, steps[..|steps| - 1]), steps[|steps| - 1]);
    }
  }

  lemma Reachable(steps: seq<Step>)
    ensures Inv(Run(steps))
  {
    RunKeeps(Start(), steps);
  }
}
