/** The objects behind the steps: slots, loops, the loop registry and signals, updated in place. */
module Signals {
  import opened SignalSteps

  /** What happens to slots, across all objects: an argument is queued, an event posted, a callback called. */
  datatype Act = Added(slot: Slot) | Posted(slot: Slot) | Called(slot: Slot)

  /** Everything that has happened, oldest first. */
  class Trace {
    ghost var acts: seq<Act>
  }

  class Slot {
    var args: seq<Arg>
    /** Every argument pushed, and every call of the callback, oldest first. */
    ghost var pushed: seq<Arg>
    var calls: seq<Arg>
    var deleted: bool

    ghost function View(): SlotState
      reads this
    {
      SlotState(pushed, args, calls)
    }

    constructor ()
      ensures View() == NewSlot() && !deleted
    {
      args, pushed, calls, deleted := [], [], [], false;
    }

    method Add(a: Arg, ghost trace: Trace)
      modifies this`args, this`pushed, trace
      ensures View() == AddArg(old(View()), a)
      ensures trace.acts == old(trace.acts) + [Added(this)]
    {
      args := args + [a];
      pushed := pushed + [a];
      trace.acts := trace.acts + [Added(this)];
    }

    /** Takes the front argument and calls the callback with it. */
    method Call(ghost trace: Trace)
      requires args != []
      modifies this`args, this`calls, trace
      ensures View() == Invke(old(View()))
      ensures trace.acts == old(trace.acts) + [Called(this)]
    {
      var arg := args[0];
      args := args[1..];
      calls := calls + [arg];
      trace.acts := trace.acts + [Called(this)];
    }
  }

  /** A loop's data: the events waiting in its priority queue, all of one priority. */
  class CoreData {
    const workId: int
    var events: multiset<Slot>
    var toExit: bool

    constructor (id: int)
      ensures workId == id && events == multiset{} && !toExit
    {
      workId, events, toExit := id, multiset{}, false;
    }

    method Push(e: Slot)
      modifies this`events
      ensures events == old(events) + multiset{e}
    {
      events := events + multiset{e};
    }

    /** One turn of exec(): some event on top of the queue is removed and its slot called. */
    method Turn(ghost trace: Trace) returns (e: Slot)
      requires events != multiset{} && forall x :: x in events ==> x.args != [] && !x.deleted
      modifies this`events, trace, set x | x in events
      ensures trace.acts == old(trace.acts) + [Called(e)]
      ensures e in old(events) && events == old(events) - multiset{e}
      ensures e.View() == Invke(old(e.View()))
      ensures forall x :: x in old(events) && x != e ==> x.View() == old(x.View())
    {
      e :| e in events;
      events := events - multiset{e};
      e.Call(trace);
    }
  }

  /**
   addArg() and Invke() with nothing in between: the argument taken equals the one added exactly
   when nothing was queued or the oldest argument queued equals it.
   */
  lemma UninterruptedCall(s: SlotState, a: Arg)
    ensures Invke(AddArg(s, a)).taken == s.taken + [a] <==> s.args == [] || s.args[0] == a
    ensures Invke(AddArg(s, a)).args == if s.args == [] then [] else s.args[1..] + [a]
  {
    var first := (s.args + [a])[0];
    assert (s.taken + [first])[|s.taken|] == first && (s.taken + [a])[|s.taken|] == a;
  }

  class LoopObject {
    var objectLoop: CoreData?

    constructor (registry: Registry, id: int)
      requires registry.Valid()
      modifies registry
      ensures registry.Valid()
      ensures id in registry.objectMap && objectLoop == registry.objectMap[id]
      ensures registry.objectMap == old(registry.objectMap)[id := registry.objectMap[id]]
      ensures id in old(registry.objectMap) ==> registry.objectMap == old(registry.objectMap)
    {
      objectLoop := null;
      new;
      registry.SetObjectThread(this, id);
    }

    /** addToEventLoop() and addEvent(): without a loop the event is dropped. */
    method AddToEventLoop(e: Slot, ghost trace: Trace)
      modifies trace, if objectLoop != null then {objectLoop} else {}
      ensures objectLoop != null ==> objectLoop.events == old(objectLoop.events) + multiset{e}
      ensures trace.acts == old(trace.acts) + if objectLoop != null then [Posted(e)] else []
    {
      if objectLoop == null {
        return;
      }
      objectLoop.Push(e);
      trace.acts := trace.acts + [Posted(e)];
    }
  }

  /** The static map from thread ids to loops. */
  class Registry {
    var objectMap: map<int, CoreData>

    ghost predicate Valid()
      reads this
    {
      forall id :: id in objectMap ==> objectMap[id].workId == id
    }

    constructor ()
      ensures Valid() && objectMap == map[]
    {
      objectMap := map[];
    }

    /** Binds `o` to the loop of thread `id`, which is made on first use and kept for ever. */
    method SetObjectThread(o: LoopObject, id: int)
      requires Valid()
      modifies this, o`objectLoop
      ensures Valid()
      ensures id in objectMap && o.objectLoop == objectMap[id]
      ensures id in old(objectMap) ==> objectMap == old(objectMap)
      ensures id !in old(objectMap) ==>
                && fresh(objectMap[id]) && objectMap[id].events == multiset{}
                && objectMap == old(objectMap)[id := objectMap[id]]
    {
      if id in objectMap {
        o.objectLoop := objectMap[id];
      } else {
        var core := new CoreData(id);
        o.objectLoop := core;
        objectMap := objectMap[id := core];
      }
    }
  }

  datatype Connection = Connection(obj: LoopObject, slot: Slot)

  // ---------------------------------------------------------------- the connections of one signal

  function SetOf(todo: seq<Connection>): set<Connection> {
    set c | c in todo
  }

  function Connections(slots: map<int, Connection>, lambdas: seq<Connection>): set<Connection> {
    (set k | k in slots :: slots[k]) + SetOf(lambdas)
  }

  /** No two connections share a slot. */
  ghost predicate Apart(slots: map<int, Connection>, lambdas: seq<Connection>) {
    && (forall j, k :: j in slots && k in slots && slots[j].slot == slots[k].slot ==> j == k)
    && SlotsApart(lambdas)
    && (forall k, i :: k in slots && 0 <= i < |lambdas| ==> slots[k].slot != lambdas[i].slot)
  }

  ghost predicate SlotsApart(todo: seq<Connection>) {
    forall i, j :: 0 <= i < |todo| && 0 <= j < |todo| && todo[i].slot == todo[j].slot ==> i == j
  }

  /** `order` lists the addresses in the map in ascending order and `todo` their connections. */
  ghost predicate WalksMap(todo: seq<Connection>, order: seq<int>, slots: map<int, Connection>) {
    && |todo| == |order|
    && (forall i, j :: 0 <= i < j < |order| ==> order[i] < order[j])
    && (forall i :: 0 <= i < |order| ==> order[i] in slots && todo[i] == slots[order[i]])
    && (forall k :: k in slots ==> k in order)
  }

  /** The connections in the map, by ascending address, and then the lambdas as they stand in the vector. */
  ghost predicate WalksAll(walk: seq<Connection>, order: seq<int>, slots: map<int, Connection>,
                           lambdas: seq<Connection>)
  {
    |walk| == |order| + |lambdas| && walk[|order|..] == lambdas && WalksMap(walk[..|order|], order, slots)
  }

  lemma WalkIsComplete(todo: seq<Connection>, order: seq<int>, slots: map<int, Connection>, lambdas: seq<Connection>)
    requires WalksMap(todo, order, slots) && Apart(slots, lambdas)
    ensures SlotsApart(todo + lambdas)
    ensures SetOf(todo + lambdas) == Connections(slots, lambdas)
  {
  }

  lemma {:induction false} LeastOf(s: set<int>, x: int) returns (k: int)
    requires x in s
    ensures k in s && forall j :: j in s ==> k <= j
    decreases |s|
  {
    if y :| y in s && y < x {
      k := LeastOf(s - {x}, y);
      assert forall j :: j in s ==> j == x || j in s - {x};
    } else {
      k := x;
    }
  }

  method LeastKey(m: map<int, Connection>) returns (k: int)
    requires exists j :: j in m
    ensures k in m && forall j :: j in m ==> k <= j
  {
    ghost var some :| some in m;
    ghost var least := LeastOf(m.Keys, some);
    k :| k in m && forall j :: j in m ==> k <= j;
  }

  method AscendingKeys(m: map<int, Connection>) returns (order: seq<int>)
    ensures forall i, j :: 0 <= i < j < |order| ==> order[i] < order[j]
    ensures forall k :: k in order <==> k in m
  {
    order := [];
    var rest := m;
    while exists k :: k in rest
      invariant forall k :: k in rest <==> k in m && k !in order
      invariant forall k :: k in order ==> k in m
      invariant forall i, k :: 0 <= i < |order| && k in rest ==> order[i] < k
      invariant forall i, j :: 0 <= i < j < |order| ==> order[i] < order[j]
      decreases |rest|
    {
      var k := LeastKey(rest);
      OneLess(rest, k);
      rest, order := rest - {k}, order + [k];
    }
  }

  /** The order in which emit() walks the map. */
  method WalkMap(slots: map<int, Connection>) returns (todo: seq<Connection>, ghost order: seq<int>)
    ensures WalksMap(todo, order, slots)
  {
    var keys := AscendingKeys(slots);
    order := keys;
    assert forall i :: 0 <= i < |keys| ==> keys[i] in keys;
    todo := seq(|keys|, i requires 0 <= i < |keys| => slots[keys[i]]);
  }

  /** The slots of the connections whose object runs on `loop`. */
  ghost function On(connections: set<Connection>, loop: CoreData?): set<Slot>
    reads set c | c in connections :: c.obj
  {
    set c | c in connections && c.obj.objectLoop == loop :: c.slot
  }

  lemma LoopsOf(todo: seq<Connection>) returns (loops: seq<CoreData>)
    requires forall c :: c in todo ==> c.obj.objectLoop != null
    ensures |loops| == |todo| && forall i :: 0 <= i < |todo| ==> loops[i] == todo[i].obj.objectLoop
  {
    if todo == [] {
      loops := [];
    } else {
      var rest := LoopsOf(todo[1..]);
      loops := [todo[0].obj.objectLoop] + rest;
    }
  }

  /** The events posted to `loop` by serving the first `n`, whose loops are listed in `loops`. */
  ghost function EventsOf(todo: seq<Connection>, loops: seq<CoreData>, n: nat, loop: CoreData): multiset<Slot>
    requires n <= |todo| == |loops|
  {
    multiset(set i | 0 <= i < n && loops[i] == loop :: todo[i].slot)
  }

  lemma EventsGrow(todo: seq<Connection>, loops: seq<CoreData>, n: nat, loop: CoreData)
    requires SlotsApart(todo) && n < |todo| == |loops|
    ensures EventsOf(todo, loops, n + 1, loop)
         == EventsOf(todo, loops, n, loop) + if loops[n] == loop then multiset{todo[n].slot} else multiset{}
  {
  }

  lemma EventsAreOn(todo: seq<Connection>, loops: seq<CoreData>, loop: CoreData)
    requires |todo| == |loops| && forall i :: 0 <= i < |todo| ==> todo[i].obj.objectLoop == loops[i]
    ensures EventsOf(todo, loops, |todo|, loop) == multiset(On(SetOf(todo), loop))
  {
  }

  /** What emit() may change: its slots and the queues of their loops. */
  ghost predicate Reaches(frame: set<object>, todo: seq<Connection>, loops: seq<CoreData>)
    reads set c | c in todo :: c.obj
  {
    && SlotsApart(todo) && |todo| == |loops|
    && forall i :: 0 <= i < |todo| ==>
         todo[i].slot in frame && loops[i] in frame && todo[i].obj !in frame && todo[i].obj.objectLoop == loops[i]
  }

  /**
   Connection after connection of `walk`, in order, the argument was queued and then the event
   posted or, in a synchronous emit, the callback called; and nothing else happened.
   */
  ghost predicate ActedOn(before: seq<Act>, after: seq<Act>, walk: seq<Connection>, sync: bool) {
    && |after| == |before| + 2 * |walk| && after[..|before|] == before
    && forall i :: 0 <= i < |walk| ==>
         && after[|before| + 2 * i] == Added(walk[i].slot)
         && after[|before| + 2 * i + 1] == if sync then Called(walk[i].slot) else Posted(walk[i].slot)
  }

  lemma ActedOnOne(before: seq<Act>, mid: seq<Act>, after: seq<Act>, todo: seq<Connection>, i: nat, sync: bool)
    requires i < |todo| && ActedOn(before, mid, todo[..i], sync)
    requires after == mid + [Added(todo[i].slot)] + [if sync then Called(todo[i].slot) else Posted(todo[i].slot)]
    ensures ActedOn(before, after, todo[..i + 1], sync)
  {
    assert todo[..i + 1] == todo[..i] + [todo[i]];
  }

  /** addArg() and then addToEventLoop() for one connection. */
  method ServeOne(todo: seq<Connection>, ghost loops: seq<CoreData>, ghost frame: set<object>, i: nat, arg: Arg,
                  ghost trace: Trace)
    requires Reaches(frame, todo, loops) && i < |todo| && trace !in frame
    modifies frame, trace
    ensures trace.acts == old(trace.acts) + [Added(todo[i].slot)] + [Posted(todo[i].slot)]
    ensures Reaches(frame, todo, loops)
    ensures todo[i].slot.View() == AddArg(old(todo[i].slot.View()), arg)
    ensures forall j :: 0 <= j < |todo| && j != i ==> unchanged(todo[j].slot)
    ensures forall j :: 0 <= j < |todo| && loops[j] != loops[i] ==> unchanged(loops[j])
    ensures loops[i].events == old(loops[i].events) + multiset{todo[i].slot}
  {
    todo[i].slot.Add(arg, trace);
    todo[i].obj.AddToEventLoop(todo[i].slot, trace);
  }

  lemma Snapshot(todo: seq<Connection>, loops: seq<CoreData>)
    returns (views: seq<SlotState>, queues: seq<multiset<Slot>>)
    ensures |views| == |todo| && forall i :: 0 <= i < |todo| ==> views[i] == todo[i].slot.View()
    ensures |queues| == |loops| && forall i :: 0 <= i < |loops| ==> queues[i] == loops[i].events
    decreases |todo| + |loops|
  {
    if todo != [] {
      views, queues := Snapshot(todo[1..], loops);
      views := [todo[0].slot.View()] + views;
    } else if loops != [] {
      views, queues := Snapshot(todo, loops[1..]);
      queues := [loops[0].events] + queues;
    } else {
      views, queues := [], [];
    }
  }

  method Serve(todo: seq<Connection>, ghost loops: seq<CoreData>, ghost frame: set<object>, arg: Arg,
               ghost trace: Trace)
    requires Reaches(frame, todo, loops) && trace !in frame
    modifies frame, trace
    ensures Reaches(frame, todo, loops)
    ensures ActedOn(old(trace.acts), trace.acts, todo, false)
    ensures forall i :: 0 <= i < |todo| ==> todo[i].slot.View() == AddArg(old(todo[i].slot.View()), arg)
    ensures forall i :: 0 <= i < |todo| ==>
              loops[i].events == old(loops[i].events) + EventsOf(todo, loops, |todo|, loops[i])
  {
    ghost var views, queues := Snapshot(todo, loops);
    var i := 0;
    while i < |todo|
      invariant 0 <= i <= |todo| && Reaches(frame, todo, loops)
      invariant ActedOn(old(trace.acts), trace.acts, todo[..i], false)
      invariant forall j :: 0 <= j < |todo| ==> todo[j].slot.View() == if j < i then AddArg(views[j], arg) else views[j]
      invariant forall j :: 0 <= j < |todo| ==> loops[j].events == queues[j] + EventsOf(todo, loops, i, loops[j])
    {
      ghost var mid := trace.acts;
      ServeOne(todo, loops, frame, i, arg, trace);
      ActedOnOne(old(trace.acts), mid, trace.acts, todo, i, false);
      forall j | 0 <= j < |todo| { EventsGrow(todo, loops, i, loops[j]); }
      i := i + 1;
    }
    assert todo[..i] == todo;
  }

  /** The same, loop by loop instead of entry by entry. */
  method ServeAll(todo: seq<Connection>, ghost loops: seq<CoreData>, ghost frame: set<object>, arg: Arg,
                  ghost trace: Trace)
    requires Reaches(frame, todo, loops) && trace !in frame
    modifies frame, trace
    ensures Reaches(frame, todo, loops)
    ensures ActedOn(old(trace.acts), trace.acts, todo, false)
    ensures forall c :: c in SetOf(todo) ==> c.slot.View() == AddArg(old(c.slot.View()), arg)
    ensures forall c :: c in SetOf(todo) && c.obj.objectLoop != null ==>
              c.obj.objectLoop.events
                == old(c.obj.objectLoop.events) + multiset(On(SetOf(todo), c.obj.objectLoop))
  {
    Serve(todo, loops, frame, arg, trace);
    forall i | 0 <= i < |todo| {
      EventsAreOn(todo, loops, loops[i]);
    }
  }

  lemma OneGone(slots: map<int, Connection>, lambdas: seq<Connection>, fid: int)
    requires Apart(slots, lambdas)
    ensures Apart(slots - {fid}, lambdas)
    ensures Connections(slots - {fid}, lambdas)
         == Connections(slots, lambdas) - if fid in slots then {slots[fid]} else {}
    ensures fid in slots ==> forall c :: c in Connections(slots - {fid}, lambdas) ==> c.slot != slots[fid].slot
  {
    var rest := slots - {fid};
    assert forall k :: k in rest ==> rest[k] == slots[k];
    if fid in slots {
      assert Connections(rest, lambdas) + {slots[fid]} == Connections(slots, lambdas);
    } else {
      assert rest == slots;
    }
  }

  method DeleteAll(todo: seq<Connection>)
    modifies set c | c in todo :: c.slot
    ensures forall i :: 0 <= i < |todo| ==> todo[i].slot.deleted
  {
    for i := 0 to |todo|
      invariant forall j :: 0 <= j < i ==> todo[j].slot.deleted
    {
      todo[i].slot.deleted := true;
    }
  }

  method CallAll(tslots: seq<Connection>, arg: Arg, ghost trace: Trace)
    requires SlotsApart(tslots)
    modifies trace, set c | c in tslots :: c.slot
    ensures ActedOn(old(trace.acts), trace.acts, tslots, true)
    ensures forall i :: 0 <= i < |tslots| ==> tslots[i].slot.View() == Invke(AddArg(old(tslots[i].slot.View()), arg))
  {
    var i := 0;
    while i < |tslots|
      invariant 0 <= i <= |tslots| && ActedOn(old(trace.acts), trace.acts, tslots[..i], true)
      invariant forall j :: 0 <= j < i ==> tslots[j].slot.View() == Invke(AddArg(old(tslots[j].slot.View()), arg))
      invariant forall j :: i <= j < |tslots| ==> unchanged(tslots[j].slot)
    {
      ghost var mid := trace.acts;
      CallOne(tslots[i].slot, arg, trace);
      ActedOnOne(old(trace.acts), mid, trace.acts, tslots, i, true);
      i := i + 1;
    }
    assert tslots[..i] == tslots;
  }

  method CallOne(slot: Slot, arg: Arg, ghost trace: Trace)
    modifies slot, trace
    ensures trace.acts == old(trace.acts) + [Added(slot)] + [Called(slot)]
    ensures slot.View() == Invke(AddArg(old(slot.View()), arg))
  {
    slot.Add(arg, trace);
    slot.Call(trace);
  }

  class SignalObject {
    var slots: map<int, Connection>
    var lambdas: seq<Connection>

    ghost function All(): set<Connection>
      reads this
    {
      Connections(slots, lambdas)
    }

    /** Every connection has its own slot, and its object has a loop. */
    ghost predicate Valid()
      reads this, set c | c in All() :: c.obj
    {
      Apart(slots, lambdas) && forall c :: c in All() ==> c.obj.objectLoop != null
    }

    constructor ()
      ensures Valid() && slots == map[] && lambdas == []
    {
      slots, lambdas := map[], [];
    }

    /** Connecting a member function again replaces its connection. */
    method Connect(obj: LoopObject, fid: int) returns (slot: Slot)
      requires Valid() && obj.objectLoop != null
      modifies this
      ensures Valid() && fresh(slot) && slot.View() == NewSlot()
      ensures slots == old(slots)[fid := Connection(obj, slot)] && lambdas == old(lambdas)
    {
      slot := new Slot();
      slots := slots[fid := Connection(obj, slot)];
    }

    method ConnectLambda(obj: LoopObject) returns (slot: Slot)
      requires Valid() && obj.objectLoop != null
      modifies this
      ensures Valid() && fresh(slot) && slot.View() == NewSlot()
      ensures lambdas == old(lambdas) + [Connection(obj, slot)] && slots == old(slots)
    {
      slot := new Slot();
      lambdas := lambdas + [Connection(obj, slot)];
    }

    // ---------------------------------------------------------------- emit

    /** The slots and the loops of all connections. */
    ghost function Frame(): (frame: set<object>)
      requires Valid()
      reads this, set c | c in All() :: c.obj
      ensures forall c :: c in All() ==> c.slot in frame && c.obj.objectLoop in frame
      ensures forall o :: o in frame ==> o is Slot || o is CoreData
    {
      (set c | c in All() :: c.slot) + (set c | c in All() :: c.obj.objectLoop)
    }

    /** All connections in the order in which emit() and Clear() walk them. */
    method Walk() returns (walk: seq<Connection>, ghost order: seq<int>)
      requires Valid()
      ensures WalksAll(walk, order, slots, lambdas)
      ensures SlotsApart(walk) && SetOf(walk) == All()
      ensures forall i :: 0 <= i < |walk| ==> walk[i] in All()
    {
      walk, order := WalkMap(slots);
      WalkIsComplete(walk, order, slots, lambdas);
      walk := walk + lambdas;
      assert forall i :: 0 <= i < |walk| ==> walk[i] in SetOf(walk);
    }

    /**
     An asynchronous emit: every slot gets the argument, every loop one event per connection.  The
     member functions are served by ascending address, then the lambdas as they stand in the vector.
     */
    method Emit(arg: Arg, ghost trace: Trace) returns (ghost walk: seq<Connection>, ghost order: seq<int>)
      requires Valid()
      modifies Frame(), trace
      ensures WalksAll(walk, order, slots, lambdas)
      ensures ActedOn(old(trace.acts), trace.acts, walk, false)
      ensures Valid() && All() == old(All())
      ensures forall c :: c in All() ==> c.slot.View() == AddArg(old(c.slot.View()), arg)
      ensures forall c :: c in All() ==>
                c.obj.objectLoop.events == old(c.obj.objectLoop.events) + multiset(On(All(), c.obj.objectLoop))
    {
      var todo;
      todo, order := Walk();
      walk := todo;
      ghost var loops := LoopsOf(todo);
      ServeAll(todo, loops, Frame(), arg, trace);
    }

    /** A synchronous emit: copies the slots, then calls each in turn; no loop sees an event. */
    method EmitSync(arg: Arg, ghost trace: Trace) returns (ghost walk: seq<Connection>, ghost order: seq<int>)
      requires Valid()
      modifies trace, set c | c in All() :: c.slot
      ensures WalksAll(walk, order, slots, lambdas)
      ensures ActedOn(old(trace.acts), trace.acts, walk, true)
      ensures Valid() && All() == old(All())
      ensures forall c :: c in All() ==> c.slot.View() == Invke(AddArg(old(c.slot.View()), arg))
    {
      var tslots;
      tslots, order := Walk();
      walk := tslots;
      CallAll(tslots, arg, trace);
    }

    // ---------------------------------------------------------------- disconnect and Clear

    /**
     Deletes a connection and its slot, even if events of it are still queued; an unknown function
     changes nothing.
     */
    method Disconnect(fid: int)
      requires Valid()
      modifies this, if fid in slots then {slots[fid].slot} else {}
      ensures Valid() && slots == old(slots) - {fid} && lambdas == old(lambdas)
      ensures All() == old(All()) - if fid in old(slots) then {old(slots)[fid]} else {}
      ensures fid in old(slots) ==> old(slots)[fid].slot.deleted
      ensures forall c :: c in All() ==> unchanged(c.slot)
    {
      ghost var before := slots;
      if fid in slots {
        slots[fid].slot.deleted := true;
      }
      slots := slots - {fid};
      OneGone(before, lambdas, fid);
    }

    method Clear()
      requires Valid()
      modifies this, set c | c in All() :: c.slot
      ensures Valid() && All() == {}
      ensures forall c :: c in old(All()) ==> c.slot.deleted
    {
      var todo, order := Walk();
      assert forall c :: c in All() ==> c in todo;
      DeleteAll(todo);
      slots, lambdas := map[], [];
    }
  }
}
