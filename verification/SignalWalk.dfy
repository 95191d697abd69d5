/** Which connections an emit serves, and in what order. */
module SignalWalks {
  import opened SignalSteps
  import opened SignalDelivery
  import opened SignalEmit
  import opened SignalReconnect

  // ---------------------------------------------------------------- the order of the walk

  /** Member functions first, by ascending address; then lambdas, by ascending place; each connection once. */
  lemma WalkInOrder(s: State, g: int, order: seq<Port>, i: nat, j: nat)
    requires WalkOf(s, g, order) && i < j < |order|
    ensures order[i].key.Lambda? ==> order[j].key.Lambda? && order[i].key.place < order[j].key.place
    ensures order[i].key.Fid? && order[j].key.Fid? ==> order[i].key.address < order[j].key.address
    ensures forall p :: p in order <==> p in s.connections && p.signal == g
  {
  }

  predicate Ordered(order: seq<Port>) {
    forall i, j :: 0 <= i < j < |order| ==> Before(order[i].key, order[j].key)
  }

  lemma {:induction false} SameOrder(a: seq<Port>, b: seq<Port>)
    requires Ordered(a) && Ordered(b) && forall p :: p in a <==> p in b
    ensures a == b
  {
    if a == [] {
      assert forall i :: 0 <= i < |b| ==> b[i] in b;
    } else {
      assert a[0] in b && b != [] && b[0] in a;
      assert a[0] == b[0];
      forall p ensures p in a[1..] <==> p in b[1..] {
        assert p in a <==> p == a[0] || p in a[1..];
        assert p in b <==> p == b[0] || p in b[1..];
        assert a[0] !in a[1..] && b[0] !in b[1..];
      }
      SameOrder(a[1..], b[1..]);
    }
  }

  lemma {:induction false} FirstOf(ports: set<Port>, g: int, p: Port) returns (first: Port)
    requires p in ports && forall q :: q in ports ==> q.signal == g
    ensures first in ports && forall q :: q in ports ==> q == first || Before(first.key, q.key)
    decreases |ports|
  {
    if q :| q in ports && Before(q.key, p.key) {
      first := FirstOf(ports - {p}, g, q);
      assert forall r :: r in ports ==> r == p || r in ports - {p};
    } else {
      first := p;
      assert forall q :: q in ports ==> q.key != p.key ==> Before(q.key, p.key) || Before(p.key, q.key);
    }
  }

  lemma {:induction false} InOrder(ports: set<Port>, g: int) returns (order: seq<Port>)
    requires forall q :: q in ports ==> q.signal == g
    ensures Ordered(order) && forall p :: p in order <==> p in ports
    decreases |ports|
  {
    if p :| p in ports {
      var first := FirstOf(ports, g, p);
      var rest := InOrder(ports - {first}, g);
      order := [first] + rest;
      assert forall q :: q in order <==> q == first || q in rest;
      assert forall i :: 0 <= i < |rest| ==> rest[i] in rest;
    } else {
      order := [];
    }
  }

  /** A signal's connections can be walked, and in one order only. */
  lemma {:induction false} OneWalk(s: State, g: int) returns (order: seq<Port>)
    ensures WalkOf(s, g, order) && forall other :: WalkOf(s, g, other) ==> other == order
  {
    order := InOrder(PortsOf(s, g), g);
    assert forall i :: 0 <= i < |order| ==> order[i] in order;
    forall other | WalkOf(s, g, other) ensures other == order {
      assert forall i :: 0 <= i < |other| ==> other[i] in other;
      SameOrder(other, order);
    }
  }

  // ---------------------------------------------------------------- what connect and disconnect change

  /** An emit that begins has exactly the connections of its signal to serve, in the order of the walk. */
  lemma EmitServesWalk(s: State, e: int, g: int, sync: bool, arg: Arg, order: seq<Port>)
    requires g !in s.locks && e !in s.emitters && WalkOf(s, g, order)
    ensures var u := Next(s, BeginEmit(e, g, sync, arg, order));
            && u.emitters.Keys == s.emitters.Keys + {e} && u.connections == s.connections
            && var m := u.emitters[e];
               && m.signal == g && m.sync == sync && m.arg == arg && |m.todo| == |order|
               && forall i :: 0 <= i < |order| ==> m.todo[i] == s.connections[order[i]]
  {
  }

  /** An emit under way can always go on to its end, where it gives the lock back. */
  lemma {:induction false} EmitCanEnd(s: State, e: int) returns (steps: seq<Step>)
    requires Inv(s) && Locked(s) && e in s.emitters
    ensures var u, m := RunFrom(s, steps), s.emitters[e];
            Inv(u) && Locked(u) && e !in u.emitters && (!m.sync ==> m.signal !in u.locks)
    decreases |s.emitters[e].todo|
  {
    if s.emitters[e].todo == [] {
      steps := [EndEmit(e)];
      RunOne(s, EndEmit(e), Ended(s, e));
    } else {
      var first, v := ServeOneEntry(s, e);
      RunLocked(s, first);
      var rest := EmitCanEnd(v, e);
      steps := first + rest;
      RunAppend(s, first, rest);
    }
    RunKeeps(s, steps);
    RunLocked(s, steps);
  }

  /** Connecting adds one connection, with a new and empty slot, and replaces one under the same key. */
  lemma ConnectAdds(s: State, p: Port, obj: int, slot: int)
    requires p.signal !in s.locks && obj in s.reg.bound && slot !in s.slots
    ensures var u := Next(s, Connect(p, obj, slot));
            && u.connections == s.connections[p := Entry(obj, slot)]
            && u.slots == s.slots[slot := SlotState([], [], [])]
  {
  }

  lemma DeletedConnections(s: State, ports: set<Port>)
    requires ports <= s.connections.Keys
    ensures Deleted(s, ports).connections == s.connections - ports
    ensures forall p :: p in ports ==> s.connections[p].slot !in Deleted(s, ports).slots
  {
  }

  /**
   disconnect() takes away one connection and its slot, and no other; no walk meets the slot
   afterwards.  Of an unknown function it changes nothing.
   */
  lemma {:induction false} DisconnectForgets(s: State, p: Port, order: seq<Port>)
    requires Inv(s) && p.signal !in s.locks && (p in s.connections ==> Unused(s, s.connections[p].slot))
    ensures var u := Next(s, Disconnect(p));
            && u.connections == s.connections - {p}
            && (p !in s.connections ==> u == s)
            && (p in s.connections ==> s.connections[p].slot !in u.slots)
            && (WalkOf(u, p.signal, order) ==>
                  p !in order
                  && forall i :: 0 <= i < |order| && p in s.connections ==>
                       order[i] in u.connections && u.connections[order[i]].slot != s.connections[p].slot)
  {
    if p in s.connections {
      DeletedConnections(s, {p});
    } else {
      assert s.connections - {p} == s.connections;
    }
  }

  /** After Clear() the signal has no connection, its slots are gone and its walk is empty. */
  lemma {:induction false} ClearForgets(s: State, g: int, order: seq<Port>)
    requires g !in s.locks
    requires forall p :: p in s.connections && p.signal == g ==> Unused(s, s.connections[p].slot)
    ensures var u := Next(s, Clear(g));
            && (forall p :: p in u.connections <==> p in s.connections && p.signal != g)
            && (forall p :: p in u.connections ==> u.connections[p] == s.connections[p])
            && (forall p :: p in s.connections && p.signal == g ==> s.connections[p].slot !in u.slots)
            && (WalkOf(u, g, order) ==> order == [])
  {
    DeletedConnections(s, PortsOf(s, g));
    var u := Next(s, Clear(g));
    assert order != [] && WalkOf(u, g, order) ==> order[0] in u.connections && order[0].signal == g;
  }
}
