/**
 Runs on which one QoS 2 message of the client is delivered twice although the client sent no PUBREL,
 for every packet id and at any time.
 */
module ReceiveRuns {
  import opened Inflight
  import opened Session
  import opened ReceiveWindow

  function At(now: nat): Env { Env(now, 0, (p: Packet) => 0, (p: Packet) => false, (p: Packet) => false, 0, 5) }

  function Published(id: PacketId, now: nat): Event { Event(PublishIn(id, 2, Accepted, 2, true), At(now)) }

  function Idle(nextOrder: nat, receive: int, send: int): Window { Window(map[], nextOrder, 0, receive, send, 2, 1) }

  /** The flow of one packet id is open. */
  function Open(id: PacketId, now: nat, order: nat, receive: int, send: int): Window {
    Window(map[id := Entry(BuildAck(Pubrec, id, 0, At(now)), order)], order, 0, receive, send, 2, 1)
  }

  /** Event e leads from s to t. */
  ghost predicate Leads(s: State, e: Event, t: State) { Enabled(s, e.step) && t == Next(s, e.step, e.env) }

  /** A PUBLISH over nothing, or over something that is no open flow. */
  lemma Publishes(w: Window, id: PacketId, nextOrder: nat, receive: int, send: int, now: nat)
    requires Remove(w, id) == Idle(nextOrder, receive, send) && !HasKind(w, id, Pubrec) && receive > 0
    ensures ReceivePublish(w, Published(id, now).step, At(now)) == Reply(Open(id, now, nextOrder + 1, receive - 1, send), false, true)
  {
    assert Put(Idle(nextOrder, receive, send), BuildAck(Pubrec, id, 0, At(now))) == Open(id, now, nextOrder + 1, receive, send);
  }

  lemma PublishLeads(s: State, id: PacketId, nextOrder: nat, receive: int, send: int, now: nat)
    requires Remove(s.w, id) == Idle(nextOrder, receive, send) && !HasKind(s.w, id, Pubrec) && receive > 0
    ensures Leads(s, Published(id, now), s.(w := Open(id, now, nextOrder + 1, receive - 1, send)))
    ensures Delivers(s, Published(id, now), id)
  {
    Publishes(s.w, id, nextOrder, receive, send, now);
  }

  function With(w: Window): State { State(w, [], [], map[]) }

  lemma PubrecExpires(id: PacketId, now: nat, receive: int)
    ensures Leads(With(Open(id, now, 1, receive, 1)), Event(Sweep(1), At(now + 2)), With(Idle(1, receive, 1)))
  {
    var w := Open(id, now, 1, receive, 1);
    assert ExpiredIds(w, now + 2, 1) == {id};
    assert w.entries - {id} == map[] && {id} * Deferred(w.entries) == {};
  }

  /** The PUBREC of the first delivery expires in a sweep, and the client repeats its PUBLISH. */
  lemma SweepDeliversTwice(id: PacketId, now: nat) returns (states: seq<State>, events: seq<Event>)
    ensures IsRun(states, events) && Fresh(states[0]) && |events| == 3
    ensures forall k :: 0 <= k < 3 ==> !events[k].step.PubrelIn?
    ensures Delivers(states[0], events[0], id) && Delivers(states[2], events[2], id)
  {
    states := [With(Idle(0, 2, 1)), With(Open(id, now, 1, 1, 1)), With(Idle(1, 1, 1)), With(Open(id, now + 2, 2, 0, 1))];
    events := [Published(id, now), Event(Sweep(1), At(now + 2)), Published(id, now + 2)];
    assert Remove(Idle(0, 2, 1), id) == Idle(0, 2, 1) && Remove(Idle(1, 1, 1), id) == Idle(1, 1, 1);
    PublishLeads(states[0], id, 0, 2, 1, now);
    PubrecExpires(id, now, 1);
    PublishLeads(states[2], id, 1, 1, 1, now + 2);
  }

  function Out(id: PacketId): Packet { Packet(Publish, id, 1, 0, 0, "out", 5) }

  function Reserved(id: PacketId): Window { Window(map[id := Entry(Out(id), 1)], 1, 0, 2, 0, 2, 1) }

  lemma OutReserved(id: PacketId, now: nat)
    ensures Leads(With(Idle(0, 2, 1)), Event(Reserve(Out(id), true), At(now)), With(Reserved(id)).(pushing := [Out(id)]))
  {
    assert PutOutbound(Idle(0, 2, 1), Out(id)) == Reserved(id);
    assert [] + [Out(id)] == [Out(id)];
  }

  lemma OutRolledBack(id: PacketId, now: nat)
    ensures Leads(With(Open(id, now, 2, 1, 0)).(pushing := [Out(id)]), Event(Push(0, true, false), At(now)), With(Idle(2, 1, 1)))
  {
    assert Remove(Open(id, now, 2, 1, 0), id) == Idle(2, 1, 0);
    assert Without([Out(id)], 0) == [];
  }

  /**
   And without any sweep: the client's packet id meets that of an outbound message between the two parts of
   its delivery, the writer's queue is full, and the rollback removes the client's PUBREC. With id 1 the
   outbound message has the id handed out first.
   */
  lemma RollbackDeliversTwice(id: PacketId, now: nat) returns (states: seq<State>, events: seq<Event>)
    ensures IsRun(states, events) && Fresh(states[0]) && |events| == 4 && (id == 1 ==> IdsInTurn(states, events, 0xFFFF, 0))
    ensures forall k :: 0 <= k < 4 ==> !events[k].step.PubrelIn? && !events[k].step.Sweep?
    ensures Delivers(states[1], events[1], id) && Delivers(states[3], events[3], id)
  {
    states := [With(Idle(0, 2, 1)), With(Reserved(id)).(pushing := [Out(id)]), With(Open(id, now, 2, 1, 0)).(pushing := [Out(id)]),
               With(Idle(2, 1, 1)), With(Open(id, now, 3, 0, 1))];
    events := [Event(Reserve(Out(id), true), At(now)), Published(id, now), Event(Push(0, true, false), At(now)), Published(id, now)];
    assert Remove(Reserved(id), id) == Idle(1, 2, 0) && Remove(Idle(2, 1, 1), id) == Idle(2, 1, 1);
    OutReserved(id, now);
    PublishLeads(states[1], id, 1, 2, 0, now);
    OutRolledBack(id, now);
    PublishLeads(states[3], id, 2, 1, 1, now);
  }

  lemma OutStored(id: PacketId, now: nat)
    ensures Leads(With(Open(id, now, 1, 1, 1)), Event(Reserve(Out(id), true), At(now)), With(Overwritten(id)).(pushing := [Out(id)]))
  {
    assert PutOutbound(Open(id, now, 1, 1, 1), Out(id)) == Overwritten(id);
    assert [] + [Out(id)] == [Out(id)];
  }

  function Overwritten(id: PacketId): Window { Window(map[id := Entry(Out(id), 1)], 1, 0, 1, 0, 2, 1) }

  /**
   And without sweep or rollback: an outbound message chose the id before the client used it, and is stored
   over the client's PUBREC. With id 1 it is the id handed out first, one event early. The unit of the
   receive quota is gone as well.
   */
  lemma StoringDeliversTwice(id: PacketId, now: nat) returns (states: seq<State>, events: seq<Event>)
    ensures IsRun(states, events) && Fresh(states[0]) && |events| == 3 && (id == 1 ==> IdsInTurn(states, events, 0xFFFF, 1))
    ensures forall k :: 0 <= k < 3 ==> !events[k].step.PubrelIn? && !events[k].step.Sweep? && !events[k].step.Push?
    ensures Delivers(states[0], events[0], id) && Delivers(states[2], events[2], id)
    ensures states[3].w.maxReceive == 2 && states[3].w.receiveQuota == 0 && OpenFlows(states[3].w.entries) == {id}
  {
    states := [With(Idle(0, 2, 1)), With(Open(id, now, 1, 1, 1)), With(Overwritten(id)).(pushing := [Out(id)]),
               With(Open(id, now, 2, 0, 0)).(pushing := [Out(id)])];
    events := [Published(id, now), Event(Reserve(Out(id), true), At(now)), Published(id, now)];
    assert Remove(Idle(0, 2, 1), id) == Idle(0, 2, 1) && Remove(Overwritten(id), id) == Idle(1, 1, 0);
    PublishLeads(states[0], id, 0, 2, 1, now);
    OutStored(id, now);
    PublishLeads(states[2], id, 1, 1, 0, now);
  }
}
