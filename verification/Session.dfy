/**
 The QoS 1/2 engine of one connection as a state machine. Each packet handler, each part of a
 delivery to the client, each expiry sweep and each packet taken by the writer is one step.

 The state is the in-flight window, the QoS 1/2 publishes handed to the writer and not yet encoded,
 the deliveries between storing their message and pushing it to the writer, and the topic aliases
 the writer has sent. The writer may take its packets in any order, since deferred messages travel
 on the control queue and overtake live ones.
 */
module Session {
  import opened Inflight
  import Aliases

  datatype State = State(w: Window, queue: seq<Packet>, pushing: seq<Packet>, sent: Aliases.Sent)

  /**
   What a step reads from outside: the clock, the expiry settings, which packets are too big or cannot
   be encoded, and the client's Topic Alias Maximum and protocol version.
   */
  datatype Env = Env(now: nat, interval: nat, restore: Packet -> int, tooBig: Packet -> bool, broken: Packet -> bool,
                     aliasMax: nat, version: nat)

  /** How a received PUBLISH fares with the ACL (Denied) and the publish hooks. */
  datatype Gate = Denied(disconnect: bool) | Rejected(disconnect: bool) | HookFailed | Ignored | Accepted

  datatype Step =
    | Reserve(m: Packet, online: bool)
    | Push(j: nat, online: bool, room: bool)
    | PublishIn(id: PacketId, qos: nat, gate: Gate, maxQos: nat, writeOk: bool)
    | PubackIn(id: PacketId)
    | PubrecIn(id: PacketId, refused: bool, writeOk: bool)
    | PubrelIn(id: PacketId, refused: bool, writeOk: bool)
    | PubcompIn(id: PacketId)
    | OtherIn(err: bool)
    | Sweep(maximumExpiry: int)
    | Encode(i: nat)
    | WriteQos0(topic: string, written: bool)

  datatype Reply = Reply(w: Window, err: bool, delivered: bool)

  predicate HasKind(w: Window, id: PacketId, kind: Kind) { id in w.entries && w.entries[id].pk.kind == kind }

  function BuildAck(kind: Kind, id: PacketId, qos: nat, env: Env): Packet {
    Packet(kind, id, qos, env.now + env.interval, env.now, "", 0)
  }

  function Min(a: nat, b: nat): nat { if a < b then a else b }

  /** processPublish. The receive quota reserved on entry is kept only for a stored PUBREC. */
  function ReceivePublish(w: Window, step: Step, env: Env): Reply
    requires step.PublishIn?
  {
    var PublishIn(id, qos, gate, maxQos, writeOk) := step;
    if qos == 0 then Reply(w, gate.HookFailed?, gate.Accepted?)
    else if w.receiveQuota <= 0 then Reply(w, true, false)
    else if gate.Denied? then Reply(w, gate.disconnect || !writeOk, false)
    else if HasKind(w, id, Pubrec) then Reply(w, !writeOk, false)
    else
      var free, q := Remove(w, id), Min(qos, maxQos);
      if gate.HookFailed? then Reply(free, true, false)
      else if gate.Rejected? then Reply(free, q > 0 && (gate.disconnect || !writeOk), false)
      else if q == 0 then Reply(free, false, gate.Accepted?)
      else if q == 1 then
        var acked := Put(free, BuildAck(Puback, id, 0, env));
        Reply(if writeOk then Remove(acked, id) else acked, !writeOk, writeOk && gate.Accepted?)
      else
        var open := Put(free, BuildAck(Pubrec, id, 0, env));
        Reply(open.(receiveQuota := open.receiveQuota - 1), !writeOk, writeOk && gate.Accepted?)
  }

  predicate Awaits(w: Window, id: PacketId, qos: nat) {
    HasKind(w, id, Publish) && w.entries[id].pk.qos == qos && w.entries[id].pk.expiry >= 0
  }

  function ReceivePuback(w: Window, id: PacketId): Reply {
    Reply(if Awaits(w, id, 1) then IncSend(Remove(w, id)) else w, false, false)
  }

  function ReceivePubrec(w: Window, id: PacketId, refused: bool, writeOk: bool, env: Env): Reply {
    if !Awaits(w, id, 2) then Reply(w, !writeOk, false)
    else if refused then Reply(IncSend(Remove(w, id)), false, false)
    else Reply(Put(w, BuildAck(Pubrel, id, 1, env)), !writeOk, false)
  }

  function ReceivePubrel(w: Window, id: PacketId, refused: bool, writeOk: bool, env: Env): Reply {
    if !HasKind(w, id, Pubrec) then Reply(w, !writeOk, false)
    else if refused then Reply(IncReceive(Remove(w, id)), false, false)
    else
      var done := Put(w, BuildAck(Pubcomp, id, 0, env));
      Reply(if writeOk then IncReceive(Remove(done, id)) else done, !writeOk, false)
  }

  function ReceivePubcomp(w: Window, id: PacketId): Reply {
    Reply(if HasKind(w, id, Pubrel) then IncSend(Remove(w, id)) else w, false, false)
  }

  predicate IsReceived(step: Step) {
    step.PublishIn? || step.PubackIn? || step.PubrecIn? || step.PubrelIn? || step.PubcompIn? || step.OtherIn?
  }

  /** The handler of a received packet. */
  function Receive(w: Window, step: Step, env: Env): Reply
    requires IsReceived(step)
  {
    match step
    case PublishIn(_, _, _, _, _) => ReceivePublish(w, step, env)
    case PubackIn(id) => ReceivePuback(w, id)
    case PubrecIn(id, refused, writeOk) => ReceivePubrec(w, id, refused, writeOk, env)
    case PubrelIn(id, refused, writeOk) => ReceivePubrel(w, id, refused, writeOk, env)
    case PubcompIn(id) => ReceivePubcomp(w, id)
    case OtherIn(err) => Reply(w, err, false)
  }

  /** writeNextDeferred: the oldest waiting message goes to the writer if there is quota. */
  ghost function WriteNextDeferred(s: State, env: Env): State {
    if CanClaim(s.w) then s.(w := Claim(s.w, env.restore), queue := s.queue + [Claimed(s.w, env.restore)]) else s
  }

  /**
   The first part of publishToClientPtr for a QoS 1/2 message with its packet id: it is stored over
   whatever the map holds under that id, and waits or is about to be pushed.
   */
  ghost function ReserveFor(s: State, m: Packet, online: bool, env: Env): State {
    var t := s.(w := PutOutbound(s.w, m));
    if !MustDefer(s.w) then t.(pushing := s.pushing + [m])
    else if online then WriteNextDeferred(t, env)
    else t
  }

  function Without<T>(s: seq<T>, i: nat): seq<T>
    requires i < |s|
  {
    s[..i] + s[i + 1..]
  }

  /**
   The second part: a full queue rolls the message back. The entry may be gone by then, or be another
   one; the unit is returned all the same.
   */
  function PushTo(s: State, j: nat, online: bool, room: bool): State
    requires j < |s.pushing|
  {
    var m, t := s.pushing[j], s.(pushing := Without(s.pushing, j));
    if !online then t
    else if room then t.(queue := s.queue + [m])
    else t.(w := IncSend(Remove(s.w, m.id)))
  }

  predicate Expired(pk: Packet, now: int, maximumExpiry: int) {
    || (pk.version == 5 && 0 < pk.expiry < now)
    || (maximumExpiry > 0 && now - pk.created > maximumExpiry)
  }

  function RemoveAll(w: Window, gone: set<PacketId>): Window {
    w.(entries := w.entries - gone, deferredCount := w.deferredCount - |gone * Deferred(w.entries)|)
  }

  /** ClearExpiredInflights. */
  function SweepExpired(w: Window, now: int, maximumExpiry: int): Window {
    RemoveAll(w, ExpiredIds(w, now, maximumExpiry))
  }

  function ExpiredIds(w: Window, now: int, maximumExpiry: int): set<PacketId> {
    set id | id in w.entries && Expired(w.entries[id].pk, now, maximumExpiry)
  }

  predicate Oversize(pk: Packet, env: Env) { !env.broken(pk) && env.tooBig(pk) }

  function OnWire(sent: Aliases.Sent, pk: Packet, env: Env): Aliases.Wire {
    Aliases.Apply(sent, env.aliasMax, env.version, pk.topic)
  }

  /** dropOversize compares the topic on the wire. */
  predicate DropHits(w: Window, sent: Aliases.Sent, pk: Packet, env: Env) {
    && pk.qos > 0 && HasKind(w, pk.id, Publish)
    && w.entries[pk.id].pk.created == pk.created
    && w.entries[pk.id].pk.topic == OnWire(sent, pk, env).topic
  }

  datatype Encoded = Encoded(w: Window, sent: Aliases.Sent)

  /** The drop-and-claim loop of encode; each round leaves fewer messages waiting. A written packet registers its alias. */
  ghost function EncodeFrom(w: Window, sent: Aliases.Sent, pk: Packet, env: Env): Encoded
    decreases |Deferred(w.entries)|
  {
    if env.broken(pk) then Encoded(w, sent)
    else if !env.tooBig(pk) then Encoded(w, Aliases.Record(sent, OnWire(sent, pk, env)))
    else if !DropHits(w, sent, pk, env) then Encoded(w, sent)
    else
      var returned := IncSend(Remove(w, pk.id));
      if w.sendQuota >= w.maxSend || !CanClaim(returned) then Encoded(returned, sent)
      else
        var next := Claim(returned, env.restore);
        assert |Deferred(next.entries)| < |Deferred(w.entries)| by { RoundShrinks(w, pk.id, returned, env); }
        EncodeFrom(next, sent, Claimed(returned, env.restore), env)
  }

  lemma RoundShrinks(w: Window, id: PacketId, returned: Window, env: Env)
    requires returned == IncSend(Remove(w, id)) && CanClaim(returned)
    ensures Deferred(Claim(returned, env.restore).entries) < Deferred(w.entries)
    ensures |Deferred(Claim(returned, env.restore).entries)| < |Deferred(w.entries)|
  {
    var oldest, next := Oldest(returned.entries), Claim(returned, env.restore);
    PutDeferred(returned.entries, oldest, next.entries[oldest]);
    assert Deferred(next.entries) + {oldest} <= Deferred(w.entries);
    Smaller(Deferred(next.entries), oldest, Deferred(w.entries));
  }

  lemma Smaller(a: set<PacketId>, x: PacketId, b: set<PacketId>)
    requires x !in a && a + {x} <= b
    ensures |a| < |b|
  {
    assert b == a + (b - a) && x in b - a;
    assert |b| == |a| + |b - a|;
  }

  ghost function Next(s: State, step: Step, env: Env): State
    requires Enabled(s, step)
  {
    match step
    case Reserve(m, online) => ReserveFor(s, m, online, env)
    case Push(j, online, room) => PushTo(s, j, online, room)
    case Sweep(maximumExpiry) => s.(w := SweepExpired(s.w, env.now, maximumExpiry))
    case Encode(i) =>
      var e := EncodeFrom(s.w, s.sent, s.queue[i], env);
      s.(w := e.w, sent := e.sent, queue := Without(s.queue, i))
    case WriteQos0(topic, written) =>
      if written then s.(sent := Aliases.Record(s.sent, Aliases.Apply(s.sent, env.aliasMax, env.version, topic))) else s
    case _ =>
      var r := Receive(s.w, step, env);
      if r.err then s.(w := r.w) else WriteNextDeferred(s.(w := r.w), env)
  }

  /**
   A delivery may store its message under any id. Its id was not in use when NextPacketID chose it, but
   that is an earlier lock section, and the map may hold anything under it by now.
   */
  predicate Enabled(s: State, step: Step) {
    match step
    case Reserve(m, _) => m.kind == Publish && 1 <= m.qos <= 2 && m.expiry >= 0
    case Push(j, _, _) => j < |s.pushing|
    case Encode(i) => i < |s.queue|
    case _ => true
  }

  /** Ids strictly after start in cyclic order 1..max, up to but excluding id, are all in use. */
  ghost predicate SkippedInUse(m: map<PacketId, Entry>, start: int, id: int, max: int) {
    if start < id then forall k: PacketId :: start < k < id ==> k in m
    else (forall k: PacketId :: start < k <= max ==> k in m) && (forall k: PacketId :: 1 <= k < id ==> k in m)
  }

  datatype Event = Event(step: Step, env: Env)

  /** States of a run: one more than events. */
  ghost predicate IsRun(states: seq<State>, events: seq<Event>) {
    && |states| == |events| + 1
    && forall k :: 0 <= k < |events| ==>
         Enabled(states[k], events[k].step) && states[k + 1] == Next(states[k], events[k].step, events[k].env)
  }

  predicate Fresh(s: State) {
    s.queue == [] && s.pushing == [] && s.sent == map[] && s.w == EmptyWindow(s.w.maxReceive, s.w.maxSend)
  }

  /** The id handed out last before the k-th event; 0 before the first. */
  function LastId(events: seq<Event>, k: nat): int
    requires k <= |events|
  {
    if k == 0 then 0 else if events[k - 1].step.Reserve? then events[k - 1].step.m.id else LastId(events, k - 1)
  }

  /**
   Every delivery carries the id NextPacketID returns: the first unused one after the last, in cyclic
   order. It is chosen early events before it is stored, and deliveries store in the order they chose.
   */
  ghost predicate IdsInTurn(states: seq<State>, events: seq<Event>, max: int, early: nat) {
    && |states| == |events| + 1
    && forall k :: 0 <= k < |events| && events[k].step.Reserve? ==> early <= k && InTurn(states[k - early].w, LastId(events, k), events[k].step.m.id, max)
  }

  ghost predicate InTurn(w: Window, last: int, id: PacketId, max: int) {
    1 <= id <= max && id !in w.entries && SkippedInUse(w.entries, last, id, max)
  }
}
