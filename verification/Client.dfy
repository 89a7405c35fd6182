/**
 The client object that drives the session engine: packet ids, packet handlers, delivery,
 expiry and the writer's encode loop, each method with the engine step it performs.
 */
module ClientSession {
  import opened Inflight
  import opened Session
  import opened Wrappers
  import Aliases

  /**
   What a delivery finds: the subscription's No Local flag and QoS, the ACL's answer, the limits, and the
   state of the connection at each point where it is looked at.
   */
  datatype Target = Target(
    noLocal: bool, own: bool, allowed: bool, qos: nat, maxQos: nat, maximumInflight: nat,
    queuedOffline: bool, replicaOffline: bool, online: bool, onlineAtPush: bool, room: bool)

  datatype Outcome = Skipped | NotAuthorized | Disconnected | ReplicaSkipped | QuotaExceeded | Waits | Queued | Overflow

  /** The QoS a message is delivered with. */
  function Granted(qos: nat, t: Target): nat { Min(Min(qos, t.qos), t.maxQos) }

  /** The message gets past No Local and the ACL. */
  predicate Passes(t: Target) { !(t.noLocal && t.own) && t.allowed }

  /** It is a QoS 1/2 message that the session takes in, if there is room. */
  predicate Taken(qos: nat, t: Target) { Passes(t) && Granted(qos, t) > 0 && !t.queuedOffline && !t.replicaOffline }

  ghost predicate NoRoom(m: map<PacketId, Entry>, maximumPacketID: PacketId, t: Target) {
    |m| >= t.maximumInflight || forall k: PacketId :: 1 <= k <= maximumPacketID ==> k in m
  }

  /** Both parts of a delivery, one right after the other. */
  ghost function DeliverTo(s: State, m: Packet, t: Target, env: Env): State {
    var r := ReserveFor(s, m, t.online, env);
    if MustDefer(s.w) then r else PushTo(r, |s.pushing|, t.onlineAtPush, t.room)
  }

  datatype Held = Held(w: Window, err: bool, delivered: bool, reserved: bool)

  /** processPublish after the reservation, with whether the unit is still to be given back. */
  function ReceiveReserved(w: Window, step: Step, env: Env): Held
    requires step.PublishIn?
  {
    var PublishIn(id, qos, gate, maxQos, writeOk) := step;
    if gate.Denied? then Held(w, gate.disconnect || !writeOk, false, true)
    else if HasKind(w, id, Pubrec) then Held(w, !writeOk, false, true)
    else
      var free, q := Remove(w, id), Min(qos, maxQos);
      if gate.HookFailed? then Held(free, true, false, true)
      else if gate.Rejected? then Held(free, q > 0 && (gate.disconnect || !writeOk), false, true)
      else if q == 0 then Held(free, false, gate.Accepted?, true)
      else
        var stored := Put(free, BuildAck(if q == 1 then Puback else Pubrec, id, 0, env));
        if !writeOk then Held(stored, true, false, q == 1)
        else Held(if q == 1 then IncReceive(Remove(stored, id)) else stored, false, gate.Accepted?, false)
  }

  /** Reserving first and giving back at the end comes to the net effect of the handler. */
  lemma ReservedIs(w: Window, step: Step, env: Env)
    requires step.PublishIn? && step.qos > 0 && 0 < w.receiveQuota <= w.maxReceive
    ensures var h := ReceiveReserved(w.(receiveQuota := w.receiveQuota - 1), step, env);
      Reply(if h.reserved then IncReceive(h.w) else h.w, h.err, h.delivered) == ReceivePublish(w, step, env)
  {
    var v, id, q := w.(receiveQuota := w.receiveQuota - 1), step.id, Min(step.qos, step.maxQos);
    assert Remove(v, id) == Remove(w, id).(receiveQuota := v.receiveQuota);
    var ack := BuildAck(if q == 1 then Puback else Pubrec, id, 0, env);
    assert Put(Remove(v, id), ack) == Put(Remove(w, id), ack).(receiveQuota := v.receiveQuota);
  }

  lemma RemoveNone(w: Window)
    ensures RemoveAll(w, {}) == w
  {
    assert {} * Deferred(w.entries) == {};
  }

  lemma RemoveOneMore(w: Window, gone: set<PacketId>, id: PacketId)
    requires id in w.entries && id !in gone
    ensures Remove(RemoveAll(w, gone), id) == RemoveAll(w, gone + {id})
  {
    var d := Deferred(w.entries);
    assert (gone + {id}) * d == if id in d then gone * d + {id} else gone * d;
    assert w.entries - gone - {id} == w.entries - (gone + {id});
  }

  class Client {
    const inflight: Inflight
    const maximumPacketID: PacketId
    var packetID: nat
    var queue: seq<Packet>
    var aliases: Aliases.Sent
    ghost var pushing: seq<Packet>

    ghost predicate Valid()
      reads this, inflight
    {
      && packetID <= maximumPacketID && Consistent(inflight.View())
      && inflight.receiveQuota <= inflight.maximumReceiveQuota
    }

    ghost function View(): State
      reads this, inflight
    {
      State(inflight.View(), queue, pushing, aliases)
    }

    constructor (maxReceive: int, maxSend: int, maximumPacketID: PacketId)
      ensures Valid() && Fresh(View()) && View().w == EmptyWindow(maxReceive, maxSend)
    {
      inflight := new Inflight(maxReceive, maxSend);
      this.maximumPacketID := maximumPacketID;
      packetID, queue, aliases, pushing := 0, [], map[], [];
    }

    /**
     The next unused packet id after the last one handed out, wrapping at the maximum.
     None exactly when every id is in use.
     */
    method NextPacketID() returns (r: Option<PacketId>)
      requires Valid()
      modifies this`packetID
      ensures Valid()
      ensures r.None? <==> forall k: PacketId :: 1 <= k <= maximumPacketID ==> k in inflight.internal
      ensures r.None? ==> packetID == old(packetID)
      ensures r.Some? ==> 1 <= r.value <= maximumPacketID && r.value !in inflight.internal && packetID == r.value
      ensures r.Some? ==> SkippedInUse(inflight.internal, old(packetID), r.value, maximumPacketID)
    {
      var i := packetID;
      var started := i;
      var overflowed := false;
      while true
        invariant started == packetID == old(packetID) <= maximumPacketID
        invariant 0 <= i <= maximumPacketID && (if overflowed then i <= started else started <= i)
        invariant forall k: PacketId :: (if overflowed then 1 <= k <= i || started < k <= maximumPacketID else started < k <= i)
                    ==> k in inflight.internal
        decreases if overflowed then 0 else 1, if overflowed then started - i else maximumPacketID - i
      {
        if overflowed && i == started {
          return None;
        }
        if i >= maximumPacketID {
          overflowed := true;
          i := 0;
          continue;
        }
        i := i + 1;
        var got := inflight.Get(i);
        if got.None? {
          packetID := i;
          return Some(i);
        }
      }
    }

    method WriteNextDeferred(env: Env)
      requires Valid()
      modifies this`queue, inflight
      ensures Valid() && View() == Session.WriteNextDeferred(old(View()), env)
    {
      if inflight.deferredCount <= 0 {
        return;
      }
      var next := inflight.ClaimNextImmediate(env.restore);
      if next.Some? {
        queue := queue + [next.value];
      }
    }

    method ProcessPublish(step: Step, env: Env) returns (err: bool, delivered: bool)
      requires Valid() && step.PublishIn?
      modifies inflight
      ensures Valid()
      ensures Reply(inflight.View(), err, delivered) == ReceivePublish(old(inflight.View()), step, env)
    {
      if step.qos == 0 {
        return step.gate.HookFailed?, step.gate.Accepted?;
      }
      var reserved := inflight.DecreaseReceiveQuota();
      if !reserved {
        return true, false;
      }
      ghost var w := old(inflight.View());
      ghost var h := ReceiveReserved(w.(receiveQuota := w.receiveQuota - 1), step, env);
      assert inflight.View() == w.(receiveQuota := w.receiveQuota - 1);
      err, delivered, reserved := ProcessReserved(step, env);
      assert Held(inflight.View(), err, delivered, reserved) == h;
      if reserved {
        var _ := inflight.IncreaseReceiveQuota();
      }
      assert inflight.View() == if h.reserved then IncReceive(h.w) else h.w;
      ReservedIs(w, step, env);
    }

    /** The body of processPublish once a unit of receive quota is reserved. */
    method ProcessReserved(step: Step, env: Env) returns (err: bool, delivered: bool, reserved: bool)
      requires Valid() && step.PublishIn? && step.qos > 0
      modifies inflight
      ensures Valid() && inflight.maximumReceiveQuota == old(inflight.maximumReceiveQuota)
      ensures Held(inflight.View(), err, delivered, reserved) == ReceiveReserved(old(inflight.View()), step, env)
    {
      var PublishIn(id, qos, gate, maxQos, writeOk) := step;
      if gate.Denied? {
        return gate.disconnect || !writeOk, false, true;
      }
      var got := inflight.Get(id);
      if got.Some? {
        if got.value.kind == Pubrec {
          return !writeOk, false, true;
        }
        var _ := inflight.Delete(id);
      }
      assert inflight.View() == Remove(old(inflight.View()), id);
      var q := Min(qos, maxQos);
      if gate.HookFailed? {
        return true, false, true;
      }
      if gate.Rejected? {
        return q > 0 && (gate.disconnect || !writeOk), false, true;
      }
      if q == 0 {
        return false, gate.Accepted?, true;
      }
      var ack := BuildAck(if q == 1 then Puback else Pubrec, id, 0, env);
      var _ := inflight.Set(ack);
      if !writeOk {
        return true, false, q == 1;
      }
      if q == 1 {
        var _ := inflight.Delete(id);
        var _ := inflight.IncreaseReceiveQuota();
      }
      return false, gate.Accepted?, false;
    }

    method ProcessPuback(id: PacketId) returns (err: bool)
      requires Valid()
      modifies inflight
      ensures Valid() && Reply(inflight.View(), err, false) == ReceivePuback(old(inflight.View()), id)
    {
      err := false;
      var pki := inflight.Get(id);
      if pki.None? || pki.value.kind != Publish || pki.value.qos != 1 || pki.value.expiry < 0 {
        return;
      }
      var ok := inflight.Delete(id);
      if ok {
        var _ := inflight.IncreaseSendQuota();
      }
    }

    method ProcessPubrec(id: PacketId, refused: bool, writeOk: bool, env: Env) returns (err: bool)
      requires Valid()
      modifies inflight
      ensures Valid() && Reply(inflight.View(), err, false) == ReceivePubrec(old(inflight.View()), id, refused, writeOk, env)
    {
      var pki := inflight.Get(id);
      if pki.None? || pki.value.kind != Publish || pki.value.qos != 2 || pki.value.expiry < 0 {
        return !writeOk;
      }
      if refused {
        var ok := inflight.Delete(id);
        if ok {
          var _ := inflight.IncreaseSendQuota();
        }
        return false;
      }
      var _ := inflight.Set(BuildAck(Pubrel, id, 1, env));
      return !writeOk;
    }

    method ProcessPubrel(id: PacketId, refused: bool, writeOk: bool, env: Env) returns (err: bool)
      requires Valid()
      modifies inflight
      ensures Valid() && Reply(inflight.View(), err, false) == ReceivePubrel(old(inflight.View()), id, refused, writeOk, env)
    {
      var pki := inflight.Get(id);
      if pki.None? || pki.value.kind != Pubrec {
        return !writeOk;
      }
      if refused {
        var ok := inflight.Delete(id);
        if ok {
          var _ := inflight.IncreaseReceiveQuota();
        }
        return false;
      }
      var _ := inflight.Set(BuildAck(Pubcomp, id, 0, env));
      if !writeOk {
        return true;
      }
      var ok := inflight.Delete(id);
      if ok {
        var _ := inflight.IncreaseReceiveQuota();
      }
      return false;
    }

    method ProcessPubcomp(id: PacketId) returns (err: bool)
      requires Valid()
      modifies inflight
      ensures Valid() && Reply(inflight.View(), err, false) == ReceivePubcomp(old(inflight.View()), id)
    {
      var pki := inflight.Get(id);
      if pki.Some? && pki.value.kind == Pubrel {
        var ok := inflight.Delete(id);
        if ok {
          var _ := inflight.IncreaseSendQuota();
        }
      }
      return false;
    }

    /** A received packet: its handler, and unless that failed the oldest waiting message. */
    method ProcessPacket(step: Step, env: Env) returns (delivered: bool)
      requires Valid() && IsReceived(step)
      modifies this`queue, inflight
      ensures Valid() && View() == Next(old(View()), step, env)
      ensures delivered == Receive(old(inflight.View()), step, env).delivered
    {
      var err;
      delivered := false;
      match step {
        case PublishIn(_, _, _, _, _) => err, delivered := ProcessPublish(step, env);
        case PubackIn(id) => err := ProcessPuback(id);
        case PubrecIn(id, refused, writeOk) => err := ProcessPubrec(id, refused, writeOk, env);
        case PubrelIn(id, refused, writeOk) => err := ProcessPubrel(id, refused, writeOk, env);
        case PubcompIn(id) => err := ProcessPubcomp(id);
        case OtherIn(e) => err := e;
      }
      if !err {
        WriteNextDeferred(env);
      }
    }

    /** The first part of a delivery: the message is stored over whatever has its id, and waits or is about to be pushed. */
    method ReserveDelivery(m: Packet, online: bool, env: Env) returns (deferred: bool)
      requires Valid() && Enabled(View(), Reserve(m, online))
      modifies this`queue, this`pushing, inflight
      ensures Valid() && View() == ReserveFor(old(View()), m, online, env)
      ensures deferred == MustDefer(old(inflight.View()))
    {
      var _, d := inflight.SetOutbound(m);
      deferred := d;
      if deferred {
        if online {
          WriteNextDeferred(env);
        }
      } else {
        pushing := pushing + [m];
      }
    }

    /** The second part: the message goes to the writer, or is rolled back. */
    method PushDelivery(m: Packet, online: bool, room: bool, ghost j: nat) returns (o: Outcome)
      requires Valid() && j < |pushing| && pushing[j] == m
      modifies this`queue, this`pushing, inflight
      ensures Valid() && View() == PushTo(old(View()), j, online, room)
      ensures o == if !online then Disconnected else if room then Queued else Overflow
    {
      pushing := Without(pushing, j);
      if !online {
        return Disconnected;
      }
      if room {
        queue := queue + [m];
        return Queued;
      }
      var _ := inflight.Delete(m.id);
      var _ := inflight.IncreaseSendQuota();
      return Overflow;
    }

    /**
     A message for this client: left out, refused, or taken in with the next packet id in turn and
     delivered in two parts. A QoS 0 message does not touch the session.
     */
    method PublishToClient(msg: Packet, t: Target, env: Env) returns (o: Outcome, sent: Option<Packet>)
      requires Valid() && msg.kind == Publish && msg.expiry >= 0 && msg.qos <= 2
      modifies this, inflight
      ensures Valid()
      ensures o == Skipped <==> t.noLocal && t.own
      ensures o == NotAuthorized <==> !(t.noLocal && t.own) && !t.allowed
      ensures o == ReplicaSkipped <==> Passes(t) && Granted(msg.qos, t) > 0 && !t.queuedOffline && t.replicaOffline
      ensures o == QuotaExceeded <==> Taken(msg.qos, t) && NoRoom(old(inflight.internal), maximumPacketID, t)
      ensures sent.Some? <==> Taken(msg.qos, t) && !NoRoom(old(inflight.internal), maximumPacketID, t)
      ensures o == Waits <==> sent.Some? && MustDefer(old(inflight.View()))
      ensures o == Overflow ==> Passes(t) && t.onlineAtPush && !t.room
      ensures sent.None? ==> View() == old(View())
      ensures sent.Some? ==>
        && sent.value == msg.(qos := Granted(msg.qos, t), id := sent.value.id)
        && InTurn(old(inflight.View()), old(packetID), sent.value.id, maximumPacketID)
        && Enabled(old(View()), Reserve(sent.value, t.online)) && View() == DeliverTo(old(View()), sent.value, t, env)
    {
      if t.noLocal && t.own {
        return Skipped, None;
      }
      if !t.allowed {
        return NotAuthorized, None;
      }
      var q := Granted(msg.qos, t);
      if q == 0 {
        return if !t.onlineAtPush then Disconnected else if t.room then Queued else Overflow, None;
      }
      if t.queuedOffline {
        return Disconnected, None;
      }
      if t.replicaOffline {
        return ReplicaSkipped, None;
      }
      if |inflight.internal| >= t.maximumInflight {
        return QuotaExceeded, None;
      }
      var id := NextPacketID();
      if id.None? {
        return QuotaExceeded, None;
      }
      var m := msg.(qos := q, id := id.value);
      ghost var j := |pushing|;
      var deferred := ReserveDelivery(m, t.online, env);
      if deferred {
        return Waits, Some(m);
      }
      o := PushDelivery(m, t.onlineAtPush, t.room, j);
      return o, Some(m);
    }

    /** An oversize QoS 1/2 packet leaves the map if its entry is still there, and returns its quota. */
    method DropOversize(pk: Packet, wireTopic: string, env: Env) returns (returned: bool)
      requires Valid() && wireTopic == OnWire(aliases, pk, env).topic
      modifies inflight
      ensures Valid()
      ensures returned == (DropHits(old(inflight.View()), aliases, pk, env) && old(inflight.sendQuota < inflight.maximumSendQuota))
      ensures inflight.View() == if DropHits(old(inflight.View()), aliases, pk, env)
                                 then IncSend(Remove(old(inflight.View()), pk.id)) else old(inflight.View())
    {
      returned := false;
      var pki := inflight.Get(pk.id);
      if pk.qos > 0 && pki.Some? && pki.value.kind == Publish && pki.value.created == pk.created && pki.value.topic == wireTopic {
        var ok := inflight.Delete(pk.id);
        if ok {
          returned := inflight.IncreaseSendQuota();
        }
      }
    }

    /** One packet of the loop: written with its alias registered, left out, or dropped for its size. */
    method EncodeOne(pk: Packet, env: Env) returns (returned: bool)
      requires Valid()
      modifies this`aliases, inflight
      ensures Valid()
      ensures returned == (Oversize(pk, env) && DropHits(old(inflight.View()), old(aliases), pk, env)
                           && old(inflight.sendQuota < inflight.maximumSendQuota))
      ensures inflight.View() == if Oversize(pk, env) && DropHits(old(inflight.View()), old(aliases), pk, env)
                                 then IncSend(Remove(old(inflight.View()), pk.id)) else old(inflight.View())
      ensures aliases == if env.broken(pk) || env.tooBig(pk) then old(aliases)
                         else Aliases.Record(old(aliases), OnWire(old(aliases), pk, env))
    {
      var wire := OnWire(aliases, pk, env);
      if env.broken(pk) {
        return false;
      }
      if env.tooBig(pk) {
        returned := DropOversize(pk, wire.topic, env);
        return;
      }
      aliases := Aliases.Record(aliases, wire);
      return false;
    }

    /** The drop-and-claim loop of the writer; the deferred counter bounds it. */
    method EncodePacket(first: Packet, env: Env)
      requires Valid()
      modifies this`aliases, inflight
      ensures Valid() && Encoded(inflight.View(), aliases) == EncodeFrom(old(inflight.View()), old(aliases), first, env)
    {
      var pk := first;
      while true
        invariant Valid() && EncodeFrom(inflight.View(), aliases, pk, env) == EncodeFrom(old(inflight.View()), old(aliases), first, env)
        decreases inflight.deferredCount
      {
        var returned := EncodeOne(pk, env);
        if !returned {
          return;
        }
        var next := inflight.ClaimNextImmediate(env.restore);
        if next.None? {
          return;
        }
        pk := next.value;
      }
    }

    method Encode(i: nat, env: Env)
      requires Valid() && i < |queue|
      modifies this`queue, this`aliases, inflight
      ensures Valid() && View() == Next(old(View()), Session.Encode(i), env)
    {
      var pk := queue[i];
      queue := queue[..i] + queue[i + 1..];
      EncodePacket(pk, env);
    }

    /** Deletes the expired packets of a snapshot one by one. */
    method ClearExpiredInflights(maximumExpiry: int, env: Env) returns (deleted: set<PacketId>)
      requires Valid()
      modifies inflight
      ensures Valid() && View() == Next(old(View()), Sweep(maximumExpiry), env)
      ensures deleted == ExpiredIds(old(inflight.View()), env.now, maximumExpiry)
    {
      var all, left := inflight.internal, inflight.internal.Keys;
      ghost var w := inflight.View();
      deleted := {};
      RemoveNone(w);
      while left != {}
        invariant Consistent(inflight.View()) && left <= all.Keys
        invariant deleted == set id | id in all && id !in left && Expired(all[id].pk, env.now, maximumExpiry)
        invariant inflight.View() == RemoveAll(w, deleted)
        decreases left
      {
        var id :| id in left;
        left := left - {id};
        if Expired(all[id].pk, env.now, maximumExpiry) {
          RemoveOneMore(w, deleted, id);
          var ok := inflight.Delete(id);
          deleted := deleted + {id};
        }
      }
      assert deleted == ExpiredIds(w, env.now, maximumExpiry);
    }
  }
}

/**
 NextPacketID one loop iteration at a time, for start values the session never stores.
 */
module PacketIdSearch {
  datatype Search = Searching(i: int, overflowed: bool) | Found(id: int) | Exhausted

  function Iterate(used: set<int>, max: int, started: int, s: Search): Search {
    match s
    case Searching(i, overflowed) =>
      if overflowed && i == started then Exhausted
      else if i >= max then Searching(0, true)
      else if i + 1 !in used then Found(i + 1)
      else Searching(i + 1, overflowed)
    case _ => s
  }

  function After(n: nat, used: set<int>, max: int, started: int): Search {
    if n == 0 then Searching(started, false) else Iterate(used, max, started, After(n - 1, used, max, started))
  }

  ghost predicate Stops(used: set<int>, max: int, started: int) {
    exists n: nat :: !After(n, used, max, started).Searching?
  }

  ghost predicate AllUsed(used: set<int>, max: int) { forall k :: 1 <= k <= max ==> k in used }

  lemma {:induction false} Spins(n: nat, used: set<int>, max: int, started: int)
    requires 0 <= max < started && AllUsed(used, max)
    ensures After(n, used, max, started).Searching?
    ensures var s := After(n, used, max, started); if s.overflowed then 0 <= s.i <= max else s.i == started
  {
    if n > 0 { Spins(n - 1, used, max, started); }
  }

  /** Once the search has wrapped, every round moves one id on. */
  lemma {:induction false} WrappedSearch(n: nat, k: nat, used: set<int>, max: int, started: int)
    requires 0 <= started && 0 <= max && k <= max && After(n, used, max, started) == Searching(k, true)
    requires started <= max ==> k <= started
    requires started > max ==> exists free :: k < free <= max && free !in used
    ensures Stops(used, max, started)
    decreases max - k
  {
    var s := After(n + 1, used, max, started);
    assert s == Iterate(used, max, started, After(n, used, max, started));
    if s.Searching? {
      if started > max {
        var free :| k < free <= max && free !in used;
        assert k + 1 < free;
      }
      WrappedSearch(n + 1, k + 1, used, max, started);
    }
  }

  lemma {:induction false} FirstPass(n: nat, i: int, used: set<int>, max: int, started: int)
    requires 0 <= started && 0 <= max && started <= i && After(n, used, max, started) == Searching(i, false)
    requires started > max ==> exists free :: 1 <= free <= max && free !in used
    ensures Stops(used, max, started)
    decreases max - i
  {
    var s := After(n + 1, used, max, started);
    assert s == Iterate(used, max, started, After(n, used, max, started));
    if s.Searching? {
      if i >= max {
        WrappedSearch(n + 1, 0, used, max, started);
      } else {
        FirstPass(n + 1, i + 1, used, max, started);
      }
    }
  }

  /** What the search knows after n rounds, and what its answers mean. */
  lemma {:induction false} Answers(n: nat, used: set<int>, max: int, started: int)
    requires 0 <= max && 0 <= started
    ensures match After(n, used, max, started)
      case Found(id) => 1 <= id <= max && id !in used
      case Exhausted => AllUsed(used, max)
      case Searching(i, overflowed) =>
        if overflowed then 0 <= i <= max && (forall k :: 1 <= k <= i || started < k <= max ==> k in used)
        else started <= i && (i > max ==> i == started) && (forall k :: started < k <= i ==> k in used)
  {
    if n > 0 { Answers(n - 1, used, max, started); }
  }

  /**
   From any start value the search ends unless it starts beyond the maximum with every id in use. When it
   ends it has an unused id within the maximum, or every id is in use. Ids handed out never exceed the
   maximum, so no session reaches a start beyond it.
   */
  lemma StopsExactly(used: set<int>, max: int, started: int)
    requires 0 <= max && 0 <= started
    ensures Stops(used, max, started) <==> started <= max || !AllUsed(used, max)
    ensures forall n: nat :: After(n, used, max, started).Found? ==>
              1 <= After(n, used, max, started).id <= max && After(n, used, max, started).id !in used
    ensures forall n: nat :: After(n, used, max, started).Exhausted? ==> AllUsed(used, max)
  {
    forall n: nat
      ensures After(n, used, max, started).Found? ==>
                1 <= After(n, used, max, started).id <= max && After(n, used, max, started).id !in used
      ensures After(n, used, max, started).Exhausted? ==> AllUsed(used, max)
    {
      Answers(n, used, max, started);
    }
    if started <= max || !AllUsed(used, max) {
      FirstPass(0, started, used, max, started);
    } else {
      forall n: nat ensures After(n, used, max, started).Searching? { Spins(n, used, max, started); }
    }
  }
}
