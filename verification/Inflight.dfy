/**
 The in-flight map of a session: QoS 1/2 packets of both directions keyed by packet id,
 their arrival sequence, the messages deferred for lack of send quota, and the two quotas.

 `Window` is the state of an `Inflight` object as a value, and the functions on it say
 what each method does. The arrival sequence is unbounded here; the code keeps it in 64 bits.
 */
module Inflight {
  import opened Wrappers

  type PacketId = i: int | 0 <= i < 0x1_0000

  datatype Kind = Publish | Puback | Pubrec | Pubrel | Pubcomp

  /** expiry < 0 marks a PUBLISH deferred until there is send quota. */
  datatype Packet = Packet(kind: Kind, id: PacketId, qos: nat, expiry: int, created: int, topic: string, version: nat)

  datatype Entry = Entry(pk: Packet, order: nat)

  datatype Window = Window(
    entries: map<PacketId, Entry>, nextOrder: nat, deferredCount: int,
    receiveQuota: int, sendQuota: int, maxReceive: int, maxSend: int)

  predicate IsDeferred(m: map<PacketId, Entry>, id: PacketId) { id in m && m[id].pk.expiry < 0 }

  function Deferred(m: map<PacketId, Entry>): set<PacketId> {
    set id | id in m && m[id].pk.expiry < 0
  }

  /** The counter agrees with the map, and arrival numbers identify entries. */
  ghost predicate Consistent(w: Window) {
    && w.deferredCount == |Deferred(w.entries)|
    && OrdersAgree(w.entries, w.nextOrder)
  }

  ghost predicate OrdersAgree(m: map<PacketId, Entry>, nextOrder: nat) {
    && (forall id :: id in m ==> m[id].pk.id == id && m[id].order <= nextOrder)
    && (forall a, b {:trigger m[a].order, m[b].order} :: a in m && b in m && a != b ==> m[a].order != m[b].order)
  }

  function EmptyWindow(maxReceive: int, maxSend: int): Window {
    Window(map[], 0, 0, maxReceive, maxSend, maxReceive, maxSend)
  }

  /** putLocked: a replaced entry keeps its place in the arrival sequence. */
  function Put(w: Window, m: Packet): Window {
    var before := if IsDeferred(w.entries, m.id) then 1 else 0;
    var after := if m.expiry < 0 then 1 else 0;
    var next := if m.id in w.entries then w.nextOrder else w.nextOrder + 1;
    var order := if m.id in w.entries then w.entries[m.id].order else next;
    w.(entries := w.entries[m.id := Entry(m, order)], nextOrder := next, deferredCount := w.deferredCount - before + after)
  }

  function Remove(w: Window, id: PacketId): Window {
    w.(entries := w.entries - {id}, deferredCount := w.deferredCount - (if IsDeferred(w.entries, id) then 1 else 0))
  }

  /** A message waits when the window is full, and also behind any that already wait. */
  predicate MustDefer(w: Window) { w.maxSend > 0 && (w.sendQuota <= 0 || w.deferredCount > 0) }

  function PutOutbound(w: Window, m: Packet): Window {
    if MustDefer(w) then Put(w, m.(expiry := -1))
    else Put(if w.maxSend > 0 then w.(sendQuota := w.sendQuota - 1) else w, m)
  }

  ghost predicate IsOldest(m: map<PacketId, Entry>, id: PacketId) {
    IsDeferred(m, id) && forall other :: IsDeferred(m, other) ==> m[id].order <= m[other].order
  }

  predicate CanClaim(w: Window) {
    w.deferredCount != 0 && !(w.maxSend > 0 && w.sendQuota <= 0) && Deferred(w.entries) != {}
  }

  lemma {:induction false} OldestExists(m: map<PacketId, Entry>, ids: set<PacketId>) returns (id: PacketId)
    requires ids != {} && ids <= Deferred(m)
    ensures id in ids && forall other :: other in ids ==> m[id].order <= m[other].order
    decreases ids
  {
    id :| id in ids;
    if ids != {id} {
      var other := OldestExists(m, ids - {id});
      if m[other].order <= m[id].order { id := other; }
    }
  }

  ghost function Oldest(m: map<PacketId, Entry>): (id: PacketId)
    requires Deferred(m) != {}
    ensures IsOldest(m, id)
  {
    assert exists id :: IsOldest(m, id) by {
      var id := OldestExists(m, Deferred(m));
      assert forall other :: IsDeferred(m, other) ==> other in Deferred(m);
      assert IsOldest(m, id);
    }
    var id :| IsOldest(m, id);
    id
  }

  /** The packet a claim hands out, with the expiry it had before it was deferred. */
  ghost function Claimed(w: Window, restore: Packet -> int): Packet
    requires CanClaim(w)
  {
    var pk := w.entries[Oldest(w.entries)].pk.(expiry := 0);
    if restore(pk) > 0 then pk.(expiry := restore(pk)) else pk
  }

  ghost function Claim(w: Window, restore: Packet -> int): Window
    requires CanClaim(w)
  {
    var id := Oldest(w.entries);
    w.(entries := w.entries[id := w.entries[id].(pk := Claimed(w, restore))],
       deferredCount := w.deferredCount - 1,
       sendQuota := if w.maxSend > 0 then w.sendQuota - 1 else w.sendQuota)
  }

  function IncSend(w: Window): Window {
    if w.sendQuota >= w.maxSend then w else w.(sendQuota := w.sendQuota + 1)
  }

  function IncReceive(w: Window): Window {
    if w.receiveQuota >= w.maxReceive then w else w.(receiveQuota := w.receiveQuota + 1)
  }

  lemma PutConsistent(w: Window, m: Packet)
    requires Consistent(w)
    ensures Consistent(Put(w, m))
  {
    var e := Put(w, m).entries[m.id];
    assert Put(w, m).entries == w.entries[m.id := e];
    PutDeferred(w.entries, m.id, e);
    assert m.id in Deferred(w.entries) <==> IsDeferred(w.entries, m.id);
    PutOrders(w, m);
  }

  lemma PutDeferred(m: map<PacketId, Entry>, id: PacketId, e: Entry)
    ensures Deferred(m[id := e]) == if e.pk.expiry < 0 then Deferred(m) + {id} else Deferred(m) - {id}
  {
  }

  lemma PutOrders(w: Window, m: Packet)
    requires OrdersAgree(w.entries, w.nextOrder)
    ensures OrdersAgree(Put(w, m).entries, Put(w, m).nextOrder)
  {
  }

  lemma RemoveConsistent(w: Window, id: PacketId)
    requires Consistent(w)
    ensures Consistent(Remove(w, id))
    ensures Deferred(Remove(w, id).entries) == Deferred(w.entries) - {id}
  {
    assert Deferred(w.entries - {id}) == Deferred(w.entries) - {id};
  }

  lemma ClaimConsistent(w: Window, restore: Packet -> int)
    requires Consistent(w) && CanClaim(w)
    ensures Consistent(Claim(w, restore))
    ensures Deferred(Claim(w, restore).entries) == Deferred(w.entries) - {Oldest(w.entries)}
  {
    var id := Oldest(w.entries);
    PutDeferred(w.entries, id, w.entries[id].(pk := Claimed(w, restore)));
  }

  lemma OldestIsUnique(w: Window, a: PacketId, b: PacketId)
    requires Consistent(w) && IsOldest(w.entries, a) && IsOldest(w.entries, b)
    ensures a == b
  {
  }

  class Inflight {
    var internal: map<PacketId, Entry>
    var nextOrder: nat
    var deferredCount: int
    var receiveQuota: int
    var sendQuota: int
    var maximumReceiveQuota: int
    var maximumSendQuota: int

    ghost function View(): Window
      reads this
    {
      Window(internal, nextOrder, deferredCount, receiveQuota, sendQuota, maximumReceiveQuota, maximumSendQuota)
    }

    constructor (maxReceive: int, maxSend: int)
      ensures View() == EmptyWindow(maxReceive, maxSend) && Consistent(View())
    {
      internal, nextOrder, deferredCount := map[], 0, 0;
      receiveQuota, sendQuota, maximumReceiveQuota, maximumSendQuota := maxReceive, maxSend, maxReceive, maxSend;
    }

    method PutLocked(m: Packet) returns (existed: bool)
      modifies this
      ensures View() == Put(old(View()), m)
      ensures existed == (m.id in old(internal))
    {
      existed := m.id in internal;
      if existed && internal[m.id].pk.expiry < 0 {
        deferredCount := deferredCount - 1;
      }
      if m.expiry < 0 {
        deferredCount := deferredCount + 1;
      }
      var order;
      if existed {
        order := internal[m.id].order;
      } else {
        nextOrder := nextOrder + 1;
        order := nextOrder;
      }
      internal := internal[m.id := Entry(m, order)];
    }

    method Set(m: Packet) returns (added: bool)
      requires Consistent(View())
      modifies this
      ensures View() == Put(old(View()), m) && Consistent(View())
      ensures added == (m.id !in old(internal))
    {
      PutConsistent(View(), m);
      var existed := PutLocked(m);
      added := !existed;
    }

    method Get(id: PacketId) returns (r: Option<Packet>)
      ensures r == if id in internal then Some(internal[id].pk) else None
    {
      r := if id in internal then Some(internal[id].pk) else None;
    }

    method SetOutbound(m: Packet) returns (added: bool, deferred: bool)
      requires Consistent(View()) && m.expiry >= 0
      modifies this
      ensures View() == PutOutbound(old(View()), m) && Consistent(View())
      ensures added == (m.id !in old(internal)) && deferred == MustDefer(old(View()))
    {
      var pk := m;
      deferred := false;
      if maximumSendQuota > 0 {
        if sendQuota <= 0 || deferredCount > 0 {
          pk := pk.(expiry := -1);
          deferred := true;
        } else {
          sendQuota := sendQuota - 1;
        }
      }
      PutConsistent(View(), pk);
      var existed := PutLocked(pk);
      added := !existed;
    }

    /** The search visits the map in any order and keeps the lowest arrival number seen. */
    method FindOldest() returns (found: Option<PacketId>)
      ensures if found.Some? then IsOldest(internal, found.value) else Deferred(internal) == {}
    {
      found := None;
      var left := internal.Keys;
      while left != {}
        invariant left <= internal.Keys
        invariant found.Some? ==> IsDeferred(internal, found.value)
        invariant forall id :: IsDeferred(internal, id) && id !in left ==> found.Some? && internal[found.value].order <= internal[id].order
        decreases left
      {
        var id :| id in left;
        left := left - {id};
        if internal[id].pk.expiry >= 0 {
          continue;
        }
        if found.None? || internal[id].order < internal[found.value].order {
          found := Some(id);
        }
      }
      assert forall id :: id in Deferred(internal) ==> IsDeferred(internal, id);
    }

    method ClaimNextImmediate(restore: Packet -> int) returns (next: Option<Packet>)
      requires Consistent(View())
      modifies this
      ensures Consistent(View())
      ensures if CanClaim(old(View()))
              then next == Some(Claimed(old(View()), restore)) && View() == Claim(old(View()), restore)
              else next == None && View() == old(View())
    {
      if deferredCount == 0 {
        return None;
      }
      if maximumSendQuota > 0 && sendQuota <= 0 {
        return None;
      }
      var found := FindOldest();
      if found.None? {
        return None;
      }
      OldestIsUnique(View(), found.value, Oldest(internal));
      ClaimConsistent(View(), restore);
      var pk := ClaimEntry(found.value, restore);
      next := Some(pk);
    }

    /** Takes a unit for the oldest waiting message and gives it its expiry back. */
    method ClaimEntry(id: PacketId, restore: Packet -> int) returns (pk: Packet)
      requires CanClaim(View()) && id == Oldest(internal) && internal[id].pk.id == id
      modifies this
      ensures pk == Claimed(old(View()), restore) && View() == Claim(old(View()), restore)
    {
      if maximumSendQuota > 0 {
        sendQuota := sendQuota - 1;
      }
      deferredCount := deferredCount - 1;
      pk := internal[id].pk.(expiry := 0);
      if restore(pk) > 0 {
        pk := pk.(expiry := restore(pk));
      }
      internal := internal[pk.id := internal[id].(pk := pk)];
    }

    method Delete(id: PacketId) returns (existed: bool)
      requires Consistent(View())
      modifies this
      ensures View() == Remove(old(View()), id) && Consistent(View())
      ensures existed == (id in old(internal))
    {
      RemoveConsistent(View(), id);
      existed := id in internal;
      if existed && internal[id].pk.expiry < 0 {
        deferredCount := deferredCount - 1;
      }
      internal := internal - {id};
    }

    method DecreaseReceiveQuota() returns (ok: bool)
      modifies this`receiveQuota
      ensures ok == (old(receiveQuota) > 0)
      ensures receiveQuota == if ok then old(receiveQuota) - 1 else old(receiveQuota)
    {
      if receiveQuota <= 0 {
        return false;
      }
      receiveQuota := receiveQuota - 1;
      return true;
    }

    method IncreaseReceiveQuota() returns (ok: bool)
      modifies this`receiveQuota
      ensures View() == IncReceive(old(View())) && ok == (old(receiveQuota) < maximumReceiveQuota)
    {
      if receiveQuota >= maximumReceiveQuota {
        return false;
      }
      receiveQuota := receiveQuota + 1;
      return true;
    }

    method IncreaseSendQuota() returns (ok: bool)
      modifies this`sendQuota
      ensures View() == IncSend(old(View())) && ok == (old(sendQuota) < maximumSendQuota)
    {
      if sendQuota >= maximumSendQuota {
        return false;
      }
      sendQuota := sendQuota + 1;
      return true;
    }
  }
}

/**
 Section 4.6 of MQTT 5.0: outbound messages are released in the order they arrived.
 */
module ReleaseOrder {
  import opened Inflight
  import opened Wrappers

  /** Operations of other goroutines appear as arbitrary changes of the send quota. */
  datatype Op =
    | Outbound(m: Packet)
    | ClaimNext(restore: Packet -> int)
    | SetAck(m: Packet)
    | Delete(id: PacketId)
    | SendQuota(n: int)

  /** Outbound messages get a fresh packet id and are not deferred beforehand; acks are never deferred. */
  predicate Allowed(w: Window, op: Op) {
    match op
    case Outbound(m) => m.id !in w.entries && m.expiry >= 0
    case SetAck(m) => m.expiry >= 0
    case _ => true
  }

  ghost function Apply(w: Window, op: Op): Window {
    match op
    case Outbound(m) => PutOutbound(w, m)
    case ClaimNext(restore) => if CanClaim(w) then Claim(w, restore) else w
    case SetAck(m) => Put(w, m)
    case Delete(id) => Remove(w, id)
    case SendQuota(n) => w.(sendQuota := n)
  }

  /** Arrival number of the message this operation releases to the client. */
  ghost function Released(w: Window, op: Op): Option<nat> {
    match op
    case Outbound(m) => if MustDefer(w) then None else Some(w.nextOrder + 1)
    case ClaimNext(_) => if CanClaim(w) then Some(w.entries[Oldest(w.entries)].order) else None
    case _ => None
  }

  ghost predicate AllowedRun(w: Window, ops: seq<Op>)
    decreases |ops|
  {
    ops != [] ==> Allowed(w, ops[0]) && AllowedRun(Apply(w, ops[0]), ops[1..])
  }

  ghost function Final(w: Window, ops: seq<Op>): Window
    decreases |ops|
  {
    if ops == [] then w else Final(Apply(w, ops[0]), ops[1..])
  }

  /** Arrival numbers in the order of release. */
  ghost function Releases(w: Window, ops: seq<Op>): seq<nat>
    decreases |ops|
  {
    if ops == [] then []
    else (match Released(w, ops[0]) case Some(n) => [n] case None => []) + Releases(Apply(w, ops[0]), ops[1..])
  }

  /** Everything still waiting arrived after the last release. Without a send limit nothing ever waits. */
  ghost predicate Ordered(w: Window, last: nat) {
    && Consistent(w) && last <= w.nextOrder
    && (w.maxSend <= 0 ==> Deferred(w.entries) == {})
    && forall id :: IsDeferred(w.entries, id) ==> last < w.entries[id].order
  }

  lemma OutboundOrdered(w: Window, m: Packet, last: nat)
    requires Ordered(w, last) && m.id !in w.entries && m.expiry >= 0
    ensures Ordered(PutOutbound(w, m), if MustDefer(w) then last else w.nextOrder + 1)
  {
    if MustDefer(w) {
      PutConsistent(w, m.(expiry := -1));
    } else {
      var u := if w.maxSend > 0 then w.(sendQuota := w.sendQuota - 1) else w;
      PutConsistent(u, m);
      assert Deferred(w.entries) == {};
      PutDeferred(w.entries, m.id, PutOutbound(w, m).entries[m.id]);
      assert forall id :: IsDeferred(PutOutbound(w, m).entries, id) ==> id in Deferred(PutOutbound(w, m).entries);
    }
  }

  lemma ClaimOrdered(w: Window, restore: Packet -> int, last: nat)
    requires Ordered(w, last) && CanClaim(w)
    ensures last < w.entries[Oldest(w.entries)].order
    ensures Ordered(Claim(w, restore), w.entries[Oldest(w.entries)].order)
  {
    ClaimConsistent(w, restore);
    var id, v := Oldest(w.entries), Claim(w, restore);
    forall other | IsDeferred(v.entries, other) ensures w.entries[id].order < v.entries[other].order {
      assert other in Deferred(v.entries);
      assert IsDeferred(w.entries, other) && other != id;
    }
  }

  lemma ApplyKeepsOrder(w: Window, op: Op, last: nat)
    requires Ordered(w, last) && Allowed(w, op)
    ensures Released(w, op).None? ==> Ordered(Apply(w, op), last)
    ensures Released(w, op).Some? ==> last < Released(w, op).value && Ordered(Apply(w, op), Released(w, op).value)
  {
    match op
    case Outbound(m) => OutboundOrdered(w, m, last);
    case ClaimNext(restore) => if CanClaim(w) { ClaimOrdered(w, restore, last); }
    case SetAck(m) => AckOrdered(w, m, last);
    case Delete(id) => RemoveOrdered(w, id, last);
    case SendQuota(n) =>
  }

  lemma AckOrdered(w: Window, m: Packet, last: nat)
    requires Ordered(w, last) && m.expiry >= 0
    ensures Ordered(Put(w, m), last)
  {
    PutConsistent(w, m);
    assert forall id :: id in Deferred(Put(w, m).entries) ==> id in Deferred(w.entries);
  }

  lemma RemoveOrdered(w: Window, id: PacketId, last: nat)
    requires Ordered(w, last)
    ensures Ordered(Remove(w, id), last)
  {
    RemoveConsistent(w, id);
  }

  ghost predicate Increasing(s: seq<nat>) { forall i, j :: 0 <= i < j < |s| ==> s[i] < s[j] }

  lemma {:induction false} ReleasesFrom(w: Window, ops: seq<Op>, last: nat)
    requires Ordered(w, last) && AllowedRun(w, ops)
    ensures Increasing(Releases(w, ops))
    ensures forall i :: 0 <= i < |Releases(w, ops)| ==> last < Releases(w, ops)[i]
    ensures Consistent(Final(w, ops))
    decreases |ops|
  {
    if ops != [] {
      ApplyKeepsOrder(w, ops[0], last);
      var r := Released(w, ops[0]);
      ReleasesFrom(Apply(w, ops[0]), ops[1..], if r.Some? then r.value else last);
    }
  }

  /**
   In every run from a new session, whatever the quotas, messages are released in strictly
   increasing arrival order, and the deferred counter is exact at the end (and so at every
   point, each being the end of a shorter run).
   */
  lemma ReleasedInArrivalOrder(maxReceive: int, maxSend: int, ops: seq<Op>)
    requires AllowedRun(EmptyWindow(maxReceive, maxSend), ops)
    ensures Increasing(Releases(EmptyWindow(maxReceive, maxSend), ops))
    ensures var w := Final(EmptyWindow(maxReceive, maxSend), ops); w.deferredCount == |Deferred(w.entries)|
  {
    ReleasesFrom(EmptyWindow(maxReceive, maxSend), ops, 0);
  }
}
