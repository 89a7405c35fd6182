/**
 Section 4.9 of MQTT 5.0: the send window, and that no message waits while it has room.

 What each operation does to the window is stated with a set of ids that count as held besides those
 in the map. The exact results take none; the result for well-behaved clients takes the ids of the
 deliveries that are about to be pushed.
 */
module SendWindow {
  import opened Inflight
  import opened Session
  import Aliases

  /** Packets that hold a unit of send quota. */
  predicate Holds(pk: Packet) { (pk.kind == Publish && pk.expiry >= 0) || pk.kind == Pubrel }

  predicate Holding(w: Window, id: PacketId) { id in w.entries && Holds(w.entries[id].pk) }

  function Outstanding(m: map<PacketId, Entry>): set<PacketId> {
    set id | id in m && Holds(m[id].pk)
  }

  /** Units held and left, with extra ids counted as held. */
  function Units(w: Window, extra: set<PacketId>): int { |Outstanding(w.entries) + extra| + w.sendQuota }

  /** The deferred counter is exact, and only publishes wait. */
  ghost predicate Counted(w: Window) {
    && w.deferredCount == |Deferred(w.entries)|
    && forall id :: id in w.entries ==>
         w.entries[id].pk.id == id && (w.entries[id].pk.expiry < 0 ==> w.entries[id].pk.kind == Publish)
  }

  /** What holds on every connection with a Receive Maximum. */
  ghost predicate Base(w: Window) { Counted(w) && w.maxSend > 0 && 0 <= w.sendQuota <= w.maxSend }

  ghost predicate Bounded(w: Window) { Base(w) && |Outstanding(w.entries)| + w.sendQuota <= w.maxSend }

  ghost predicate NoneWaitsNeedlessly(w: Window) { Deferred(w.entries) != {} ==> w.sendQuota == 0 }

  function One(b: bool): int { if b then 1 else 0 }

  lemma UnitsAre(w: Window)
    ensures Units(w, {}) == |Outstanding(w.entries)| + w.sendQuota
  {
    assert Outstanding(w.entries) + {} == Outstanding(w.entries);
  }

  lemma PutOutstanding(m: map<PacketId, Entry>, id: PacketId, e: Entry)
    ensures Outstanding(m[id := e]) == if Holds(e.pk) then Outstanding(m) + {id} else Outstanding(m) - {id}
  {
  }

  lemma PutCount(w: Window, m: Packet)
    requires w.deferredCount == |Deferred(w.entries)|
    ensures Put(w, m).deferredCount == |Deferred(Put(w, m).entries)|
    ensures Deferred(Put(w, m).entries) == if m.expiry < 0 then Deferred(w.entries) + {m.id} else Deferred(w.entries) - {m.id}
  {
    PutDeferred(w.entries, m.id, Put(w, m).entries[m.id]);
    assert m.id in Deferred(w.entries) <==> IsDeferred(w.entries, m.id);
  }

  lemma PutCounted(w: Window, m: Packet)
    requires Counted(w) && (m.expiry < 0 ==> m.kind == Publish)
    ensures Counted(Put(w, m))
    ensures Deferred(Put(w, m).entries) == if m.expiry < 0 then Deferred(w.entries) + {m.id} else Deferred(w.entries) - {m.id}
  {
    PutCount(w, m);
  }

  lemma CountWithout(a: set<PacketId>, extra: set<PacketId>, id: PacketId)
    ensures |(a - {id}) + extra| == |a + extra| - One(id in a && id !in extra)
  {
    if id in a && id !in extra {
      assert (a - {id}) + extra == (a + extra) - {id};
    } else {
      assert (a - {id}) + extra == a + extra;
    }
  }

  lemma CountWith(a: set<PacketId>, extra: set<PacketId>, id: PacketId)
    ensures |(a + {id}) + extra| == |a + extra| + One(id !in a && id !in extra)
  {
    if id in a || id in extra {
      assert (a + {id}) + extra == a + extra;
    } else {
      assert (a + {id}) + extra == (a + extra) + {id};
    }
  }

  lemma RemoveUnits(w: Window, id: PacketId, extra: set<PacketId>)
    ensures Units(Remove(w, id), extra) == Units(w, extra) - One(Holding(w, id) && id !in extra)
  {
    assert Outstanding(w.entries - {id}) == Outstanding(w.entries) - {id};
    CountWithout(Outstanding(w.entries), extra, id);
  }

  lemma RemoveFacts(w: Window, id: PacketId, extra: set<PacketId>)
    requires Base(w)
    ensures Base(Remove(w, id)) && Deferred(Remove(w, id).entries) == Deferred(w.entries) - {id}
    ensures Units(Remove(w, id), extra) == Units(w, extra) - One(Holding(w, id) && id !in extra)
  {
    assert Deferred(w.entries - {id}) == Deferred(w.entries) - {id};
    RemoveUnits(w, id, extra);
  }

  /** Removing an entry and returning a unit, whether or not the entry held one. */
  lemma ReturnFacts(w: Window, id: PacketId, extra: set<PacketId>)
    requires Base(w)
    ensures var u := IncSend(Remove(w, id));
      && Base(u) && Deferred(u.entries) == Deferred(w.entries) - {id}
      && Units(u, extra) == Units(w, extra) - One(Holding(w, id) && id !in extra) + One(w.sendQuota < w.maxSend)
      && u.sendQuota == w.sendQuota + One(w.sendQuota < w.maxSend)
  {
    RemoveFacts(w, id, extra);
  }

  lemma AckUnits(w: Window, m: Packet, extra: set<PacketId>)
    requires m.kind != Publish && (m.kind == Pubrel ==> Holding(w, m.id))
    ensures Units(Put(w, m), extra) <= Units(w, extra)
  {
    PutOutstanding(w.entries, m.id, Put(w, m).entries[m.id]);
    CountWithout(Outstanding(w.entries), extra, m.id);
    CountWith(Outstanding(w.entries), extra, m.id);
  }

  /** Storing an acknowledgement over whatever is there. */
  lemma AckFacts(w: Window, m: Packet, extra: set<PacketId>)
    requires Base(w) && m.kind != Publish && m.expiry >= 0
    requires m.kind == Pubrel ==> Holding(w, m.id)
    ensures Base(Put(w, m)) && Deferred(Put(w, m).entries) <= Deferred(w.entries)
    ensures Units(Put(w, m), extra) <= Units(w, extra)
  {
    PutCounted(w, m);
    AckUnits(w, m, extra);
  }

  lemma DeferUnits(w: Window, m: Packet, extra: set<PacketId>)
    requires m.kind == Publish && m.expiry < 0
    ensures Units(Put(w, m), extra) <= Units(w, extra)
  {
    PutOutstanding(w.entries, m.id, Put(w, m).entries[m.id]);
    CountWithout(Outstanding(w.entries), extra, m.id);
  }

  /** A message that has to wait holds nothing yet. */
  lemma DeferFacts(w: Window, m: Packet)
    requires Base(w) && m.kind == Publish && m.expiry < 0
    ensures Base(Put(w, m)) && Deferred(Put(w, m).entries) == Deferred(w.entries) + {m.id}
  {
    PutCounted(w, m);
  }

  lemma SendUnits(w: Window, m: Packet, extra: set<PacketId>)
    requires m.kind == Publish && m.expiry >= 0
    ensures var u := Put(w.(sendQuota := w.sendQuota - 1), m);
      Units(u, extra + {m.id}) <= Units(w, extra) && Units(u, extra) <= Units(w, extra)
  {
    var u := Put(w.(sendQuota := w.sendQuota - 1), m);
    PutOutstanding(w.entries, m.id, u.entries[m.id]);
    var out := Outstanding(w.entries);
    CountWith(out, extra, m.id);
    assert (out + {m.id}) + (extra + {m.id}) == (out + {m.id}) + extra;
  }

  /** A message that is sent takes its unit. */
  lemma SendFacts(w: Window, m: Packet)
    requires Base(w) && w.sendQuota > 0 && m.kind == Publish && m.expiry >= 0
    ensures var u := Put(w.(sendQuota := w.sendQuota - 1), m);
      Base(u) && Deferred(u.entries) == Deferred(w.entries) - {m.id} && u.sendQuota == w.sendQuota - 1
  {
    PutCounted(w.(sendQuota := w.sendQuota - 1), m);
  }

  lemma ClaimUnits(w: Window, restore: Packet -> int, extra: set<PacketId>)
    requires Counted(w) && CanClaim(w) && w.maxSend > 0
    ensures var u, id := Claim(w, restore), Oldest(w.entries);
      Units(u, extra) <= Units(w, extra) && (id !in extra ==> Units(u, extra) == Units(w, extra))
  {
    var id, u := Oldest(w.entries), Claim(w, restore);
    PutOutstanding(w.entries, id, u.entries[id]);
    assert id !in Outstanding(w.entries);
    CountWith(Outstanding(w.entries), extra, id);
  }

  lemma ClaimFacts(w: Window, restore: Packet -> int, extra: set<PacketId>)
    requires Base(w) && CanClaim(w)
    ensures var u, id := Claim(w, restore), Oldest(w.entries);
      && Base(u) && Deferred(u.entries) == Deferred(w.entries) - {id} && id in Deferred(w.entries)
      && u.sendQuota == w.sendQuota - 1 && Claimed(w, restore).id == id
      && Units(u, extra) <= Units(w, extra) && (id !in extra ==> Units(u, extra) == Units(w, extra))
  {
    var id := Oldest(w.entries);
    PutDeferred(w.entries, id, Claim(w, restore).entries[id]);
    ClaimUnits(w, restore, extra);
  }

  /** What a handler may do to the window. */
  ghost predicate HandlerKeeps(w: Window, u: Window, extra: set<PacketId>) {
    && Base(u) && Deferred(u.entries) <= Deferred(w.entries) && u.sendQuota <= w.sendQuota + 1 && Units(u, extra) <= Units(w, extra)
    && u.maxSend == w.maxSend
  }

  lemma StoredAckKeeps(w: Window, ack: Packet, extra: set<PacketId>)
    requires Base(w) && ack.expiry >= 0 && (ack.kind == Puback || ack.kind == Pubrec || ack.kind == Pubcomp)
    ensures HandlerKeeps(w, Put(w, ack), extra) && HandlerKeeps(w, Remove(Put(w, ack), ack.id), extra)
  {
    AckFacts(w, ack, extra);
    RemoveFacts(Put(w, ack), ack.id, extra);
  }

  /** The entry in the way is freed and an ack stored in its place. */
  lemma ReplacedKeeps(w: Window, ack: Packet, extra: set<PacketId>)
    requires Base(w) && ack.expiry >= 0 && (ack.kind == Puback || ack.kind == Pubrec)
    ensures HandlerKeeps(w, Remove(w, ack.id), extra) && HandlerKeeps(w, Put(Remove(w, ack.id), ack), extra)
    ensures HandlerKeeps(w, Remove(Put(Remove(w, ack.id), ack), ack.id), extra)
  {
    RemoveFacts(w, ack.id, extra);
    StoredAckKeeps(Remove(w, ack.id), ack, extra);
  }

  /** The send window does not depend on the receive quota. */
  lemma QuotaFrame(w: Window, u: Window, v: Window, extra: set<PacketId>)
    requires HandlerKeeps(w, u, extra) && v == u.(receiveQuota := v.receiveQuota)
    ensures HandlerKeeps(w, v, extra)
  {
  }

  lemma PublishKeeps(w: Window, step: Step, env: Env, extra: set<PacketId>)
    requires Base(w) && step.PublishIn?
    ensures HandlerKeeps(w, ReceivePublish(w, step, env).w, extra) && ReceivePublish(w, step, env).w.sendQuota == w.sendQuota
  {
    var ack := BuildAck(if Min(step.qos, step.maxQos) == 1 then Puback else Pubrec, step.id, 0, env);
    ReplacedKeeps(w, ack, extra);
    QuotaFrame(w, Put(Remove(w, ack.id), ack), Put(Remove(w, ack.id), ack).(receiveQuota := w.receiveQuota - 1), extra);
    PublishCases(w, step, env);
  }

  /** What a received PUBLISH can do to the window. */
  lemma PublishCases(w: Window, step: Step, env: Env)
    requires step.PublishIn?
    ensures var u := ReceivePublish(w, step, env).w;
      var ack := BuildAck(if Min(step.qos, step.maxQos) == 1 then Puback else Pubrec, step.id, 0, env);
      var stored := Put(Remove(w, step.id), ack);
      || u == w
      || u == Remove(w, step.id)
      || u == stored
      || u == Remove(stored, step.id)
      || u == stored.(receiveQuota := w.receiveQuota - 1)
  {
  }

  /** An acknowledgement gives back the unit its packet held, once. */
  lemma ReturnKeeps(w: Window, id: PacketId, extra: set<PacketId>)
    requires Base(w) && Holding(w, id) && id !in extra
    ensures HandlerKeeps(w, IncSend(Remove(w, id)), extra)
  {
    ReturnFacts(w, id, extra);
  }

  lemma PubrelStoredKeeps(w: Window, id: PacketId, env: Env, extra: set<PacketId>)
    requires Base(w) && Holding(w, id)
    ensures HandlerKeeps(w, Put(w, BuildAck(Pubrel, id, 1, env)), extra)
  {
    AckFacts(w, BuildAck(Pubrel, id, 1, env), extra);
  }

  /** What an acknowledgement can do to the window. */
  lemma AckCases(w: Window, step: Step, env: Env)
    requires step.PubackIn? || step.PubrecIn? || step.PubcompIn?
    ensures var r, id := Receive(w, step, env), step.id;
      && (r.w == w || (Holding(w, id) && (r.w == IncSend(Remove(w, id)) || r.w == Put(w, BuildAck(Pubrel, id, 1, env)))))
      && (r.err ==> r.w.sendQuota == w.sendQuota)
  {
  }

  lemma AckKeeps(w: Window, step: Step, env: Env, extra: set<PacketId>)
    requires Base(w) && (step.PubackIn? || step.PubrecIn? || step.PubcompIn?) && step.id !in extra
    ensures HandlerKeeps(w, Receive(w, step, env).w, extra)
    ensures Receive(w, step, env).err ==> Receive(w, step, env).w.sendQuota == w.sendQuota
  {
    AckCases(w, step, env);
    if Holding(w, step.id) {
      ReturnKeeps(w, step.id, extra);
      PubrelStoredKeeps(w, step.id, env, extra);
    }
  }

  /** What a PUBREL can do to the window. */
  lemma PubrelCases(w: Window, step: Step, env: Env)
    requires step.PubrelIn?
    ensures var u, done := Receive(w, step, env).w, Put(w, BuildAck(Pubcomp, step.id, 0, env));
      || u == w
      || u == IncReceive(Remove(w, step.id))
      || u == done
      || u == IncReceive(Remove(done, step.id))
    ensures Receive(w, step, env).w.sendQuota == w.sendQuota
  {
  }

  lemma RemoveKeeps(w: Window, id: PacketId, extra: set<PacketId>)
    requires Base(w)
    ensures HandlerKeeps(w, Remove(w, id), extra)
  {
    RemoveFacts(w, id, extra);
  }

  lemma PubrelKeeps(w: Window, step: Step, env: Env, extra: set<PacketId>)
    requires Base(w) && step.PubrelIn?
    ensures HandlerKeeps(w, Receive(w, step, env).w, extra) && Receive(w, step, env).w.sendQuota == w.sendQuota
  {
    PubrelCases(w, step, env);
    var done := Put(w, BuildAck(Pubcomp, step.id, 0, env));
    RemoveKeeps(w, step.id, extra);
    StoredAckKeeps(w, BuildAck(Pubcomp, step.id, 0, env), extra);
    QuotaFrame(w, Remove(w, step.id), IncReceive(Remove(w, step.id)), extra);
    QuotaFrame(w, Remove(done, step.id), IncReceive(Remove(done, step.id)), extra);
  }

  /** The client acknowledges an outbound message. */
  predicate Acknowledges(step: Step) { step.PubackIn? || step.PubrecIn? || step.PubcompIn? }

  lemma ReceiveKeeps(w: Window, step: Step, env: Env, extra: set<PacketId>)
    requires Base(w) && IsReceived(step) && (Acknowledges(step) ==> step.id !in extra)
    ensures HandlerKeeps(w, Receive(w, step, env).w, extra)
    ensures Receive(w, step, env).err ==> Receive(w, step, env).w.sendQuota == w.sendQuota
  {
    match step
    case PublishIn(_, _, _, _, _) => PublishKeeps(w, step, env, extra);
    case PubrelIn(_, _, _) => PubrelKeeps(w, step, env, extra);
    case OtherIn(_) =>
    case _ => AckKeeps(w, step, env, extra);
  }

  /** The claim at the end of a handler uses up a unit that came back. */
  lemma TailFacts(s: State, env: Env, extra: set<PacketId>)
    requires Base(s.w)
    ensures var u := WriteNextDeferred(s, env).w;
      && Base(u) && Deferred(u.entries) <= Deferred(s.w.entries) && Units(u, extra) <= Units(s.w, extra)
      && u.maxSend == s.w.maxSend
    ensures (Deferred(s.w.entries) != {} ==> s.w.sendQuota <= 1) ==> NoneWaitsNeedlessly(WriteNextDeferred(s, env).w)
  {
    if CanClaim(s.w) { ClaimFacts(s.w, env.restore, extra); }
  }

  lemma HandlerFacts(s: State, step: Step, env: Env, extra: set<PacketId>)
    requires Base(s.w) && IsReceived(step) && (Acknowledges(step) ==> step.id !in extra)
    ensures var u := Next(s, step, env).w;
      && Base(u) && Deferred(u.entries) <= Deferred(s.w.entries) && Units(u, extra) <= Units(s.w, extra)
      && u.maxSend == s.w.maxSend
    ensures NoneWaitsNeedlessly(s.w) ==> NoneWaitsNeedlessly(Next(s, step, env).w)
  {
    ReceiveKeeps(s.w, step, env, extra);
    TailFacts(s.(w := Receive(s.w, step, env).w), env, extra);
  }

  lemma OutboundIs(w: Window, m: Packet)
    requires w.maxSend > 0
    ensures PutOutbound(w, m) == if MustDefer(w) then Put(w, m.(expiry := -1)) else Put(w.(sendQuota := w.sendQuota - 1), m)
  {
  }

  lemma OutboundUnits(w: Window, m: Packet, extra: set<PacketId>)
    requires m.kind == Publish && m.expiry >= 0 && w.maxSend > 0
    ensures Units(PutOutbound(w, m), extra) <= Units(w, extra)
    ensures !MustDefer(w) ==> Units(PutOutbound(w, m), extra + {m.id}) <= Units(w, extra)
  {
    OutboundIs(w, m);
    DeferUnits(w, m.(expiry := -1), extra);
    SendUnits(w, m, extra);
  }

  lemma OutboundFacts(w: Window, m: Packet)
    requires Base(w) && m.kind == Publish && m.expiry >= 0
    ensures var u := PutOutbound(w, m);
      && Base(u) && (NoneWaitsNeedlessly(w) ==> NoneWaitsNeedlessly(u))
      && Deferred(u.entries) == if MustDefer(w) then Deferred(w.entries) + {m.id} else Deferred(w.entries) - {m.id}
  {
    if MustDefer(w) { DeferFacts(w, m.(expiry := -1)); } else { SendFacts(w, m); }
  }

  lemma ReserveFacts(s: State, m: Packet, online: bool, env: Env, extra: set<PacketId>)
    requires Base(s.w) && Enabled(s, Reserve(m, online))
    ensures var u := ReserveFor(s, m, online, env).w;
      && Base(u) && Units(u, extra) <= Units(s.w, extra) && (NoneWaitsNeedlessly(s.w) ==> NoneWaitsNeedlessly(u))
      && u.maxSend == s.w.maxSend
      && (!MustDefer(s.w) ==> Units(u, extra + {m.id}) <= Units(s.w, extra))
      && Deferred(u.entries) <= Deferred(s.w.entries) + (if MustDefer(s.w) then {m.id} else {})
  {
    OutboundFacts(s.w, m);
    OutboundUnits(s.w, m, extra);
    TailFacts(s.(w := PutOutbound(s.w, m)), env, extra);
  }

  lemma DeferredSplit(m: map<PacketId, Entry>, gone: set<PacketId>)
    ensures Deferred(m - gone) == Deferred(m) - gone
    ensures |Deferred(m - gone)| == |Deferred(m)| - |gone * Deferred(m)|
  {
    var d := Deferred(m);
    assert Deferred(m - gone) == d - gone;
    assert d == (d - gone) + (gone * d);
    assert |d| == |d - gone| + |gone * d|;
  }

  lemma Subset(a: set<PacketId>, b: set<PacketId>)
    requires a <= b
    ensures |a| <= |b|
  {
    assert b == a + (b - a);
  }

  lemma SweepBase(w: Window, gone: set<PacketId>)
    requires Base(w)
    ensures Base(RemoveAll(w, gone)) && Deferred(RemoveAll(w, gone).entries) <= Deferred(w.entries)
  {
    var u := RemoveAll(w, gone);
    DeferredSplit(w.entries, gone);
    assert forall id :: IsDeferred(u.entries, id) ==> IsDeferred(w.entries, id);
  }

  lemma SweepFacts(w: Window, gone: set<PacketId>, extra: set<PacketId>)
    requires Base(w)
    ensures var u := RemoveAll(w, gone);
      && Base(u) && Deferred(u.entries) <= Deferred(w.entries) && Units(u, extra) <= Units(w, extra)
      && u.sendQuota == w.sendQuota
  {
    SweepBase(w, gone);
    Subset(Outstanding(w.entries - gone) + extra, Outstanding(w.entries) + extra);
  }

  /** One round of the drop loop: an entry goes, its unit comes back, and the oldest waiting message takes it. */
  lemma RoundFacts(w: Window, id: PacketId, env: Env, extra: set<PacketId>)
    requires Base(w) && CanClaim(IncSend(Remove(w, id))) && Deferred(w.entries) !! extra
    ensures var returned := IncSend(Remove(w, id));
      var v, next := Claim(returned, env.restore), Claimed(returned, env.restore);
      && Base(v) && Deferred(v.entries) <= Deferred(w.entries) && |Deferred(v.entries)| < |Deferred(w.entries)|
      && !IsDeferred(v.entries, next.id) && next.id in Deferred(w.entries) && v.maxSend == w.maxSend
      && v.sendQuota == w.sendQuota + One(w.sendQuota < w.maxSend) - 1
      && Units(v, extra) == Units(w, extra) - One(Holding(w, id) && id !in extra) + One(w.sendQuota < w.maxSend)
  {
    var returned := IncSend(Remove(w, id));
    ReturnFacts(w, id, extra);
    ClaimFacts(returned, env.restore, extra);
    RoundShrinks(w, id, returned, env);
    assert Claimed(returned, env.restore).id !in Deferred(Claim(returned, env.restore).entries);
  }

  /** The drop loop on a packet that is not waiting gives back what it takes. */
  lemma {:induction false} EncodeFacts(w: Window, sent: Aliases.Sent, pk: Packet, env: Env, extra: set<PacketId>)
    requires Base(w) && !IsDeferred(w.entries, pk.id)
    requires pk.id !in extra && Deferred(w.entries) !! extra
    ensures var u := EncodeFrom(w, sent, pk, env).w;
      Base(u) && Deferred(u.entries) <= Deferred(w.entries) && Units(u, extra) <= Units(w, extra)
    decreases |Deferred(w.entries)|
  {
    if Oversize(pk, env) && DropHits(w, sent, pk, env) {
      ReturnFacts(w, pk.id, extra);
      var returned := IncSend(Remove(w, pk.id));
      if w.sendQuota < w.maxSend && CanClaim(returned) {
        RoundFacts(w, pk.id, env, extra);
        EncodeFacts(Claim(returned, env.restore), sent, Claimed(returned, env.restore), env, extra);
      }
    }
  }

  lemma EncodeRound(w: Window, sent: Aliases.Sent, pk: Packet, env: Env)
    requires Oversize(pk, env) && DropHits(w, sent, pk, env)
    ensures var returned := IncSend(Remove(w, pk.id));
      EncodeFrom(w, sent, pk, env) ==
        if w.sendQuota < w.maxSend && CanClaim(returned)
        then EncodeFrom(Claim(returned, env.restore), sent, Claimed(returned, env.restore), env)
        else Encoded(returned, sent)
  {
  }

  /** What the loop keeps whatever it hits. */
  ghost predicate LoopKeeps(w: Window, u: Window) {
    && Base(u) && Deferred(u.entries) <= Deferred(w.entries) && (NoneWaitsNeedlessly(w) ==> NoneWaitsNeedlessly(u))
    && u.maxSend == w.maxSend
  }

  /** Whatever it hits, the loop leaves no message waiting with quota left. */
  lemma {:induction false} EncodeWaits(w: Window, sent: Aliases.Sent, pk: Packet, env: Env)
    requires Base(w)
    ensures LoopKeeps(w, EncodeFrom(w, sent, pk, env).w)
    decreases |Deferred(w.entries)|
  {
    if Oversize(pk, env) && DropHits(w, sent, pk, env) {
      var returned := IncSend(Remove(w, pk.id));
      EncodeRound(w, sent, pk, env);
      if w.sendQuota < w.maxSend && CanClaim(returned) {
        RoundFacts(w, pk.id, env, {});
        EncodeWaits(Claim(returned, env.restore), sent, Claimed(returned, env.restore), env);
      } else {
        ReturnFacts(w, pk.id, {});
      }
    } else {
      assert EncodeFrom(w, sent, pk, env).w == w;
    }
  }

  /** Every unit is held or left, and not all are left. */
  predicate Full(w: Window) { |Outstanding(w.entries)| + w.sendQuota == w.maxSend && w.sendQuota < w.maxSend }

  /** The writer drops a packet for its size and finds under its id a message that waits, while every unit is held. */
  predicate Misfires(w: Window, sent: Aliases.Sent, pk: Packet, env: Env) {
    Oversize(pk, env) && DropHits(w, sent, pk, env) && IsDeferred(w.entries, pk.id) && Full(w)
  }

  /** A unit too many stays in the books whatever the drop loop does next. */
  lemma {:induction false} OverfullStays(w: Window, sent: Aliases.Sent, pk: Packet, env: Env)
    requires Base(w) && w.sendQuota < w.maxSend && Units(w, {}) > w.maxSend && !IsDeferred(w.entries, pk.id)
    ensures var u := EncodeFrom(w, sent, pk, env).w; Units(u, {}) > u.maxSend
    decreases |Deferred(w.entries)|
  {
    if Oversize(pk, env) && DropHits(w, sent, pk, env) {
      var returned := IncSend(Remove(w, pk.id));
      EncodeRound(w, sent, pk, env);
      if CanClaim(returned) {
        RoundFacts(w, pk.id, env, {});
        OverfullStays(Claim(returned, env.restore), sent, Claimed(returned, env.restore), env);
      } else {
        ReturnFacts(w, pk.id, {});
      }
    }
  }

  /** A drop that hits a waiting message hands out a unit nobody held: too many, if every unit is held. */
  lemma HitWaitingFull(w: Window, sent: Aliases.Sent, pk: Packet, env: Env)
    requires Base(w) && Oversize(pk, env) && DropHits(w, sent, pk, env) && IsDeferred(w.entries, pk.id)
    requires Units(w, {}) == w.maxSend && w.sendQuota < w.maxSend
    ensures var u := EncodeFrom(w, sent, pk, env).w; Units(u, {}) > u.maxSend
  {
    ReturnFacts(w, pk.id, {});
    var returned := IncSend(Remove(w, pk.id));
    if CanClaim(returned) {
      RoundFacts(w, pk.id, env, {});
      OverfullStays(Claim(returned, env.restore), sent, Claimed(returned, env.restore), env);
    }
  }

  lemma HitWaitingRoom(w: Window, sent: Aliases.Sent, pk: Packet, env: Env)
    requires Base(w) && Oversize(pk, env) && DropHits(w, sent, pk, env) && IsDeferred(w.entries, pk.id)
    requires Units(w, {}) < w.maxSend || w.sendQuota == w.maxSend
    ensures var u := EncodeFrom(w, sent, pk, env).w; Units(u, {}) <= Units(w, {}) + One(w.sendQuota < w.maxSend)
  {
    ReturnFacts(w, pk.id, {});
    var returned := IncSend(Remove(w, pk.id));
    if w.sendQuota < w.maxSend && CanClaim(returned) {
      RoundFacts(w, pk.id, env, {});
      EncodeFacts(Claim(returned, env.restore), sent, Claimed(returned, env.restore), env, {});
    }
  }

  lemma EncodeExact(w: Window, sent: Aliases.Sent, pk: Packet, env: Env)
    requires Bounded(w)
    ensures Bounded(EncodeFrom(w, sent, pk, env).w) <==> !Misfires(w, sent, pk, env)
  {
    var u := EncodeFrom(w, sent, pk, env).w;
    EncodeWaits(w, sent, pk, env);
    UnitsAre(w);
    UnitsAre(u);
    if !IsDeferred(w.entries, pk.id) {
      EncodeFacts(w, sent, pk, env, {});
    } else if Oversize(pk, env) && DropHits(w, sent, pk, env) {
      if Full(w) { HitWaitingFull(w, sent, pk, env); } else { HitWaitingRoom(w, sent, pk, env); }
    } else {
      assert u == w;
    }
  }

  predicate RollsBack(s: State, step: Step) { step.Push? && step.j < |s.pushing| && step.online && !step.room }

  /** A step that hands out a unit nobody held: such a drop, or a rollback whose entry no longer holds one, with every unit held. */
  ghost predicate Overdraws(s: State, step: Step, env: Env) {
    || (step.Encode? && step.i < |s.queue| && Misfires(s.w, s.sent, s.queue[step.i], env))
    || (RollsBack(s, step) && !Holding(s.w, s.pushing[step.j].id) && Full(s.w))
  }

  /** A rollback while another message waits: its unit goes to nobody. */
  ghost predicate Strands(s: State, step: Step) {
    RollsBack(s, step) && exists id :: IsDeferred(s.w.entries, id) && id != s.pushing[step.j].id
  }

  lemma RollbackExact(w: Window, id: PacketId)
    requires Base(w)
    ensures var u := IncSend(Remove(w, id));
      && Base(u) && (Bounded(w) ==> (Bounded(u) <==> Holding(w, id) || !Full(w)))
      && (NoneWaitsNeedlessly(u) <==> Deferred(w.entries) - {id} == {})
  {
    var u := IncSend(Remove(w, id));
    ReturnFacts(w, id, {});
    UnitsAre(w);
    UnitsAre(u);
  }

  lemma OthersWait(w: Window, id: PacketId)
    ensures Deferred(w.entries) - {id} != {} <==> exists other :: IsDeferred(w.entries, other) && other != id
  {
    if other :| IsDeferred(w.entries, other) && other != id { assert other in Deferred(w.entries) - {id}; }
    if other :| other in Deferred(w.entries) - {id} { assert IsDeferred(w.entries, other) && other != id; }
  }

  /** How a step treats the window: the base is kept, and the bound and the waiting rule break exactly as said. */
  ghost predicate Exactly(s: State, step: Step, env: Env)
    requires Enabled(s, step)
  {
    var u := Next(s, step, env).w;
    && Base(u)
    && (Bounded(s.w) ==> (Bounded(u) <==> !Overdraws(s, step, env)))
    && (NoneWaitsNeedlessly(s.w) ==> (NoneWaitsNeedlessly(u) <==> !Strands(s, step)))
  }

  /** A step that neither rolls back nor drops, and does not add to the units. */
  lemma SteadyExact(s: State, step: Step, env: Env)
    requires Base(s.w) && Enabled(s, step) && !step.Encode? && !RollsBack(s, step)
    requires var u := Next(s, step, env).w;
      Base(u) && Units(u, {}) <= Units(s.w, {}) && u.maxSend == s.w.maxSend && (NoneWaitsNeedlessly(s.w) ==> NoneWaitsNeedlessly(u))
    ensures Exactly(s, step, env)
  {
    UnitsAre(s.w);
    UnitsAre(Next(s, step, env).w);
  }

  lemma PushExact(s: State, step: Step, env: Env)
    requires Base(s.w) && Enabled(s, step) && step.Push?
    ensures Exactly(s, step, env)
  {
    if RollsBack(s, step) {
      RollbackExact(s.w, s.pushing[step.j].id);
      OthersWait(s.w, s.pushing[step.j].id);
    } else {
      SteadyExact(s, step, env);
    }
  }

  lemma EncodeStepExact(s: State, step: Step, env: Env)
    requires Base(s.w) && Enabled(s, step) && step.Encode?
    ensures Exactly(s, step, env)
  {
    EncodeWaits(s.w, s.sent, s.queue[step.i], env);
    if Bounded(s.w) { EncodeExact(s.w, s.sent, s.queue[step.i], env); }
  }

  lemma ReserveExact(s: State, step: Step, env: Env)
    requires Base(s.w) && Enabled(s, step) && step.Reserve?
    ensures Exactly(s, step, env)
  {
    ReserveFacts(s, step.m, step.online, env, {});
    SteadyExact(s, step, env);
  }

  lemma SweepExact(s: State, step: Step, env: Env)
    requires Base(s.w) && Enabled(s, step) && step.Sweep?
    ensures Exactly(s, step, env)
  {
    SweepFacts(s.w, ExpiredIds(s.w, env.now, step.maximumExpiry), {});
    SteadyExact(s, step, env);
  }

  lemma HandlerExact(s: State, step: Step, env: Env)
    requires Base(s.w) && Enabled(s, step) && IsReceived(step)
    ensures Exactly(s, step, env)
  {
    HandlerFacts(s, step, env, {});
    SteadyExact(s, step, env);
  }

  lemma StepExact(s: State, step: Step, env: Env)
    requires Base(s.w) && Enabled(s, step)
    ensures Exactly(s, step, env)
  {
    match step
    case Push(_, _, _) => PushExact(s, step, env);
    case Encode(_) => EncodeStepExact(s, step, env);
    case Reserve(_, _) => ReserveExact(s, step, env);
    case Sweep(_) => SweepExact(s, step, env);
    case WriteQos0(_, _) => SteadyExact(s, step, env);
    case _ => HandlerExact(s, step, env);
  }

  lemma {:induction false} BaseHolds(states: seq<State>, events: seq<Event>, k: nat)
    requires IsRun(states, events) && k < |states| && Fresh(states[0]) && states[0].w.maxSend > 0
    ensures Base(states[k].w)
  {
    if k > 0 {
      BaseHolds(states, events, k - 1);
      StepExact(states[k - 1], events[k - 1].step, events[k - 1].env);
    }
  }

  lemma {:induction false} BoundedUntil(states: seq<State>, events: seq<Event>, k: nat)
    requires IsRun(states, events) && k < |states| && Fresh(states[0]) && states[0].w.maxSend > 0
    requires forall i :: 0 <= i < k ==> !Overdraws(states[i], events[i].step, events[i].env)
    ensures Bounded(states[k].w)
  {
    if k > 0 {
      BoundedUntil(states, events, k - 1);
      StepExact(states[k - 1], events[k - 1].step, events[k - 1].env);
    }
  }

  lemma {:induction false} NoneWaitsUntil(states: seq<State>, events: seq<Event>, k: nat)
    requires IsRun(states, events) && k < |states| && Fresh(states[0]) && states[0].w.maxSend > 0
    requires forall i :: 0 <= i < k ==> !Strands(states[i], events[i].step)
    ensures NoneWaitsNeedlessly(states[k].w)
  {
    if k > 0 {
      NoneWaitsUntil(states, events, k - 1);
      BaseHolds(states, events, k - 1);
      StepExact(states[k - 1], events[k - 1].step, events[k - 1].env);
    }
  }

  /**
   Over whole runs the packets that hold a unit and the quota left stay within Receive Maximum exactly as
   long as no oversize drop and no rollback hands out a unit nobody held.
   */
  lemma WindowExact(states: seq<State>, events: seq<Event>)
    requires IsRun(states, events) && Fresh(states[0]) && states[0].w.maxSend > 0
    ensures (forall k :: 0 <= k < |states| ==> |Outstanding(states[k].w.entries)| + states[k].w.sendQuota <= states[k].w.maxSend) <==>
            (forall i :: 0 <= i < |events| ==> !Overdraws(states[i], events[i].step, events[i].env))
  {
    if forall i :: 0 <= i < |events| ==> !Overdraws(states[i], events[i].step, events[i].env) {
      forall k | 0 <= k < |states| ensures Bounded(states[k].w) { BoundedUntil(states, events, k); }
    }
    if forall k :: 0 <= k < |states| ==> |Outstanding(states[k].w.entries)| + states[k].w.sendQuota <= states[k].w.maxSend {
      forall i | 0 <= i < |events| ensures !Overdraws(states[i], events[i].step, events[i].env) {
        BaseHolds(states, events, i);
        BaseHolds(states, events, i + 1);
        assert Bounded(states[i].w) && Bounded(states[i + 1].w);
        StepExact(states[i], events[i].step, events[i].env);
      }
    }
  }

  /** Over whole runs a message waits only while the quota is used up, exactly as long as no rollback happens while another waits. */
  lemma WaitExact(states: seq<State>, events: seq<Event>)
    requires IsRun(states, events) && Fresh(states[0]) && states[0].w.maxSend > 0
    ensures (forall k :: 0 <= k < |states| ==> NoneWaitsNeedlessly(states[k].w)) <==>
            (forall i :: 0 <= i < |events| ==> !Strands(states[i], events[i].step))
  {
    if forall i :: 0 <= i < |events| ==> !Strands(states[i], events[i].step) {
      forall k | 0 <= k < |states| ensures NoneWaitsNeedlessly(states[k].w) { NoneWaitsUntil(states, events, k); }
    }
    if forall k :: 0 <= k < |states| ==> NoneWaitsNeedlessly(states[k].w) {
      forall i | 0 <= i < |events| ensures !Strands(states[i], events[i].step) {
        BaseHolds(states, events, i);
        assert NoneWaitsNeedlessly(states[i + 1].w);
        StepExact(states[i], events[i].step, events[i].env);
      }
    }
  }
}
