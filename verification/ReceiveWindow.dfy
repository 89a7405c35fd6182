/**
 The receiving side of a session: the receive window, and section 4.3.3 of MQTT 5.0, by which
 a QoS 2 message is delivered once for the flow of its packet id.
 */
module ReceiveWindow {
  import opened Inflight
  import opened Session
  import Aliases

  /** Ids of inbound QoS 2 flows that wait for their PUBREL. */
  function OpenFlows(m: map<PacketId, Entry>): set<PacketId> {
    set id | id in m && m[id].pk.kind == Pubrec
  }

  ghost predicate OnlyPublishesWait(w: Window) {
    forall id :: IsDeferred(w.entries, id) ==> w.entries[id].pk.kind == Publish
  }

  /** Nothing changes on the receiving side. */
  ghost predicate SameFlows(w: Window, u: Window) {
    && OpenFlows(u.entries) == OpenFlows(w.entries)
    && u.receiveQuota == w.receiveQuota && u.maxReceive == w.maxReceive
    && OnlyPublishesWait(u)
  }

  /** A stored message ends the flow of its id, if there is one. */
  lemma OutboundFlows(w: Window, m: Packet)
    requires OnlyPublishesWait(w) && m.kind == Publish
    ensures var u := PutOutbound(w, m);
      && OpenFlows(u.entries) == OpenFlows(w.entries) - {m.id} && OnlyPublishesWait(u)
      && u.receiveQuota == w.receiveQuota && u.maxReceive == w.maxReceive
  {
  }

  lemma ClaimSame(w: Window, restore: Packet -> int)
    requires OnlyPublishesWait(w) && CanClaim(w)
    ensures SameFlows(w, Claim(w, restore))
  {
    var id := Oldest(w.entries);
    assert IsDeferred(w.entries, id);
    forall other | IsDeferred(Claim(w, restore).entries, other) ensures IsDeferred(w.entries, other) {}
  }

  lemma FreeSame(w: Window, id: PacketId)
    requires OnlyPublishesWait(w) && !HasKind(w, id, Pubrec)
    ensures SameFlows(w, Remove(w, id)) && SameFlows(w, IncSend(Remove(w, id)))
  {
    var u := Remove(w, id);
    assert forall other :: IsDeferred(u.entries, other) ==> IsDeferred(w.entries, other);
  }

  lemma TailSame(s: State, env: Env)
    requires OnlyPublishesWait(s.w)
    ensures SameFlows(s.w, WriteNextDeferred(s, env).w)
  {
    if CanClaim(s.w) { ClaimSame(s.w, env.restore); }
  }

  lemma {:induction false} EncodeSame(w: Window, sent: Aliases.Sent, pk: Packet, env: Env)
    requires OnlyPublishesWait(w)
    ensures SameFlows(w, EncodeFrom(w, sent, pk, env).w)
    decreases |Deferred(w.entries)|
  {
    if Oversize(pk, env) && DropHits(w, sent, pk, env) {
      FreeSame(w, pk.id);
      var returned := IncSend(Remove(w, pk.id));
      if w.sendQuota < w.maxSend && CanClaim(returned) {
        ClaimSame(returned, env.restore);
        RoundShrinks(w, pk.id, returned, env);
        EncodeSame(Claim(returned, env.restore), sent, Claimed(returned, env.restore), env);
      }
    }
  }

  lemma ReserveFlows(s: State, m: Packet, online: bool, env: Env)
    requires OnlyPublishesWait(s.w) && Enabled(s, Reserve(m, online))
    ensures var u := ReserveFor(s, m, online, env).w;
      && OpenFlows(u.entries) == OpenFlows(s.w.entries) - Torn(s, Reserve(m, online), env) && OnlyPublishesWait(u)
      && u.receiveQuota == s.w.receiveQuota && u.maxReceive == s.w.maxReceive
  {
    OutboundFlows(s.w, m);
    TailSame(s.(w := PutOutbound(s.w, m)), env);
  }

  /** A rollback removes whatever entry now has its id, an open flow included. */
  predicate RollsBackFlow(s: State, step: Step) {
    step.Push? && step.j < |s.pushing| && step.online && !step.room && HasKind(s.w, s.pushing[step.j].id, Pubrec)
  }

  /**
   Open flows a step ends without their PUBREL: expired ones, one whose id a rollback frees, and one over
   which an outbound message is stored.
   */
  function Torn(s: State, step: Step, env: Env): set<PacketId> {
    if step.Sweep? then set id | id in OpenFlows(s.w.entries) && Expired(s.w.entries[id].pk, env.now, step.maximumExpiry)
    else if RollsBackFlow(s, step) then {s.pushing[step.j].id}
    else if step.Reserve? && HasKind(s.w, step.m.id, Pubrec) then {step.m.id}
    else {}
  }

  lemma PushFlows(s: State, step: Step, env: Env)
    requires OnlyPublishesWait(s.w) && step.Push? && step.j < |s.pushing|
    ensures var u := PushTo(s, step.j, step.online, step.room).w;
      && OpenFlows(u.entries) == OpenFlows(s.w.entries) - Torn(s, step, env) && OnlyPublishesWait(u)
      && u.receiveQuota == s.w.receiveQuota && u.maxReceive == s.w.maxReceive
  {
    var id := s.pushing[step.j].id;
    if !HasKind(s.w, id, Pubrec) { FreeSame(s.w, id); }
    assert OpenFlows(s.w.entries - {id}) == OpenFlows(s.w.entries) - {id};
    assert forall other :: IsDeferred(s.w.entries - {id}, other) ==> IsDeferred(s.w.entries, other);
  }

  /** A received PUBLISH that begins a QoS 2 flow. */
  predicate Opens(w: Window, step: Step) {
    && step.PublishIn? && Min(step.qos, step.maxQos) >= 2 && w.receiveQuota > 0
    && (step.gate.Ignored? || step.gate.Accepted?) && !HasKind(w, step.id, Pubrec)
  }

  /** A received PUBREL that finds its flow. */
  predicate Closes(w: Window, step: Step) { step.PubrelIn? && HasKind(w, step.id, Pubrec) }

  lemma OpenFlow(w: Window, step: Step, env: Env)
    requires OnlyPublishesWait(w) && Opens(w, step)
    ensures var u := ReceivePublish(w, step, env).w;
      && OpenFlows(u.entries) == OpenFlows(w.entries) + {step.id} && step.id !in OpenFlows(w.entries)
      && u.receiveQuota == w.receiveQuota - 1 && u.maxReceive == w.maxReceive && OnlyPublishesWait(u)
  {
    FreeSame(w, step.id);
  }

  lemma CloseFlow(w: Window, step: Step, env: Env)
    requires OnlyPublishesWait(w) && Closes(w, step)
    ensures var u := Receive(w, step, env).w;
      && OpenFlows(u.entries) == OpenFlows(w.entries) - {step.id} && step.id in OpenFlows(w.entries)
      && u.receiveQuota == (if step.refused || step.writeOk then IncReceive(w).receiveQuota else w.receiveQuota)
      && u.maxReceive == w.maxReceive && OnlyPublishesWait(u)
  {
    var done := Put(w, BuildAck(Pubcomp, step.id, 0, env));
    assert OpenFlows(done.entries) == OpenFlows(w.entries) - {step.id};
    assert OpenFlows(w.entries - {step.id}) == OpenFlows(w.entries) - {step.id};
    assert OpenFlows(done.entries - {step.id}) == OpenFlows(w.entries) - {step.id};
    var u := Receive(w, step, env).w;
    assert forall id :: IsDeferred(u.entries, id) ==> IsDeferred(w.entries, id) && u.entries[id] == w.entries[id];
  }

  lemma PublishElseSame(w: Window, step: Step, env: Env)
    requires OnlyPublishesWait(w) && step.PublishIn? && !Opens(w, step)
    ensures SameFlows(w, ReceivePublish(w, step, env).w)
  {
    if !HasKind(w, step.id, Pubrec) {
      FreeSame(w, step.id);
      var acked := Put(Remove(w, step.id), BuildAck(Puback, step.id, 0, env));
      assert OpenFlows(acked.entries) == OpenFlows(w.entries);
      FreeSame(acked, step.id);
    }
  }

  lemma AckSame(w: Window, step: Step, env: Env)
    requires OnlyPublishesWait(w) && (step.PubackIn? || step.PubrecIn? || step.PubcompIn?)
    ensures SameFlows(w, Receive(w, step, env).w)
  {
    if !HasKind(w, step.id, Pubrec) {
      FreeSame(w, step.id);
      var rel := Put(w, BuildAck(Pubrel, step.id, 1, env));
      assert OpenFlows(rel.entries) == OpenFlows(w.entries);
    }
  }

  /** Exactly how each step changes the open flows and the receive quota. */
  ghost predicate Flows(s: State, step: Step, env: Env, u: Window) {
    var w := s.w;
    && OnlyPublishesWait(u) && u.maxReceive == w.maxReceive
    && OpenFlows(u.entries) == (
         if Opens(w, step) then OpenFlows(w.entries) + {step.id}
         else if Closes(w, step) then OpenFlows(w.entries) - {step.id}
         else OpenFlows(w.entries) - Torn(s, step, env))
    && u.receiveQuota == (
         if Opens(w, step) then w.receiveQuota - 1
         else if Closes(w, step) && (step.refused || step.writeOk) then IncReceive(w).receiveQuota
         else w.receiveQuota)
  }

  lemma SweepFlows(s: State, step: Step, env: Env)
    requires OnlyPublishesWait(s.w) && step.Sweep?
    ensures Flows(s, step, env, SweepExpired(s.w, env.now, step.maximumExpiry))
  {
    var u := SweepExpired(s.w, env.now, step.maximumExpiry);
    assert forall id :: IsDeferred(u.entries, id) ==> IsDeferred(s.w.entries, id);
  }

  lemma ReceiveFlows(s: State, step: Step, env: Env)
    requires OnlyPublishesWait(s.w) && IsReceived(step)
    ensures Flows(s, step, env, Next(s, step, env).w)
  {
    if Opens(s.w, step) {
      OpenFlow(s.w, step, env);
    } else if Closes(s.w, step) {
      CloseFlow(s.w, step, env);
    } else if step.PublishIn? {
      PublishElseSame(s.w, step, env);
    } else if !step.PubrelIn? && !step.OtherIn? {
      AckSame(s.w, step, env);
    }
    TailSame(s.(w := Receive(s.w, step, env).w), env);
  }

  lemma StepFlows(s: State, step: Step, env: Env)
    requires Enabled(s, step) && OnlyPublishesWait(s.w)
    ensures Flows(s, step, env, Next(s, step, env).w)
  {
    match step
    case Reserve(m, online) => ReserveFlows(s, m, online, env);
    case Push(_, _, _) => PushFlows(s, step, env);
    case Encode(i) => EncodeSame(s.w, s.sent, s.queue[i], env);
    case Sweep(_) => SweepFlows(s, step, env);
    case WriteQos0(_, _) =>
    case _ => ReceiveFlows(s, step, env);
  }

  ghost predicate InWindow(w: Window) {
    OnlyPublishesWait(w) && 0 <= w.receiveQuota && |OpenFlows(w.entries)| + w.receiveQuota <= w.maxReceive
  }

  ghost predicate Exact(w: Window) { |OpenFlows(w.entries)| + w.receiveQuota == w.maxReceive }

  /** A flow ends and its unit does not come back: it is torn, or its PUBCOMP cannot be written. */
  predicate Leaks(s: State, step: Step, env: Env) {
    Torn(s, step, env) != {} || (Closes(s.w, step) && !step.refused && !step.writeOk)
  }

  lemma Fewer(a: set<PacketId>, torn: set<PacketId>)
    requires torn <= a
    ensures |a - torn| == |a| - |torn|
  {
    assert a == (a - torn) + torn;
  }

  /** Flows and quota together: a step keeps the sum exactly when it leaks nothing, and never adds to it. */
  lemma StepInWindow(s: State, step: Step, env: Env)
    requires Enabled(s, step) && InWindow(s.w)
    ensures var w, u := s.w, Next(s, step, env).w;
      var before, after := |OpenFlows(w.entries)| + w.receiveQuota, |OpenFlows(u.entries)| + u.receiveQuota;
      InWindow(u) && u.maxReceive == w.maxReceive && after <= before && (after == before <==> !Leaks(s, step, env))
  {
    StepFlows(s, step, env);
    TornOpen(s, step, env);
    Fewer(OpenFlows(s.w.entries), Torn(s, step, env));
    assert Torn(s, step, env) != {} ==> |Torn(s, step, env)| > 0;
  }

  lemma TornOpen(s: State, step: Step, env: Env)
    ensures Torn(s, step, env) <= OpenFlows(s.w.entries)
  {
  }

  /**
   In every state of every run the open QoS 2 flows and the receive quota together stay within Receive
   Maximum, and they make it up exactly as long as no step has leaked a unit.
   */
  lemma {:induction false} ReceiveWindowHolds(states: seq<State>, events: seq<Event>, k: nat)
    requires IsRun(states, events) && k < |states| && Fresh(states[0]) && states[0].w.maxReceive >= 0
    ensures InWindow(states[k].w)
    ensures Exact(states[k].w) <==> forall i :: 0 <= i < k ==> !Leaks(states[i], events[i].step, events[i].env)
  {
    if k > 0 {
      ReceiveWindowHolds(states, events, k - 1);
      StepInWindow(states[k - 1], events[k - 1].step, events[k - 1].env);
    }
  }

  /** A received QoS 2 message reaches the subscribers in this step. */
  ghost predicate Delivers(s: State, e: Event, id: PacketId) {
    && e.step.PublishIn? && e.step.id == id && Min(e.step.qos, e.step.maxQos) >= 2
    && Receive(s.w, e.step, e.env).delivered
  }

  /** The step ends the flow of id: its PUBREL, or the step tears it. */
  ghost predicate EndsFlow(s: State, e: Event, id: PacketId) {
    (e.step.PubrelIn? && e.step.id == id) || id in Torn(s, e.step, e.env)
  }

  ghost predicate OpensFlow(s: State, e: Event, id: PacketId) { Opens(s.w, e.step) && e.step.id == id }

  /** Event k ends the flow of id, and none up to j opens it again. */
  ghost predicate EndedSince(states: seq<State>, events: seq<Event>, id: PacketId, k: nat, j: nat)
    requires |states| == |events| + 1 && k < j <= |events|
  {
    EndsFlow(states[k], events[k], id) && forall l :: k < l < j ==> !OpensFlow(states[l], events[l], id)
  }

  /** What one event does to the flow of id. */
  lemma FlowStep(states: seq<State>, events: seq<Event>, id: PacketId, j: nat)
    requires IsRun(states, events) && Fresh(states[0]) && states[0].w.maxReceive >= 0 && j < |events|
    ensures StepsFlow(states, events, id, j)
  {
    ReceiveWindowHolds(states, events, j);
    StepFlows(states[j], events[j].step, events[j].env);
    assert id in OpenFlows(states[j].w.entries) <==> HasKind(states[j].w, id, Pubrec);
    assert id in OpenFlows(states[j + 1].w.entries) <==> HasKind(states[j + 1].w, id, Pubrec);
  }

  /** Some event from i on ended the flow of id, and none has opened it since. */
  ghost predicate Ended(states: seq<State>, events: seq<Event>, id: PacketId, i: nat, j: nat)
    requires |states| == |events| + 1 && j <= |events|
  {
    exists k :: i <= k < j && EndedSince(states, events, id, k, j)
  }

  lemma EndedNext(states: seq<State>, events: seq<Event>, id: PacketId, i: nat, j: nat)
    requires |states| == |events| + 1 && i <= j < |events|
    ensures Ended(states, events, id, i, j + 1) <==>
            EndsFlow(states[j], events[j], id) || (Ended(states, events, id, i, j) && !OpensFlow(states[j], events[j], id))
  {
    assert EndedSince(states, events, id, j, j + 1) <==> EndsFlow(states[j], events[j], id);
    var next := j + 1;
    if k :| i <= k < next && EndedSince(states, events, id, k, next) {
      if k < j { StillEnded(states, events, id, k, j); }
    }
    if k :| i <= k < j && EndedSince(states, events, id, k, j) {
      StillEnded(states, events, id, k, j);
    }
  }

  lemma StillEnded(states: seq<State>, events: seq<Event>, id: PacketId, k: nat, j: nat)
    requires |states| == |events| + 1 && k < j < |events|
    ensures EndedSince(states, events, id, k, j + 1) <==> EndedSince(states, events, id, k, j) && !OpensFlow(states[j], events[j], id)
  {
  }

  /** Event j opens or ends the flow of id, or leaves it as it is. */
  ghost predicate StepsFlow(states: seq<State>, events: seq<Event>, id: PacketId, j: nat)
    requires |states| == |events| + 1 && j < |events|
  {
    && (HasKind(states[j + 1].w, id, Pubrec) <==>
        OpensFlow(states[j], events[j], id) || (HasKind(states[j].w, id, Pubrec) && !EndsFlow(states[j], events[j], id)))
    && !(OpensFlow(states[j], events[j], id) && EndsFlow(states[j], events[j], id))
  }

  lemma {:induction false} ClosedBySteps(states: seq<State>, events: seq<Event>, id: PacketId, i: nat, j: nat)
    requires |states| == |events| + 1 && i <= j <= |events| && HasKind(states[i].w, id, Pubrec)
    requires forall k :: i <= k < j ==> StepsFlow(states, events, id, k)
    ensures !HasKind(states[j].w, id, Pubrec) <==> Ended(states, events, id, i, j)
    decreases j
  {
    if i < j {
      ClosedBySteps(states, events, id, i, j - 1);
      assert StepsFlow(states, events, id, j - 1);
      EndedNext(states, events, id, i, j - 1);
    }
  }

  /** A flow that was open is closed exactly when some event ended it and none has opened it since. */
  lemma FlowClosedExactly(states: seq<State>, events: seq<Event>, id: PacketId, i: nat, j: nat)
    requires IsRun(states, events) && Fresh(states[0]) && states[0].w.maxReceive >= 0 && i <= j < |states|
    requires HasKind(states[i].w, id, Pubrec)
    ensures !HasKind(states[j].w, id, Pubrec) <==> Ended(states, events, id, i, j)
  {
    forall k | i <= k < j ensures StepsFlow(states, events, id, k) { FlowStep(states, events, id, k); }
    ClosedBySteps(states, events, id, i, j);
  }

  /** A PUBLISH that would be delivered on a new flow: QoS 2, accepted, answered, and within the quota. */
  predicate Deliverable(s: State, e: Event, id: PacketId) {
    && e.step.PublishIn? && e.step.id == id && Min(e.step.qos, e.step.maxQos) >= 2
    && e.step.gate.Accepted? && e.step.writeOk && s.w.receiveQuota > 0
  }

  /**
   Exactly when a QoS 2 packet id is delivered again: after one delivery a later deliverable PUBLISH of the
   id reaches the subscribers if and only if, in between, the flow was ended, by its PUBREL or torn, and
   has not been opened again since. No order of duplicates and no other outbound traffic sharing the map
   makes one flow deliver twice, and every ended one can.
   */
  lemma DeliversAgainExactly(states: seq<State>, events: seq<Event>, id: PacketId, i: nat, j: nat)
    requires IsRun(states, events) && Fresh(states[0]) && states[0].w.maxReceive >= 0 && i < j < |events|
    requires Delivers(states[i], events[i], id) && Deliverable(states[j], events[j], id)
    ensures Delivers(states[j], events[j], id) <==> Ended(states, events, id, i + 1, j)
  {
    FlowStep(states, events, id, i);
    FlowClosedExactly(states, events, id, i + 1, j);
  }

  /** And so, with no PUBREL and no new flow of the id in between, exactly when the flow was torn. */
  lemma RedeliveredExactlyWhenTorn(states: seq<State>, events: seq<Event>, id: PacketId, i: nat, j: nat)
    requires IsRun(states, events) && Fresh(states[0]) && states[0].w.maxReceive >= 0 && i < j < |events|
    requires Delivers(states[i], events[i], id) && Deliverable(states[j], events[j], id)
    requires forall k :: i < k < j ==> !(events[k].step.PubrelIn? && events[k].step.id == id) && !OpensFlow(states[k], events[k], id)
    ensures Delivers(states[j], events[j], id) <==>
            exists k :: i < k < j && id in Torn(states[k], events[k].step, events[k].env)
  {
    DeliversAgainExactly(states, events, id, i, j);
    if k :| i < k < j && id in Torn(states[k], events[k].step, events[k].env) {
      assert EndedSince(states, events, id, k, j);
    }
  }

  /** Whatever the second PUBLISH is like: between two deliveries of one id its flow was ended. */
  lemma DeliveredAtMostOncePerFlow(states: seq<State>, events: seq<Event>, id: PacketId, i: nat, j: nat)
    requires IsRun(states, events) && Fresh(states[0]) && states[0].w.maxReceive >= 0 && i < j < |events|
    requires Delivers(states[i], events[i], id) && Delivers(states[j], events[j], id)
    ensures exists k :: i < k < j && EndsFlow(states[k], events[k], id)
  {
    DeliversAgainExactly(states, events, id, i, j);
    var k :| i + 1 <= k < j && EndedSince(states, events, id, k, j);
  }
}
