/**
 The send window under ordinary conduct: the client acknowledges only what has been pushed to its
 writer, and a delivery is not given a packet id that one of the broker's own copies still carries.
 */
module SendConduct {
  import opened Inflight
  import opened Session
  import opened SendWindow

  function Ids(q: seq<Packet>): set<PacketId> { set p | p in q :: p.id }

  ghost predicate DistinctIds(q: seq<Packet>) { forall i, j :: 0 <= i < j < |q| ==> q[i].id != q[j].id }

  predicate WellBehaved(s: State, step: Step) {
    && (step.Reserve? ==> step.m.id !in Ids(s.queue) && step.m.id !in Ids(s.pushing))
    && (Acknowledges(step) ==> step.id !in Ids(s.pushing))
  }

  /** No copy on its way to the client carries the id of a waiting message, nor two deliveries the same one. */
  ghost predicate Apart(s: State) {
    && Ids(s.queue) !! Deferred(s.w.entries) && Ids(s.pushing) !! Deferred(s.w.entries) && Ids(s.queue) !! Ids(s.pushing)
    && DistinctIds(s.pushing)
  }

  /** A delivery about to be pushed counts as holding its unit, even if its entry is gone. */
  ghost predicate Sound(s: State) { Base(s.w) && Units(s.w, Ids(s.pushing)) <= s.w.maxSend && Apart(s) }

  lemma IdsAppend(q: seq<Packet>, p: Packet)
    ensures Ids(q + [p]) == Ids(q) + {p.id}
  {
    assert forall x :: x in q + [p] <==> x in q || x == p;
  }

  lemma DistinctAppend(q: seq<Packet>, p: Packet)
    requires DistinctIds(q) && p.id !in Ids(q)
    ensures DistinctIds(q + [p])
  {
    assert forall i :: 0 <= i < |q| ==> q[i] in q;
  }

  lemma IdsWithout(q: seq<Packet>, i: nat)
    requires i < |q|
    ensures Ids(Without(q, i)) <= Ids(q)
    ensures DistinctIds(q) ==> DistinctIds(Without(q, i)) && q[i].id !in Ids(Without(q, i))
    ensures q[i].id in Ids(q)
  {
    var r := Without(q, i);
    assert forall k :: 0 <= k < |r| ==> r[k] == q[if k < i then k else k + 1];
    assert q[i] in q;
  }

  lemma TailSound(s: State, env: Env)
    requires Sound(s)
    ensures Sound(WriteNextDeferred(s, env))
  {
    TailFacts(s, env, Ids(s.pushing));
    if CanClaim(s.w) {
      ClaimFacts(s.w, env.restore, Ids(s.pushing));
      IdsAppend(s.queue, Claimed(s.w, env.restore));
    }
  }

  lemma ReceiveSound(s: State, step: Step, env: Env)
    requires Sound(s) && IsReceived(step) && WellBehaved(s, step)
    ensures Sound(Next(s, step, env))
  {
    ReceiveKeeps(s.w, step, env, Ids(s.pushing));
    var t := s.(w := Receive(s.w, step, env).w);
    assert Sound(t);
    TailSound(t, env);
  }

  lemma DeferredSound(s: State, m: Packet)
    requires Sound(s) && Enabled(s, Reserve(m, true)) && WellBehaved(s, Reserve(m, true)) && MustDefer(s.w)
    ensures Sound(s.(w := PutOutbound(s.w, m)))
  {
    OutboundFacts(s.w, m);
    OutboundUnits(s.w, m, Ids(s.pushing));
  }

  lemma SentSound(s: State, m: Packet)
    requires Sound(s) && Enabled(s, Reserve(m, true)) && WellBehaved(s, Reserve(m, true)) && !MustDefer(s.w)
    ensures Sound(s.(w := PutOutbound(s.w, m), pushing := s.pushing + [m]))
  {
    OutboundFacts(s.w, m);
    OutboundUnits(s.w, m, Ids(s.pushing));
    IdsAppend(s.pushing, m);
    DistinctAppend(s.pushing, m);
  }

  lemma ReserveSound(s: State, m: Packet, online: bool, env: Env)
    requires Sound(s) && Enabled(s, Reserve(m, online)) && WellBehaved(s, Reserve(m, online))
    ensures Sound(ReserveFor(s, m, online, env))
  {
    if MustDefer(s.w) {
      DeferredSound(s, m);
      TailSound(s.(w := PutOutbound(s.w, m)), env);
    } else {
      SentSound(s, m);
    }
  }

  lemma FewerHeld(w: Window, a: set<PacketId>, b: set<PacketId>)
    requires a <= b
    ensures Units(w, a) <= Units(w, b)
  {
    Subset(Outstanding(w.entries) + a, Outstanding(w.entries) + b);
  }

  /** A rollback gives up the delivery's claim with the unit it returns. */
  lemma RollbackUnits(w: Window, id: PacketId, before: set<PacketId>, after: set<PacketId>)
    requires Base(w) && id in before && id !in after && after <= before
    ensures Units(IncSend(Remove(w, id)), after) <= Units(w, before)
  {
    ReturnFacts(w, id, after);
    var out := Outstanding(w.entries);
    Subset((out - {id}) + after + {id}, out + before);
    assert id !in (out - {id}) + after;
    CountWithout(out, after, id);
  }

  lemma PushSound(s: State, step: Step)
    requires Sound(s) && step.Push? && step.j < |s.pushing|
    ensures Sound(PushTo(s, step.j, step.online, step.room))
  {
    var m, rest := s.pushing[step.j], Without(s.pushing, step.j);
    IdsWithout(s.pushing, step.j);
    FewerHeld(s.w, Ids(rest), Ids(s.pushing));
    RollbackUnits(s.w, m.id, Ids(s.pushing), Ids(rest));
    ReturnFacts(s.w, m.id, {});
    IdsAppend(s.queue, m);
  }

  lemma ShrunkSound(s: State, t: State)
    requires Sound(s) && Base(t.w) && t.w.maxSend == s.w.maxSend && t.pushing == s.pushing
    requires Deferred(t.w.entries) <= Deferred(s.w.entries) && Ids(t.queue) <= Ids(s.queue)
    requires Units(t.w, Ids(s.pushing)) <= Units(s.w, Ids(s.pushing))
    ensures Sound(t)
  {
  }

  lemma EncodeSound(s: State, i: nat, env: Env)
    requires Sound(s) && i < |s.queue|
    ensures Sound(Next(s, Encode(i), env))
  {
    var pk := s.queue[i];
    IdsWithout(s.queue, i);
    assert !IsDeferred(s.w.entries, pk.id) by { assert pk.id !in Deferred(s.w.entries); }
    EncodeFacts(s.w, s.sent, pk, env, Ids(s.pushing));
    EncodeWaits(s.w, s.sent, pk, env);
    ShrunkSound(s, Next(s, Encode(i), env));
  }

  lemma StepSound(s: State, step: Step, env: Env)
    requires Sound(s) && Enabled(s, step) && WellBehaved(s, step)
    ensures Sound(Next(s, step, env))
  {
    match step
    case Reserve(m, online) => ReserveSound(s, m, online, env);
    case Push(_, _, _) => PushSound(s, step);
    case Sweep(maximumExpiry) => SweepFacts(s.w, ExpiredIds(s.w, env.now, maximumExpiry), Ids(s.pushing));
    case Encode(i) => EncodeSound(s, i, env);
    case WriteQos0(_, _) =>
    case _ => ReceiveSound(s, step, env);
  }

  lemma {:induction false} RunSound(states: seq<State>, events: seq<Event>, k: nat)
    requires IsRun(states, events) && k < |states| && Fresh(states[0]) && states[0].w.maxSend > 0
    requires forall i :: 0 <= i < |events| ==> WellBehaved(states[i], events[i].step)
    ensures Sound(states[k])
  {
    if k > 0 {
      RunSound(states, events, k - 1);
      StepSound(states[k - 1], events[k - 1].step, events[k - 1].env);
    }
  }

  /**
   In every state of every such run the packets that hold a unit and the quota left never exceed Receive
   Maximum, whatever collides, expires, is dropped for its size or rolled back, and however many
   deliveries are in progress.
   */
  lemma SendWindowHolds(states: seq<State>, events: seq<Event>, k: nat)
    requires IsRun(states, events) && k < |states| && Fresh(states[0]) && states[0].w.maxSend > 0
    requires forall i :: 0 <= i < |events| ==> WellBehaved(states[i], events[i].step)
    ensures |Outstanding(states[k].w.entries)| + states[k].w.sendQuota <= states[k].w.maxSend
  {
    RunSound(states, events, k);
    UnitsAre(states[k].w);
    FewerHeld(states[k].w, {}, Ids(states[k].pushing));
  }
}
