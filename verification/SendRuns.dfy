/**
 Runs on which the send window, the waiting rule or the release of a dropped message fails, and when
 exactly a dropped message is released.
 */
module SendRuns {
  import opened Inflight
  import opened Session
  import opened SendWindow
  import Aliases

  const BIG := Packet(Publish, 1, 1, 0, 0, "big", 5)

  function Small(id: PacketId): Packet { Packet(Publish, id, 1, 0, 0, "small", 5) }

  const PLAIN := Env(0, 0, (p: Packet) => 0, (p: Packet) => p.topic == "big", (p: Packet) => false, 0, 5)

  /**
   The k-th event: BIG is queued and acknowledged, the ids 2 to max - 1 go to deliveries that find the
   queue full, id max to one that does not, and id 1 again to a message that has to wait; then the
   writer takes the first copy of BIG.
   */
  function Reuse(max: PacketId, k: nat): Event
    requires 2 <= max && k < 2 * max + 3
  {
    Event(
      if k == 0 || k == 2 * max + 1 then Reserve(BIG, true)
      else if k == 1 || k == 2 * max then Push(0, true, true)
      else if k == 2 then PubackIn(1)
      else if k == 2 * max + 2 then Encode(0)
      else if k % 2 == 1 then Reserve(Small((k + 1) / 2), true)
      else Push(0, true, false),
      PLAIN)
  }

  function Turn(entries: map<PacketId, Entry>, nextOrder: nat, deferred: int, quota: int, queue: seq<Packet>, pushing: seq<Packet>): State {
    State(Window(entries, nextOrder, deferred, 0, quota, 0, 1), queue, pushing, map[])
  }

  function ReuseState(max: PacketId, k: nat): State
    requires 2 <= max && k <= 2 * max + 3
  {
    if k == 0 then Turn(map[], 0, 0, 1, [], [])
    else if k == 1 then Turn(map[1 := Entry(BIG, 1)], 1, 0, 0, [], [BIG])
    else if k == 2 then Turn(map[1 := Entry(BIG, 1)], 1, 0, 0, [BIG], [])
    else if k == 2 * max + 1 then Turn(map[max := Entry(Small(max), max)], max, 0, 0, [BIG, Small(max)], [])
    else if k == 2 * max + 2 then
      Turn(map[max := Entry(Small(max), max), 1 := Entry(BIG.(expiry := -1), max + 1)], max + 1, 1, 0, [BIG, Small(max)], [])
    else if k == 2 * max + 3 then Turn(map[max := Entry(Small(max), max)], max + 1, 0, 1, [Small(max)], [])
    else if k % 2 == 1 then Turn(map[], (k - 1) / 2, 0, 1, [BIG], [])
    else Turn(map[k / 2 := Entry(Small(k / 2), k / 2)], k / 2, 0, 0, [BIG], [Small(k / 2)])
  }

  lemma ReuseReserve(max: PacketId, k: nat)
    requires 2 <= max && k < 2 * max + 3 && Reuse(max, k).step.Reserve?
    ensures Enabled(ReuseState(max, k), Reuse(max, k).step)
    ensures Next(ReuseState(max, k), Reuse(max, k).step, PLAIN) == ReuseState(max, k + 1)
  {
    var s, m := ReuseState(max, k), Reuse(max, k).step.m;
    assert PutOutbound(s.w, m) == ReuseState(max, k + 1).w;
  }

  lemma ReuseMiddle(max: PacketId, k: nat)
    requires 2 <= max && 1 <= k <= 2 * max && !Reuse(max, k).step.Reserve?
    ensures Enabled(ReuseState(max, k), Reuse(max, k).step)
    ensures Next(ReuseState(max, k), Reuse(max, k).step, PLAIN) == ReuseState(max, k + 1)
  {
    var s := ReuseState(max, k);
    if k == 2 {
      assert Remove(s.w, 1) == s.w.(entries := map[]);
    } else {
      assert Without(s.pushing, 0) == [];
      assert Remove(s.w, s.pushing[0].id) == s.w.(entries := map[]);
    }
  }

  lemma ReuseDrop(max: PacketId)
    requires 2 <= max
    ensures Enabled(ReuseState(max, 2 * max + 2), Reuse(max, 2 * max + 2).step)
    ensures Next(ReuseState(max, 2 * max + 2), Reuse(max, 2 * max + 2).step, PLAIN) == ReuseState(max, 2 * max + 3)
  {
    var s, t := ReuseState(max, 2 * max + 2), ReuseState(max, 2 * max + 3);
    assert Remove(s.w, 1) == t.w.(sendQuota := 0);
    assert Deferred(t.w.entries) == {};
    assert Without([BIG, Small(max)], 0) == [Small(max)];
  }

  function Handed(max: PacketId, k: nat): int {
    if k == 0 then 0 else if k <= 3 || k >= 2 * max + 2 then 1 else k / 2
  }

  lemma {:induction false} HandedIs(max: PacketId, events: seq<Event>, k: nat)
    requires 2 <= max && |events| == 2 * max + 3 && k <= |events|
    requires forall i :: 0 <= i < |events| ==> events[i] == Reuse(max, i)
    ensures LastId(events, k) == Handed(max, k)
  {
    if k > 0 { HandedIs(max, events, k - 1); }
  }

  lemma ReuseTurn(max: PacketId, k: nat)
    requires 2 <= max && k < 2 * max + 3 && Reuse(max, k).step.Reserve?
    ensures var id := Reuse(max, k).step.m.id;
      InTurn(ReuseState(max, k).w, Handed(max, k), id, max)
  {
  }

  lemma ReuseInTurn(max: PacketId, states: seq<State>, events: seq<Event>)
    requires 2 <= max && |events| == 2 * max + 3 && |states| == |events| + 1
    requires forall i :: 0 <= i < |events| ==> events[i] == Reuse(max, i)
    requires forall i :: 0 <= i < |states| ==> states[i] == ReuseState(max, i)
    ensures IdsInTurn(states, events, max, 0)
  {
    forall k | 0 <= k < |events| && events[k].step.Reserve?
      ensures InTurn(states[k].w, LastId(events, k), events[k].step.m.id, max)
    {
      HandedIs(max, events, k);
      ReuseTurn(max, k);
    }
  }

  /**
   The window breaks, for every maximum packet id from 2 on and with ids handed out in turn. With a Receive
   Maximum of 1 the client acknowledges a message still queued; once the ids have gone round, its id goes
   to a message of the same topic and second that has to wait; and the writer, dropping the queued copy for
   its size, takes the waiting message for its own and returns a unit nobody held.
   */
  lemma QueuedReuseBreaksWindow(max: PacketId) returns (states: seq<State>, events: seq<Event>)
    requires 2 <= max
    ensures IsRun(states, events) && Fresh(states[0]) && states[0].w.maxSend == 1 && IdsInTurn(states, events, max, 0)
    ensures var w := states[|events|].w; |Outstanding(w.entries)| + w.sendQuota == 2
  {
    var n := 2 * max + 3;
    states := seq(n + 1, k requires 0 <= k <= n => ReuseState(max, k));
    events := seq(n, k requires 0 <= k < n => Reuse(max, k));
    forall k | 0 <= k < n
      ensures Enabled(states[k], events[k].step) && states[k + 1] == Next(states[k], events[k].step, events[k].env)
    {
      if Reuse(max, k).step.Reserve? { ReuseReserve(max, k); }
      else if k <= 2 * max { ReuseMiddle(max, k); }
      else { ReuseDrop(max); }
    }
    ReuseInTurn(max, states, events);
    assert Outstanding(ReuseState(max, n).w.entries) == {max};
  }

  function Ack(k: nat): Event {
    Event(match k case 0 => Reserve(Small(1), true) case 1 => Reserve(Small(2), true) case 2 => PubackIn(1) case _ => Push(0, true, false),
          PLAIN)
  }

  function AckState(k: nat): State {
    match k
    case 0 => State(EmptyWindow(0, 2), [], [], map[])
    case 1 => State(Window(map[1 := Entry(Small(1), 1)], 1, 0, 0, 1, 0, 2), [], [Small(1)], map[])
    case 2 => State(Window(map[1 := Entry(Small(1), 1), 2 := Entry(Small(2), 2)], 2, 0, 0, 0, 0, 2), [], [Small(1), Small(2)], map[])
    case 3 => State(Window(map[2 := Entry(Small(2), 2)], 2, 0, 0, 1, 0, 2), [], [Small(1), Small(2)], map[])
    case _ => State(Window(map[2 := Entry(Small(2), 2)], 2, 0, 0, 2, 0, 2), [], [Small(2)], map[])
  }

  lemma AckNext(k: nat)
    requires k < 4
    ensures Enabled(AckState(k), Ack(k).step) && Next(AckState(k), Ack(k).step, PLAIN) == AckState(k + 1)
  {
    var s := AckState(k);
    match k
    case 2 => assert Remove(s.w, 1) == AckState(3).w.(sendQuota := 0);
    case 3 =>
      assert Remove(s.w, 1) == s.w;
      assert Without([Small(1), Small(2)], 0) == [Small(2)];
    case _ => assert PutOutbound(s.w, Ack(k).step.m) == AckState(k + 1).w;
  }

  /**
   The window also breaks when the client acknowledges a message between the two parts of its delivery and
   the writer's queue is then full: the unit is returned twice. With a Receive Maximum of 2 three are counted.
   */
  lemma EarlyAckBreaksWindow() returns (states: seq<State>, events: seq<Event>)
    ensures IsRun(states, events) && Fresh(states[0]) && states[0].w.maxSend == 2 && IdsInTurn(states, events, 0xFFFF, 0)
    ensures var w := states[|events|].w; |Outstanding(w.entries)| + w.sendQuota == 3
  {
    states, events := seq(5, k requires 0 <= k => AckState(k)), seq(4, k requires 0 <= k => Ack(k));
    forall k | 0 <= k < 4
      ensures Enabled(states[k], events[k].step) && states[k + 1] == Next(states[k], events[k].step, events[k].env)
    {
      AckNext(k);
    }
    assert LastId(events, 1) == 1;
    assert Outstanding(AckState(4).w.entries) == {2};
  }

  function Strand(k: nat): Event {
    Event(match k case 0 => Reserve(Small(1), true) case 1 => Reserve(Small(2), true) case _ => Push(0, true, false), PLAIN)
  }

  function StrandState(k: nat): State {
    match k
    case 0 => Turn(map[], 0, 0, 1, [], [])
    case 1 => Turn(map[1 := Entry(Small(1), 1)], 1, 0, 0, [], [Small(1)])
    case 2 => Turn(map[1 := Entry(Small(1), 1), 2 := Entry(Small(2).(expiry := -1), 2)], 2, 1, 0, [], [Small(1)])
    case _ => Turn(map[2 := Entry(Small(2).(expiry := -1), 2)], 2, 1, 1, [], [])
  }

  lemma StrandNext(k: nat)
    requires k < 3
    ensures Enabled(StrandState(k), Strand(k).step) && Next(StrandState(k), Strand(k).step, PLAIN) == StrandState(k + 1)
  {
    var s := StrandState(k);
    match k
    case 2 =>
      assert Remove(s.w, 1) == StrandState(3).w.(sendQuota := 0);
      assert Without([Small(1)], 0) == [];
    case _ => assert PutOutbound(s.w, Strand(k).step.m) == StrandState(k + 1).w;
  }

  /**
   A message can be left waiting with quota free, whatever the client does: two deliveries share a window of
   one, the second has to wait, the first finds the queue full and returns its unit, and nobody claims it.
   */
  lemma RollbackStrands() returns (states: seq<State>, events: seq<Event>)
    ensures IsRun(states, events) && Fresh(states[0]) && states[0].w.maxSend == 1 && IdsInTurn(states, events, 0xFFFF, 0)
    ensures forall k :: 0 <= k < |events| ==> !Acknowledges(events[k].step)
    ensures var s := states[|events|]; IsDeferred(s.w.entries, 2) && s.w.sendQuota == 1 && s.queue == [] && s.pushing == []
  {
    states, events := seq(4, k requires 0 <= k => StrandState(k)), seq(3, k requires 0 <= k => Strand(k));
    forall k | 0 <= k < 3
      ensures Enabled(states[k], events[k].step) && states[k + 1] == Next(states[k], events[k].step, events[k].env)
    {
      StrandNext(k);
    }
    assert LastId(events, 1) == 1;
  }

  /** The writer has sent an alias for the packet's topic and may use it. */
  predicate GoesOutByAlias(sent: Aliases.Sent, pk: Packet, env: Env) {
    env.aliasMax > 0 && env.version >= 5 && pk.topic in sent
  }

  /** The drop loop adds no entry. */
  lemma {:induction false} EncodeEntries(w: Window, sent: Aliases.Sent, pk: Packet, env: Env)
    ensures EncodeFrom(w, sent, pk, env).w.entries.Keys <= w.entries.Keys
    decreases |Deferred(w.entries)|
  {
    if Oversize(pk, env) && DropHits(w, sent, pk, env) {
      EncodeRound(w, sent, pk, env);
      var returned := IncSend(Remove(w, pk.id));
      if w.sendQuota < w.maxSend && CanClaim(returned) {
        RoundShrinks(w, pk.id, returned, env);
        EncodeEntries(Claim(returned, env.restore), sent, Claimed(returned, env.restore), env);
      }
    }
  }

  /** Dropping an oversize message releases it exactly when its topic does not go out by alias. */
  lemma OversizeReleased(w: Window, sent: Aliases.Sent, pk: Packet, env: Env)
    requires pk.qos > 0 && Oversize(pk, env) && pk.topic != ""
    requires pk.id in w.entries && w.entries[pk.id].pk == pk && pk.kind == Publish
    ensures pk.id !in EncodeFrom(w, sent, pk, env).w.entries <==> !GoesOutByAlias(sent, pk, env)
  {
    if !GoesOutByAlias(sent, pk, env) {
      EncodeRound(w, sent, pk, env);
      var returned := IncSend(Remove(w, pk.id));
      if w.sendQuota < w.maxSend && CanClaim(returned) {
        EncodeEntries(Claim(returned, env.restore), sent, Claimed(returned, env.restore), env);
      }
    }
  }

  function On(topic: string, id: PacketId): Packet { Packet(Publish, id, 1, 0, 0, topic, 5) }

  function Alias(topic: string, aliasMax: nat, version: nat, k: nat): Event {
    Event(
      match k
      case 0 => Reserve(On(topic, 1), true)
      case 1 => Push(0, true, true)
      case 2 => Encode(0)
      case 3 => PubackIn(1)
      case 4 => Reserve(On(topic, 2), true)
      case 5 => Push(0, true, true)
      case _ => Encode(0),
      Env(0, 0, (p: Packet) => 0, (p: Packet) => p.id == 2, (p: Packet) => false, aliasMax, version))
  }

  function AliasState(topic: string, k: nat): State {
    var p, q, sent := On(topic, 1), On(topic, 2), map[topic := 1];
    match k
    case 0 => Turn(map[], 0, 0, 1, [], [])
    case 1 => Turn(map[1 := Entry(p, 1)], 1, 0, 0, [], [p])
    case 2 => Turn(map[1 := Entry(p, 1)], 1, 0, 0, [p], [])
    case 3 => Turn(map[1 := Entry(p, 1)], 1, 0, 0, [], []).(sent := sent)
    case 4 => Turn(map[], 1, 0, 1, [], []).(sent := sent)
    case 5 => Turn(map[2 := Entry(q, 2)], 2, 0, 0, [], [q]).(sent := sent)
    case 6 => Turn(map[2 := Entry(q, 2)], 2, 0, 0, [q], []).(sent := sent)
    case _ => Turn(map[2 := Entry(q, 2)], 2, 0, 0, [], []).(sent := sent)
  }

  lemma AliasEncoded(topic: string, aliasMax: nat, version: nat, k: nat)
    requires topic != "" && aliasMax >= 1 && version >= 5 && (k == 2 || k == 6)
    ensures var e := Alias(topic, aliasMax, version, k);
      Enabled(AliasState(topic, k), e.step) && Next(AliasState(topic, k), e.step, e.env) == AliasState(topic, k + 1)
  {
    assert Without([On(topic, if k == 2 then 1 else 2)], 0) == [];
    assert Aliases.Record(map[], Aliases.Wire(topic, 1)) == map[topic := 1];
  }

  lemma AliasNext(topic: string, aliasMax: nat, version: nat, k: nat)
    requires k < 7 && k != 2 && k != 6
    ensures var e := Alias(topic, aliasMax, version, k);
      Enabled(AliasState(topic, k), e.step) && Next(AliasState(topic, k), e.step, e.env) == AliasState(topic, k + 1)
  {
    var s := AliasState(topic, k);
    match k
    case 0 => assert PutOutbound(s.w, On(topic, 1)) == AliasState(topic, 1).w;
    case 3 => assert Remove(s.w, 1) == s.w.(entries := map[]);
    case 4 => assert PutOutbound(s.w, On(topic, 2)) == AliasState(topic, 5).w;
    case _ => assert Without([On(topic, if k == 1 then 1 else 2)], 0) == [];
  }

  /**
   For every topic and Topic Alias Maximum: a first message is written, registers the alias and is
   acknowledged; a second one of the topic is dropped for its size. Nothing is queued any more, and its
   entry still holds the only unit.
   */
  lemma AliasedOversizeStays(topic: string, aliasMax: nat, version: nat) returns (states: seq<State>, events: seq<Event>)
    requires topic != "" && aliasMax >= 1 && version >= 5
    ensures IsRun(states, events) && Fresh(states[0]) && states[0].w.maxSend == 1 && IdsInTurn(states, events, 0xFFFF, 0)
    ensures |events| == 7 && events[6].step == Encode(0) && states[6].queue == [On(topic, 2)]
    ensures Oversize(On(topic, 2), events[6].env)
    ensures var s := states[7]; s.queue == [] && s.pushing == [] && Outstanding(s.w.entries) == {2} && s.w.sendQuota == 0
  {
    states := seq(8, k requires 0 <= k => AliasState(topic, k));
    events := seq(7, k requires 0 <= k => Alias(topic, aliasMax, version, k));
    forall k | 0 <= k < 7
      ensures Enabled(states[k], events[k].step) && states[k + 1] == Next(states[k], events[k].step, events[k].env)
    {
      if k == 2 || k == 6 { AliasEncoded(topic, aliasMax, version, k); } else { AliasNext(topic, aliasMax, version, k); }
    }
    assert LastId(events, 1) == 1 && LastId(events, 4) == LastId(events, 3) == LastId(events, 2) == LastId(events, 1);
    assert Outstanding(AliasState(topic, 7).w.entries) == {2};
  }
}
