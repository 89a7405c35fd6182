/**
 A connection's writer and its producers as a state machine: every channel operation, every
 lock section of the outbound queue and every encoded packet is one step.
 */
module Writer {
  const CONTROL_CAP := 256
  const MAX_BATCH := 256

  /** ticket: the moment the packet was queued. Live publishes come from the outbound queue. */
  datatype Item = Item(ticket: nat, live: bool, connack: bool, closeAfter: bool)

  /** A packet the writer encoded, and whether it went into the buffer. */
  datatype Entry = Entry(it: Item, sent: bool)

  /**
   Where the writer is; n counts the packets of the batch. With first set it has not entered
   the batch yet, and still has to look whether the client is stopped.
   */
  datatype Pc =
    | Parked
    | CheckControl(n: nat, first: bool)
    | PopLive(n: nat, first: bool)
    | Recheck(held: Item, n: nat, first: bool)
    | Encoding(it: Item, n: nat, first: bool)
    | BatchEnd
    | Stopped

  datatype State = State(
    control: seq<Item>, outbound: seq<Item>, max: nat,
    token: bool, signalling: nat,
    pc: Pc, connackSent: bool, failed: bool, closed: bool,
    log: seq<Entry>, issued: set<Item>, discarded: bool, clock: nat)

  datatype Step =
    | Enqueue(connack: bool, closeAfter: bool)
    | Append
    | Signal
    | Close
    | TakeControl
    | TakeToken
    | Quit
    | LookControl
    | Pop
    | LookAgain
    | Encode(sent: bool, fatal: bool, flushFails: bool)
    | EndBatch

  predicate Enabled(s: State, step: Step) {
    match step
    case Enqueue(_, _) => |s.control| < CONTROL_CAP
    case Append => |s.outbound| < s.max
    case Signal => s.signalling > 0
    case Close => true
    case TakeControl => s.pc.Parked? && s.control != []
    case TakeToken => s.pc.Parked? && s.connackSent && s.token
    case Quit => s.pc.Parked? && s.closed
    case LookControl => s.pc.CheckControl?
    case Pop => s.pc.PopLive?
    case LookAgain => s.pc.Recheck?
    case Encode(_, _, _) => s.pc.Encoding?
    case EndBatch => s.pc.BatchEnd?
  }

  function Next(s: State, step: Step): State
    requires Enabled(s, step)
  {
    match step
    case Enqueue(connack, closeAfter) =>
      var it := Item(s.clock, false, connack, closeAfter);
      s.(control := s.control + [it], issued := s.issued + {it}, clock := s.clock + 1)
    case Append =>
      s.(outbound := s.outbound + [Item(s.clock, true, false, false)], clock := s.clock + 1, signalling := s.signalling + 1)
    case Signal => s.(signalling := s.signalling - 1, token := true)
    case Close => s.(closed := true)
    case TakeControl => s.(control := s.control[1..], pc := Encoding(s.control[0], 0, true))
    case TakeToken => s.(token := false, pc := CheckControl(0, true))
    case Quit => s.(pc := Stopped)
    case LookControl =>
      if s.control != [] then s.(control := s.control[1..], pc := Encoding(s.control[0], s.pc.n, s.pc.first))
      else if !s.connackSent then s.(pc := BatchEnd)
      else s.(pc := PopLive(s.pc.n, s.pc.first))
    case Pop =>
      if s.outbound == [] then s.(pc := BatchEnd)
      else s.(outbound := s.outbound[1..], pc := Recheck(s.outbound[0], s.pc.n, s.pc.first))
    case LookAgain =>
      if s.control != [] then
        s.(control := s.control[1..], outbound := [s.pc.held] + s.outbound, token := true,
           pc := Encoding(s.control[0], s.pc.n, s.pc.first))
      else s.(pc := Encoding(s.pc.held, s.pc.n, s.pc.first))
    case Encode(sent, fatal, flushFails) => EncodeStep(s, sent, fatal, flushFails)
    case EndBatch => s.(pc := Parked, token := s.token || (s.connackSent && s.outbound != []))
  }

  /** One round of writeBatch: encode, then stop, end the batch or look for the next packet. */
  function EncodeStep(s: State, sent: bool, fatal: bool, flushFails: bool): State
    requires s.pc.Encoding?
  {
    var Encoding(it, n, first) := s.pc;
    if first && (s.closed || s.failed) then s.(pc := BatchEnd, discarded := true)
    else
      var t := s.(log := s.log + [Entry(it, sent)], connackSent := s.connackSent || (sent && it.connack));
      if it.closeAfter || fatal || flushFails then t.(failed := true, closed := true, pc := BatchEnd)
      else if n + 1 >= MAX_BATCH then t.(pc := BatchEnd)
      else t.(pc := CheckControl(n + 1, false))
  }

  predicate Initial(s: State) {
    && s.control == [] && s.outbound == [] && !s.token && s.signalling == 0 && s.pc.Parked?
    && !s.connackSent && !s.failed && !s.closed && s.log == [] && s.issued == {} && !s.discarded
  }

  /** The packet is among the first n encoded. */
  predicate Logged(log: seq<Entry>, it: Item, n: nat) { exists i :: 0 <= i < n && i < |log| && log[i].it == it }

  /** The CONNACK is among the first n encoded, and was written. */
  predicate Connected(log: seq<Entry>, n: nat) { exists i :: 0 <= i < n && i < |log| && log[i].it.connack && log[i].sent }

  lemma LoggedGrows(log: seq<Entry>, e: Entry, c: Item, n: nat)
    ensures Logged(log, c, n) ==> Logged(log + [e], c, n)
    ensures n <= |log| ==> (Logged(log + [e], c, n) <==> Logged(log, c, n))
    ensures Logged(log + [e], c, |log| + 1) <==> Logged(log, c, |log|) || c == e.it
  {
    var m := log + [e];
    assert m[|log|] == e;
    if i :| 0 <= i < n && i < |log| && log[i].it == c { assert m[i].it == c; }
    if i :| 0 <= i < |log| && log[i].it == c { assert m[i].it == c; }
  }

  lemma ConnectedGrows(log: seq<Entry>, e: Entry, n: nat)
    ensures n <= |log| ==> (Connected(log + [e], n) <==> Connected(log, n))
    ensures Connected(log + [e], |log| + 1) <==> Connected(log, |log|) || (e.it.connack && e.sent)
  {
    var m := log + [e];
    assert m[|log|] == e;
    if i :| 0 <= i < n && i < |log| && log[i].it.connack && log[i].sent { assert m[i] == log[i]; }
    if i :| 0 <= i < |log| && log[i].it.connack && log[i].sent { assert m[i] == log[i]; }
  }

  predicate InBatch(pc: Pc) {
    match pc
    case CheckControl(_, first) => !first
    case PopLive(_, first) => !first
    case Recheck(_, _, first) => !first
    case Encoding(_, _, first) => !first
    case _ => false
  }

  predicate HoldsLive(pc: Pc) { pc.Recheck? || (pc.Encoding? && pc.it.live) }

  function HeldLive(pc: Pc): Item
    requires HoldsLive(pc)
  {
    if pc.Recheck? then pc.held else pc.it
  }

  /** CONNACK first, nothing after a closing packet, and a packet is discarded only when the writer is done. */
  ghost predicate Phases(s: State) {
    && (s.connackSent <==> Connected(s.log, |s.log|))
    && (s.pc.PopLive? || HoldsLive(s.pc) ==> s.connackSent)
    && (InBatch(s.pc) ==> !s.failed && !s.discarded)
    && (s.discarded ==> s.closed || s.failed)
    && LiveConnected(s.log)
    && (forall i :: 0 <= i < |s.log| && s.log[i].it.closeAfter ==> s.failed && i == |s.log| - 1)
    && (forall i :: 0 <= i < |s.outbound| ==> s.outbound[i].live)
    && (forall i :: 0 <= i < |s.control| ==> !s.control[i].live)
    && (s.pc.Recheck? ==> s.pc.held.live)
  }

  /** Every live packet of the log comes after the CONNACK. */
  ghost predicate LiveConnected(log: seq<Entry>) {
    forall j :: 0 <= j < |log| && log[j].it.live ==> Connected(log, j)
  }

  lemma LiveConnectedGrows(log: seq<Entry>, e: Entry)
    requires LiveConnected(log) && (e.it.live ==> Connected(log, |log|))
    ensures LiveConnected(log + [e])
  {
    var m := log + [e];
    forall j | 0 <= j < |m| && m[j].it.live ensures Connected(m, j) {
      ConnectedGrows(log, e, j);
      if j < |log| { assert log[j].it.live; }
    }
  }

  lemma EncodePhases(s: State, sent: bool, fatal: bool, flushFails: bool)
    requires Phases(s) && s.pc.Encoding?
    ensures Phases(EncodeStep(s, sent, fatal, flushFails))
  {
    var e := Entry(s.pc.it, sent);
    ConnectedGrows(s.log, e, |s.log|);
    LiveConnectedGrows(s.log, e);
  }

  lemma LookPhases(s: State, step: Step)
    requires Phases(s) && Enabled(s, step)
    requires step.TakeControl? || step.LookControl? || step.Pop? || step.LookAgain?
    ensures Phases(Next(s, step))
  {
  }

  lemma PhasesKept(s: State, step: Step)
    requires Phases(s) && Enabled(s, step)
    ensures Phases(Next(s, step))
  {
    match step
    case Encode(sent, fatal, flushFails) => EncodePhases(s, sent, fatal, flushFails);
    case TakeControl => LookPhases(s, step);
    case LookControl => LookPhases(s, step);
    case Pop => LookPhases(s, step);
    case LookAgain => LookPhases(s, step);
    case _ =>
  }

  ghost predicate Increasing(q: seq<Item>) { forall i, j :: 0 <= i < j < |q| ==> q[i].ticket < q[j].ticket }

  /** The live packets among those encoded. */
  function LiveOf(log: seq<Entry>): seq<Item> {
    if log == [] then []
    else LiveOf(log[..|log| - 1]) + (if log[|log| - 1].it.live then [log[|log| - 1].it] else [])
  }

  function Held(pc: Pc): seq<Item> { if HoldsLive(pc) then [HeldLive(pc)] else [] }

  /** Every live packet: encoded, with the writer, and queued. */
  function AllLive(s: State): seq<Item> { LiveOf(s.log) + Held(s.pc) + s.outbound }

  /** Live packets keep the order they were pushed in. */
  ghost predicate LiveInOrder(s: State) { InOrder(AllLive(s), s.clock) }

  ghost predicate InOrder(q: seq<Item>, clock: nat) {
    Increasing(q) && forall i :: 0 <= i < |q| ==> q[i].ticket < clock
  }

  lemma LiveOfAppend(log: seq<Entry>, e: Entry)
    ensures LiveOf(log + [e]) == LiveOf(log) + (if e.it.live then [e.it] else [])
  {
    assert (log + [e])[..|log|] == log;
  }

  lemma DropMiddle(a: seq<Item>, b: seq<Item>, c: seq<Item>, clock: nat)
    requires InOrder(a + b + c, clock)
    ensures InOrder(a + c, clock)
  {
    var t := a + b + c;
    forall i, j | 0 <= i < j < |a + c| ensures (a + c)[i].ticket < (a + c)[j].ticket {
      var i', j' := if i < |a| then i else i + |b|, if j < |a| then j else j + |b|;
      assert t[i'] == (a + c)[i] && t[j'] == (a + c)[j];
    }
    forall i | 0 <= i < |a + c| ensures (a + c)[i].ticket < clock {
      assert t[if i < |a| then i else i + |b|] == (a + c)[i];
    }
  }

  lemma EncodeLive(s: State, sent: bool, fatal: bool, flushFails: bool)
    requires s.pc.Encoding?
    ensures var t := EncodeStep(s, sent, fatal, flushFails);
      AllLive(t) == AllLive(s) || AllLive(t) == LiveOf(s.log) + s.outbound
  {
    var t, e := EncodeStep(s, sent, fatal, flushFails), Entry(s.pc.it, sent);
    assert t.outbound == s.outbound && Held(t.pc) == [] && (t.log == s.log || t.log == s.log + [e]);
    LiveOfAppend(s.log, e);
    assert LiveOf(t.log) + Held(t.pc) == LiveOf(t.log);
    assert t.log == s.log + [e] ==> LiveOf(t.log) == LiveOf(s.log) + Held(s.pc);
  }

  /** The writer's lookups move live packets without reordering them. */
  lemma SameLive(s: State, step: Step)
    requires Enabled(s, step) && !step.Append? && !step.Encode?
    requires s.control != [] ==> !s.control[0].live
    requires (s.pc.Recheck? ==> s.pc.held.live) && (s.outbound != [] ==> s.outbound[0].live)
    ensures AllLive(Next(s, step)) == AllLive(s)
  {
    var t := Next(s, step);
    SameQueued(s, step);
    assert t.log == s.log;
    Regroup(LiveOf(s.log), Held(t.pc), t.outbound);
    Regroup(LiveOf(s.log), Held(s.pc), s.outbound);
  }

  lemma Regroup(a: seq<Item>, b: seq<Item>, c: seq<Item>)
    ensures a + b + c == a + (b + c)
  {
  }

  lemma SameQueued(s: State, step: Step)
    requires Enabled(s, step) && !step.Append? && !step.Encode?
    requires s.control != [] ==> !s.control[0].live
    requires (s.pc.Recheck? ==> s.pc.held.live) && (s.outbound != [] ==> s.outbound[0].live)
    ensures Held(Next(s, step).pc) + Next(s, step).outbound == Held(s.pc) + s.outbound
  {
    match step
    case Pop => if s.outbound != [] { assert s.outbound == [s.outbound[0]] + s.outbound[1..]; }
    case LookAgain => assert [] + ([s.pc.held] + s.outbound) == [s.pc.held] + s.outbound;
    case _ =>
  }

  lemma AppendLive(s: State)
    requires Enabled(s, Append) && LiveInOrder(s)
    ensures LiveInOrder(Next(s, Append))
  {
    assert AllLive(Next(s, Append)) == AllLive(s) + [Item(s.clock, true, false, false)];
  }

  lemma LiveOrderKept(s: State, step: Step)
    requires LiveInOrder(s) && Phases(s) && Enabled(s, step)
    ensures LiveInOrder(Next(s, step))
  {
    if step.Append? {
      AppendLive(s);
    } else if step.Encode? {
      EncodeLiveOrder(s, step.sent, step.fatal, step.flushFails);
    } else {
      SameLive(s, step);
    }
  }

  lemma EncodeLiveOrder(s: State, sent: bool, fatal: bool, flushFails: bool)
    requires LiveInOrder(s) && s.pc.Encoding?
    ensures LiveInOrder(EncodeStep(s, sent, fatal, flushFails))
  {
    EncodeLive(s, sent, fatal, flushFails);
    DropMiddle(LiveOf(s.log), Held(s.pc), s.outbound, s.clock);
  }

  /** The order of the live packets, read off the log. */
  lemma {:induction false} LiveOfOrder(log: seq<Entry>, i: nat, j: nat)
    requires Increasing(LiveOf(log)) && i < j < |log| && log[i].it.live && log[j].it.live
    ensures log[i].it.ticket < log[j].it.ticket
  {
    var init := log[..|log| - 1];
    assert LiveOf(log)[..|LiveOf(init)|] == LiveOf(init);
    if j < |log| - 1 {
      LiveOfOrder(init, i, j);
    } else {
      var k := LiveOfHas(init, i);
      assert LiveOf(log)[k] == log[i].it;
      assert LiveOf(log)[|LiveOf(init)|] == log[j].it;
    }
  }

  lemma {:induction false} LiveOfHas(log: seq<Entry>, i: nat) returns (k: nat)
    requires i < |log| && log[i].it.live
    ensures k < |LiveOf(log)| && LiveOf(log)[k] == log[i].it
  {
    if i == |log| - 1 {
      k := |LiveOf(log)| - 1;
    } else {
      k := LiveOfHas(log[..|log| - 1], i);
    }
  }

  /** No control packet is lost while the writer writes, and those issued before a live packet have gone ahead of it. */
  ghost predicate ControlFirst(s: State) {
    && (forall c :: c in s.issued ==> c.ticket < s.clock && !c.live)
    && (!s.discarded ==>
          forall c :: c in s.issued ==> c in s.control || Logged(s.log, c, |s.log|) || (s.pc.Encoding? && s.pc.it == c))
    && (!s.discarded && s.pc.Encoding? && s.pc.it.live ==>
          forall c :: c in s.issued && c.ticket < s.pc.it.ticket ==> Logged(s.log, c, |s.log|))
    && (forall j, c :: 0 <= j < |s.log| && s.log[j].it.live && c in s.issued && c.ticket < s.log[j].it.ticket ==> Logged(s.log, c, j))
  }

  lemma EncodeControlFirst(s: State, sent: bool, fatal: bool, flushFails: bool)
    requires Phases(s) && ControlFirst(s) && s.pc.Encoding?
    ensures ControlFirst(EncodeStep(s, sent, fatal, flushFails))
  {
    var e := Entry(s.pc.it, sent);
    var log := s.log + [e];
    if !(s.pc.first && (s.closed || s.failed)) {
      forall c | c in s.issued ensures c in s.control || Logged(log, c, |log|) { LoggedGrows(s.log, e, c, |s.log|); }
      forall j, c | 0 <= j < |log| && log[j].it.live && c in s.issued && c.ticket < log[j].it.ticket ensures Logged(log, c, j) {
        LoggedGrows(s.log, e, c, j);
        if j < |s.log| { assert log[j] == s.log[j]; }
      }
    }
  }

  lemma TakeControlFirst(s: State, step: Step)
    requires Phases(s) && ControlFirst(s) && Enabled(s, step)
    requires step.TakeControl? || step.LookControl? || step.LookAgain?
    ensures ControlFirst(Next(s, step))
  {
    if s.control != [] {
      assert s.control == [s.control[0]] + s.control[1..];
    }
  }

  lemma EnqueueControlFirst(s: State, step: Step)
    requires Phases(s) && LiveInOrder(s) && ControlFirst(s) && step.Enqueue?
    requires Enabled(s, step)
    ensures ControlFirst(Next(s, step))
  {
    forall j | 0 <= j < |s.log| && s.log[j].it.live ensures s.log[j].it.ticket < s.clock {
      var k := LiveOfHas(s.log, j);
      assert AllLive(s)[k] == s.log[j].it;
    }
    if s.pc.Encoding? && s.pc.it.live {
      assert AllLive(s)[|LiveOf(s.log)|] == s.pc.it;
    }
  }

  lemma ControlFirstKept(s: State, step: Step)
    requires Phases(s) && LiveInOrder(s) && ControlFirst(s) && Enabled(s, step)
    ensures ControlFirst(Next(s, step))
  {
    match step
    case Encode(sent, fatal, flushFails) => EncodeControlFirst(s, sent, fatal, flushFails);
    case Enqueue(_, _) => EnqueueControlFirst(s, step);
    case TakeControl => TakeControlFirst(s, step);
    case LookControl => TakeControlFirst(s, step);
    case LookAgain => TakeControlFirst(s, step);
    case _ =>
  }

  /** A parked writer with work has been or is being woken, and the queue stays within its bound and one more. */
  ghost predicate Awake(s: State) {
    && (s.pc.Parked? && s.connackSent && s.outbound != [] ==> s.token || s.signalling > 0)
    && |s.outbound| + (if s.pc.Recheck? then 1 else 0) <= s.max + 1
  }

  lemma AwakeKept(s: State, step: Step)
    requires Awake(s) && Enabled(s, step)
    ensures Awake(Next(s, step))
  {
  }

  ghost predicate IsRun(states: seq<State>, steps: seq<Step>) {
    && |states| == |steps| + 1 && Initial(states[0])
    && forall k :: 0 <= k < |steps| ==> Enabled(states[k], steps[k]) && states[k + 1] == Next(states[k], steps[k])
  }

  lemma {:induction false} RunKeeps(states: seq<State>, steps: seq<Step>, k: nat)
    requires IsRun(states, steps) && k < |states|
    ensures Phases(states[k]) && LiveInOrder(states[k]) && ControlFirst(states[k]) && Awake(states[k])
  {
    if k > 0 {
      RunKeeps(states, steps, k - 1);
      PhasesKept(states[k - 1], steps[k - 1]);
      LiveOrderKept(states[k - 1], steps[k - 1]);
      ControlFirstKept(states[k - 1], steps[k - 1]);
      AwakeKept(states[k - 1], steps[k - 1]);
    }
  }

  /**
   In every interleaving, for a live publish p encoded as number j: every control packet
   queued before p was pushed is encoded before it, the CONNACK was written before it, live
   publishes go in push order, and a closing packet is the last one encoded.
   */
  lemma PlacesKept(states: seq<State>, steps: seq<Step>, k: nat, j: nat)
    requires IsRun(states, steps) && k < |states| && j < |states[k].log|
    ensures var s := states[k]; s.log[j].it.live ==>
      && (forall c :: c in s.issued && c.ticket < s.log[j].it.ticket ==> Logged(s.log, c, j))
      && Connected(s.log, j)
      && (forall i :: 0 <= i < j && s.log[i].it.live ==> s.log[i].it.ticket < s.log[j].it.ticket)
    ensures states[k].log[j].it.closeAfter ==> j == |states[k].log| - 1
  {
    RunKeeps(states, steps, k);
    var s := states[k];
    assert AllLive(s)[..|LiveOf(s.log)|] == LiveOf(s.log);
    forall i | 0 <= i < j && s.log[i].it.live && s.log[j].it.live ensures s.log[i].it.ticket < s.log[j].it.ticket {
      LiveOfOrder(s.log, i, j);
    }
  }

  /**
   A writer parked after the CONNACK with packets queued has a wake-up token, unless a pusher
   is between its append and its signal; and the queue never exceeds its maximum by more
   than the one packet put back.
   */
  lemma NoLostWakeup(states: seq<State>, steps: seq<Step>, k: nat)
    requires IsRun(states, steps) && k < |states|
    ensures var s := states[k]; s.pc.Parked? && s.connackSent && s.outbound != [] ==> s.token || s.signalling > 0
    ensures |states[k].outbound| <= states[k].max + 1
  {
    RunKeeps(states, steps, k);
  }
}
