/**
 Every interleaving of arriving messages with the one flushing goroutine: the store calls of a
 flush run outside the lock, so messages arrive between any two of them.
 */
module KafkaRun {
  import opened KafkaOrchestrator
  import opened Wrappers

  /**
   topics[n] is the topic of the n-th message received; flight holds the groups of the running flush
   that still wait for their store call; dropped and lost record what the bound and a cancelled flush
   took away.
   */
  datatype State = State(buf: seq<Msg>, busy: bool, flight: map<Stream, seq<Msg>>, failed: seq<Msg>,
                         stored: map<Stream, seq<Msg>>, selfPub: set<string>,
                         topics: seq<string>, dropped: set<Msg>, lost: set<Msg>)

  datatype Step =
    | Arrive(topic: string, uuid: string)
    | Register(uuid: string)
    | Sweep(expired: set<string>)
    | TakeBuffer
    | StoreGroup(st: Stream, ok: bool)
    | FinishFlush(cancelled: bool)

  function Members(msgs: seq<Msg>): set<Msg> { set m | m in msgs }

  function StreamsOf(route: Route, msgs: seq<Msg>): set<Stream> {
    set m | m in msgs && route(m.topic).Some? :: route(m.topic).value
  }

  /** What groupByStream returns. */
  function Groups(route: Route, msgs: seq<Msg>): map<Stream, seq<Msg>> {
    map st | st in StreamsOf(route, msgs) :: OfStream(route, msgs, st)
  }

  predicate Enabled(s: State, a: Step) {
    match a
    case TakeBuffer => !s.busy
    case StoreGroup(st, ok) => s.busy && st in s.flight
    case FinishFlush(cancelled) => s.busy && s.flight == map[]
    case _ => true
  }

  function Arrived(s: State, topic: string): State {
    var m := Msg(|s.topics|, topic);
    s.(buf := Push(s.buf, m), topics := s.topics + [topic],
       dropped := s.dropped + Members(Trimmed(s.buf, MAX_BUFFERED - 1)))
  }

  function Finished(s: State, cancelled: bool): State {
    if s.failed == [] then s.(busy := false)
    else if cancelled then s.(busy := false, failed := [], lost := s.lost + Members(s.failed))
    else s.(busy := false, failed := [], buf := Trim(s.failed + s.buf, MAX_BUFFERED),
            dropped := s.dropped + Members(Trimmed(s.failed + s.buf, MAX_BUFFERED)))
  }

  function Next(route: Route, s: State, a: Step): State {
    match a
    case Arrive(topic, uuid) =>
      if uuid != "" && uuid in s.selfPub then s.(selfPub := s.selfPub - {uuid}) else Arrived(s, topic)
    case Register(uuid) => s.(selfPub := s.selfPub + {uuid})
    case Sweep(expired) => s.(selfPub := s.selfPub - expired)
    case TakeBuffer => if s.buf == [] then s else s.(busy := true, buf := [], flight := Groups(route, s.buf))
    case StoreGroup(st, ok) =>
      if st !in s.flight then s
      else if ok then s.(flight := s.flight - {st}, stored := Append(s.stored, st, s.flight[st]))
      else s.(flight := s.flight - {st}, failed := s.failed + s.flight[st])
    case FinishFlush(cancelled) => Finished(s, cancelled)
  }

  ghost predicate IsRun(route: Route, states: seq<State>, steps: seq<Step>) {
    && |states| == |steps| + 1
    && states[0] == State([], false, map[], [], map[], {}, [], {}, {})
    && forall i :: 0 <= i < |steps| ==> Enabled(states[i], steps[i]) && states[i + 1] == Next(route, states[i], steps[i])
  }

  predicate Received(topics: seq<string>, m: Msg) { m.number < |topics| && topics[m.number] == m.topic }

  ghost predicate From(topics: seq<string>, msgs: seq<Msg>) { forall m :: m in msgs ==> Received(topics, m) }

  predicate Increasing(msgs: seq<Msg>) { forall i, j :: 0 <= i < j < |msgs| ==> msgs[i].number < msgs[j].number }

  /** A stream's messages that are still somewhere, oldest first. */
  function Line(route: Route, s: State, st: Stream): seq<Msg> {
    LogOf(s.stored, st) + OfStream(route, s.failed, st) + LogOf(s.flight, st) + OfStream(route, s.buf, st)
  }

  /** A stream's line and the messages taken away account for everything received, in order. */
  ghost predicate Accounts(route: Route, st: Stream, topics: seq<string>, gone: set<Msg>, line: seq<Msg>) {
    && Increasing(line)
    && (forall m :: m in line ==> Received(topics, m) && route(m.topic) == Some(st) && m !in gone)
    && (forall m :: Received(topics, m) && route(m.topic) == Some(st) ==> m in line || m in gone)
  }

  ghost predicate Shape(s: State) {
    && |s.buf| <= MAX_BUFFERED
    && (!s.busy ==> s.flight == map[] && s.failed == [])
    && From(s.topics, s.buf) && From(s.topics, s.failed)
    && (forall m :: m in s.dropped || m in s.lost ==> Received(s.topics, m))
    && (forall st :: st in s.flight ==> From(s.topics, s.flight[st]))
  }

  ghost predicate Inv(route: Route, s: State, st: Stream) {
    && Shape(s)
    && Accounts(route, st, s.topics, s.dropped + s.lost, Line(route, s, st))
    && (st in s.flight ==> OfStream(route, s.failed, st) == [])
    && (forall m :: m in s.dropped && m in s.lost ==> route(m.topic) != Some(st))
  }

  lemma GroupsAre(route: Route, msgs: seq<Msg>, st: Stream)
    ensures LogOf(Groups(route, msgs), st) == OfStream(route, msgs, st)
  {
    OfStreamMembers(route, msgs, st);
    assert OfStream(route, msgs, st) != [] ==> OfStream(route, msgs, st)[0] in OfStream(route, msgs, st);
  }

  lemma AppendAccounts(route: Route, st: Stream, topics: seq<string>, gone: set<Msg>, line: seq<Msg>, topic: string)
    requires Accounts(route, st, topics, gone, line)
    requires forall m :: m in gone ==> Received(topics, m)
    ensures Accounts(route, st, topics + [topic], gone,
                     line + OfStream(route, [Msg(|topics|, topic)], st))
  {
    var m := Msg(|topics|, topic);
    OfOne(route, m, st);
    assert forall k :: k in line ==> Received(topics, k);
    assert forall k :: Received(topics + [topic], k) ==> k == m || Received(topics, k);
  }

  lemma DropIncreasing(a: seq<Msg>, b: seq<Msg>, c: seq<Msg>)
    requires Increasing(a + b + c)
    ensures Increasing(a + c)
    ensures forall m :: m in a + c ==> m !in b
  {
    var was, now := a + b + c, a + c;
    forall i, j | 0 <= i < j < |now| ensures now[i].number < now[j].number {
      assert now[i] == was[if i < |a| then i else i + |b|];
      assert now[j] == was[if j < |a| then j else j + |b|];
    }
    forall i, j | 0 <= i < |now| && 0 <= j < |b| ensures now[i] != b[j] {
      assert now[i] == was[if i < |a| then i else i + |b|];
      assert b[j] == was[|a| + j];
    }
  }

  /** Taking the middle of a line away. */
  lemma DropAccounts(route: Route, st: Stream, topics: seq<string>, gone: set<Msg>,
                     a: seq<Msg>, b: seq<Msg>, c: seq<Msg>, more: seq<Msg>)
    requires Accounts(route, st, topics, gone, a + b + c)
    requires b == OfStream(route, more, st)
    ensures Accounts(route, st, topics, gone + Members(more), a + c)
  {
    DropIncreasing(a, b, c);
    OfStreamMembers(route, more, st);
    assert forall m :: m in a + c ==> m in a + b + c;
    assert forall m :: m in a + b + c ==> m in a + c || m in b;
  }

  lemma TrimSplits(buf: seq<Msg>, cap: nat)
    ensures buf == Trimmed(buf, cap) + Trim(buf, cap) && |Trim(buf, cap)| <= cap
  {
  }

  /** Trimming the messages behind a line's front. */
  lemma TrimAccounts(route: Route, st: Stream, topics: seq<string>, gone: set<Msg>, front: seq<Msg>, whole: seq<Msg>, cap: nat)
    requires Accounts(route, st, topics, gone, front + OfStream(route, whole, st))
    ensures Accounts(route, st, topics, gone + Members(Trimmed(whole, cap)), front + OfStream(route, Trim(whole, cap), st))
  {
    var out, kept := Trimmed(whole, cap), Trim(whole, cap);
    TrimSplits(whole, cap);
    OfStreamConcat(route, out, kept, st);
    assert front + OfStream(route, whole, st) == front + OfStream(route, out, st) + OfStream(route, kept, st);
    DropAccounts(route, st, topics, gone, front, OfStream(route, out, st), OfStream(route, kept, st), out);
  }

  lemma PushOfStream(route: Route, st: Stream, front: seq<Msg>, buf: seq<Msg>, m: Msg)
    ensures front + OfStream(route, Push(buf, m), st) ==
            front + OfStream(route, Trim(buf, MAX_BUFFERED - 1), st) + OfStream(route, [m], st)
  {
    OfStreamConcat(route, Trim(buf, MAX_BUFFERED - 1), [m], st);
  }

  lemma PushAccounts(route: Route, st: Stream, topics: seq<string>, gone: set<Msg>, front: seq<Msg>, buf: seq<Msg>, topic: string)
    requires Accounts(route, st, topics, gone, front + OfStream(route, buf, st))
    requires From(topics, buf) && forall m :: m in gone ==> Received(topics, m)
    ensures Accounts(route, st, topics + [topic], gone + Members(Trimmed(buf, MAX_BUFFERED - 1)),
                     front + OfStream(route, Push(buf, Msg(|topics|, topic)), st))
  {
    TrimAccounts(route, st, topics, gone, front, buf, MAX_BUFFERED - 1);
    AppendAccounts(route, st, topics, gone + Members(Trimmed(buf, MAX_BUFFERED - 1)),
                   front + OfStream(route, Trim(buf, MAX_BUFFERED - 1), st), topic);
    PushOfStream(route, st, front, buf, Msg(|topics|, topic));
  }

  /** Everything of a stream that comes before the buffer. */
  function Front(route: Route, s: State, st: Stream): seq<Msg> {
    LogOf(s.stored, st) + OfStream(route, s.failed, st) + LogOf(s.flight, st)
  }

  lemma ArriveAccounts(route: Route, s: State, topic: string, st: Stream)
    requires Inv(route, s, st)
    ensures Accounts(route, st, s.topics + [topic], Arrived(s, topic).dropped + s.lost, Line(route, Arrived(s, topic), st))
  {
    PushAccounts(route, st, s.topics, s.dropped + s.lost, Front(route, s, st), s.buf, topic);
    var out := Members(Trimmed(s.buf, MAX_BUFFERED - 1));
    assert s.dropped + s.lost + out == (s.dropped + out) + s.lost;
  }

  lemma PutBackLine(route: Route, s: State, st: Stream)
    requires s.flight == map[] && s.failed != []
    ensures Line(route, s, st) == LogOf(s.stored, st) + OfStream(route, s.failed + s.buf, st)
    ensures Line(route, Finished(s, false), st) == LogOf(s.stored, st) + OfStream(route, Trim(s.failed + s.buf, MAX_BUFFERED), st)
  {
    OfStreamConcat(route, s.failed, s.buf, st);
  }

  lemma PutBackAccounts(route: Route, s: State, st: Stream)
    requires Accounts(route, st, s.topics, s.dropped + s.lost, Line(route, s, st)) && s.flight == map[] && s.failed != []
    ensures var t := Finished(s, false); Accounts(route, st, t.topics, t.dropped + t.lost, Line(route, t, st))
  {
    var whole := s.failed + s.buf;
    PutBackLine(route, s, st);
    TrimAccounts(route, st, s.topics, s.dropped + s.lost, LogOf(s.stored, st), whole, MAX_BUFFERED);
    var out := Members(Trimmed(whole, MAX_BUFFERED));
    assert s.dropped + s.lost + out == (s.dropped + out) + s.lost;
  }

  lemma LoseAccounts(route: Route, s: State, st: Stream)
    requires Inv(route, s, st) && s.flight == map[] && s.failed != []
    ensures var t := Finished(s, true); Accounts(route, st, t.topics, t.dropped + t.lost, Line(route, t, st))
  {
    var t := Finished(s, true);
    var front, mine, back := LogOf(s.stored, st), OfStream(route, s.failed, st), OfStream(route, s.buf, st);
    assert Line(route, s, st) == front + mine + back;
    DropAccounts(route, st, s.topics, s.dropped + s.lost, front, mine, back, s.failed);
    assert Line(route, t, st) == front + back;
    assert s.dropped + s.lost + Members(s.failed) == s.dropped + (s.lost + Members(s.failed));
  }

  lemma TakeKeepsLine(route: Route, s: State, st: Stream)
    requires Shape(s) && !s.busy
    ensures Line(route, Next(route, s, TakeBuffer), st) == Line(route, s, st)
  {
    GroupsAre(route, s.buf, st);
  }

  lemma {:induction false} AllOfStream(route: Route, msgs: seq<Msg>, st: Stream, other: Stream)
    requires forall m :: m in msgs ==> route(m.topic) == Some(st)
    ensures OfStream(route, msgs, other) == if other == st then msgs else []
  {
    if msgs != [] {
      AllOfStream(route, msgs[..|msgs| - 1], st, other);
      assert msgs[|msgs| - 1] in msgs;
    }
  }

  lemma GroupOfStream(route: Route, s: State, st: Stream)
    requires Inv(route, s, st) && st in s.flight
    ensures forall m :: m in s.flight[st] ==> route(m.topic) == Some(st)
  {
    assert forall m :: m in LogOf(s.flight, st) ==> m in Line(route, s, st);
  }

  lemma StoredKeepsLine(route: Route, s: State, at: Stream, st: Stream)
    requires at in s.flight && OfStream(route, s.failed, at) == []
    ensures Line(route, Next(route, s, StoreGroup(at, true)), st) == Line(route, s, st)
  {
    var t := Next(route, s, StoreGroup(at, true));
    if st == at {
      assert LogOf(t.flight, st) == [] && LogOf(t.stored, st) == LogOf(s.stored, st) + s.flight[at];
      assert LogOf(s.stored, st) + [] == LogOf(s.stored, st);
    } else {
      assert LogOf(t.flight, st) == LogOf(s.flight, st) && LogOf(t.stored, st) == LogOf(s.stored, st);
    }
  }

  lemma FailedOfStream(route: Route, s: State, at: Stream, st: Stream)
    requires at in s.flight && OfStream(route, s.failed, at) == []
    requires forall m :: m in s.flight[at] ==> route(m.topic) == Some(at)
    ensures OfStream(route, s.failed + s.flight[at], st) == if st == at then s.flight[at] else OfStream(route, s.failed, st)
  {
    OfStreamConcat(route, s.failed, s.flight[at], st);
    AllOfStream(route, s.flight[at], at, st);
  }

  lemma FailedKeepsLine(route: Route, s: State, at: Stream, st: Stream)
    requires at in s.flight && OfStream(route, s.failed, at) == []
    requires forall m :: m in s.flight[at] ==> route(m.topic) == Some(at)
    ensures Line(route, Next(route, s, StoreGroup(at, false)), st) == Line(route, s, st)
  {
    FailedOfStream(route, s, at, st);
    var t := Next(route, s, StoreGroup(at, false));
    if st == at {
      EmptyMoves(LogOf(s.stored, st), s.flight[at], OfStream(route, s.buf, st));
    } else {
      assert LogOf(t.flight, st) == LogOf(s.flight, st);
    }
  }

  lemma EmptyMoves(a: seq<Msg>, b: seq<Msg>, c: seq<Msg>)
    ensures a + b + [] + c == a + [] + b + c
  {
    assert a + b + [] == a + b && a + [] == a;
  }

  lemma FromGrows(topics: seq<string>, topic: string, msgs: seq<Msg>)
    requires From(topics, msgs)
    ensures From(topics + [topic], msgs)
  {
    assert forall m :: Received(topics, m) ==> Received(topics + [topic], m);
  }

  lemma ArriveShape(s: State, topic: string)
    requires Shape(s)
    ensures Shape(Arrived(s, topic))
  {
    FromGrows(s.topics, topic, s.buf);
    FromGrows(s.topics, topic, s.failed);
    forall st | st in s.flight ensures From(s.topics + [topic], s.flight[st]) {
      FromGrows(s.topics, topic, s.flight[st]);
    }
  }

  lemma TakeShape(route: Route, s: State)
    requires Shape(s)
    ensures forall st :: st in Groups(route, s.buf) ==> From(s.topics, Groups(route, s.buf)[st])
  {
    forall st | st in Groups(route, s.buf) ensures From(s.topics, Groups(route, s.buf)[st]) {
      OfStreamMembers(route, s.buf, st);
    }
  }

  lemma FromBoth(topics: seq<string>, a: seq<Msg>, b: seq<Msg>)
    requires From(topics, a) && From(topics, b)
    ensures From(topics, a + b)
  {
  }

  lemma FinishShape(s: State, cancelled: bool)
    requires Shape(s) && s.flight == map[]
    ensures Shape(Finished(s, cancelled))
  {
    FromBoth(s.topics, s.failed, s.buf);
  }

  lemma ShapeKept(route: Route, s: State, a: Step)
    requires Shape(s) && Enabled(s, a)
    ensures Shape(Next(route, s, a))
  {
    match a
    case TakeBuffer => TakeShape(route, s);
    case StoreGroup(at, ok) => FromBoth(s.topics, s.failed, s.flight[at]);
    case FinishFlush(cancelled) => FinishShape(s, cancelled);
    case Arrive(topic, uuid) => ArriveShape(s, topic);
    case _ =>
  }

  /** A stream's messages in the buffer or among the failed are not gone. */
  lemma NotGone(route: Route, s: State, st: Stream, m: Msg)
    requires Inv(route, s, st) && route(m.topic) == Some(st) && (m in s.buf || m in s.failed)
    ensures m !in s.dropped && m !in s.lost
  {
    OfStreamMembers(route, s.buf, st);
    OfStreamMembers(route, s.failed, st);
    assert m in Line(route, s, st);
  }

  /** No message of a stream is recorded both as dropped and as lost. */
  lemma ApartKept(route: Route, s: State, a: Step, st: Stream)
    requires Inv(route, s, st) && Enabled(s, a)
    ensures forall m :: m in Next(route, s, a).dropped && m in Next(route, s, a).lost ==> route(m.topic) != Some(st)
  {
    var t := Next(route, s, a);
    forall m | m in t.dropped && m in t.lost ensures route(m.topic) != Some(st) {
      assert m in s.dropped || m in s.buf || m in s.failed;
      assert m in s.lost || m in s.failed;
      if route(m.topic) == Some(st) && (m in s.buf || m in s.failed) { NotGone(route, s, st, m); }
    }
  }

  lemma StepKeeps(route: Route, s: State, a: Step, st: Stream)
    requires Inv(route, s, st) && Enabled(s, a)
    requires a.StoreGroup? ==> Inv(route, s, a.st)
    ensures Inv(route, Next(route, s, a), st)
  {
    ShapeKept(route, s, a);
    ApartKept(route, s, a, st);
    LineKept(route, s, a, st);
  }

  lemma LineKept(route: Route, s: State, a: Step, st: Stream)
    requires Inv(route, s, st) && Enabled(s, a)
    requires a.StoreGroup? ==> Inv(route, s, a.st)
    ensures var t := Next(route, s, a);
            && Accounts(route, st, t.topics, t.dropped + t.lost, Line(route, t, st))
            && (st in t.flight ==> OfStream(route, t.failed, st) == [])
  {
    match a
    case Arrive(topic, uuid) => ArriveAccounts(route, s, topic, st);
    case Register(uuid) =>
    case Sweep(expired) =>
    case TakeBuffer => TakeKeepsLine(route, s, st);
    case StoreGroup(at, ok) =>
      GroupOfStream(route, s, at);
      FailedOfStream(route, s, at, st);
      if ok { StoredKeepsLine(route, s, at, st); } else { FailedKeepsLine(route, s, at, st); }
    case FinishFlush(cancelled) =>
      if s.failed == [] {
        assert Line(route, Finished(s, cancelled), st) == Line(route, s, st);
      } else if cancelled {
        LoseAccounts(route, s, st);
      } else {
        PutBackAccounts(route, s, st);
      }
  }

  lemma {:induction false} RunKeeps(route: Route, states: seq<State>, steps: seq<Step>, i: nat)
    requires IsRun(route, states, steps) && i < |states|
    ensures forall st :: Inv(route, states[i], st)
  {
    if i > 0 {
      RunKeeps(route, states, steps, i - 1);
      forall st ensures Inv(route, states[i], st) {
        StepKeeps(route, states[i - 1], steps[i - 1], st);
      }
    }
  }

  function One(b: bool): nat { if b then 1 else 0 }

  /** In how many of the places a message can be it is. */
  function Places(route: Route, s: State, st: Stream, m: Msg): nat {
    One(m in LogOf(s.stored, st)) + One(m in s.failed) + One(m in LogOf(s.flight, st)) + One(m in s.buf) +
    One(m in s.dropped) + One(m in s.lost)
  }

  lemma OncePerLine(a: seq<Msg>, f: seq<Msg>, g: seq<Msg>, b: seq<Msg>, m: Msg)
    requires Increasing(a + f + g + b)
    ensures One(m in a) + One(m in f) + One(m in g) + One(m in b) == One(m in a + f + g + b)
    ensures Increasing(a)
  {
    var line := a + f + g + b;
    assert forall i :: 0 <= i < |a| ==> a[i] == line[i];
    assert forall i :: 0 <= i < |f| ==> f[i] == line[|a| + i];
    assert forall i :: 0 <= i < |g| ==> g[i] == line[|a| + |f| + i];
    assert forall i :: 0 <= i < |b| ==> b[i] == line[|a| + |f| + |g| + i];
  }

  /**
   Conservation, over every run: a received message of a stream is in exactly one place, a stream's
   log holds only its received messages, in arrival order and hence each at most once, and the buffer
   stays within its bound.
   */
  lemma Conserved(route: Route, states: seq<State>, steps: seq<Step>, i: nat, st: Stream, m: Msg)
    requires IsRun(route, states, steps) && i < |states|
    ensures Received(states[i].topics, m) && route(m.topic) == Some(st) ==> Places(route, states[i], st, m) == 1
    ensures m in LogOf(states[i].stored, st) ==> Received(states[i].topics, m) && route(m.topic) == Some(st)
    ensures Increasing(LogOf(states[i].stored, st)) && |states[i].buf| <= MAX_BUFFERED
  {
    RunKeeps(route, states, steps, i);
    var s := states[i];
    assert Inv(route, s, st);
    OncePerLine(LogOf(s.stored, st), OfStream(route, s.failed, st), LogOf(s.flight, st), OfStream(route, s.buf, st), m);
    OfStreamMembers(route, s.failed, st);
    OfStreamMembers(route, s.buf, st);
    assert m in LogOf(s.stored, st) ==> m in Line(route, s, st);
  }

  /** What a step would leave in the buffer if it had no bound. */
  function Unbounded(s: State, a: Step): seq<Msg> {
    match a
    case Arrive(topic, uuid) => if uuid != "" && uuid in s.selfPub then s.buf else s.buf + [Msg(|s.topics|, topic)]
    case FinishFlush(cancelled) => if cancelled then s.buf else s.failed + s.buf
    case _ => s.buf
  }

  /** The message is among the oldest of a line, more than the bound from its end. */
  predicate TooOld(line: seq<Msg>, m: Msg) { exists p :: 0 <= p < |line| && line[p] == m && |line| - p > MAX_BUFFERED }

  lemma TrimmedAreOld(line: seq<Msg>, m: Msg)
    ensures m in Trimmed(line, MAX_BUFFERED) <==> TooOld(line, m)
  {
    if p :| 0 <= p < |line| && line[p] == m && |line| - p > MAX_BUFFERED {
      assert Trimmed(line, MAX_BUFFERED)[p] == m;
    }
  }

  lemma DropsAre(route: Route, s: State, a: Step, m: Msg)
    requires |s.buf| <= MAX_BUFFERED
    ensures m in Next(route, s, a).dropped <==> m in s.dropped || TooOld(Unbounded(s, a), m)
    ensures TooOld(Unbounded(s, a), m) ==> |Next(route, s, a).buf| == MAX_BUFFERED
  {
    var line := Unbounded(s, a);
    TrimmedAreOld(line, m);
    match a
    case Arrive(topic, uuid) =>
      if !(uuid != "" && uuid in s.selfPub) {
        assert Trimmed(line, MAX_BUFFERED) == Trimmed(s.buf, MAX_BUFFERED - 1);
      }
    case FinishFlush(cancelled) =>
      if s.failed == [] { assert s.failed + s.buf == s.buf; }
    case _ =>
  }

  /**
   Exactly when a message of a stream is dropped: with what the step adds, more than the bound lies from it
   to the end of the buffer; and the buffer is then full.
   */
  lemma DropsExactly(route: Route, states: seq<State>, steps: seq<Step>, i: nat, st: Stream, m: Msg)
    requires IsRun(route, states, steps) && i < |steps| && route(m.topic) == Some(st)
    ensures m in states[i + 1].dropped && m !in states[i].dropped <==> TooOld(Unbounded(states[i], steps[i]), m)
    ensures TooOld(Unbounded(states[i], steps[i]), m) ==> |states[i + 1].buf| == MAX_BUFFERED
  {
    RunKeeps(route, states, steps, i);
    var s := states[i];
    assert Inv(route, s, st);
    DropsAre(route, s, steps[i], m);
    if m in s.buf || m in s.failed { NotGone(route, s, st, m); }
    assert TooOld(Unbounded(s, steps[i]), m) ==> m in s.buf || m in s.failed || m.number >= |s.topics|;
  }

  /** Refused messages all belong to a stream. */
  lemma {:induction false} FailedRouted(route: Route, states: seq<State>, steps: seq<Step>, i: nat)
    requires IsRun(route, states, steps) && i < |states|
    ensures forall m :: m in states[i].failed ==> route(m.topic).Some?
  {
    if i > 0 {
      FailedRouted(route, states, steps, i - 1);
      var a, s := steps[i - 1], states[i - 1];
      if a.StoreGroup? {
        RunKeeps(route, states, steps, i - 1);
        GroupOfStream(route, s, a.st);
        assert forall m :: m in s.failed + s.flight[a.st] ==> m in s.failed || m in s.flight[a.st];
      }
    }
  }

  /** Exactly when a step loses messages: it ends a cancelled flush with refused ones. */
  lemma LosesExactly(route: Route, states: seq<State>, steps: seq<Step>, i: nat)
    requires IsRun(route, states, steps) && i < |steps|
    ensures states[i + 1].lost != states[i].lost <==> steps[i] == FinishFlush(true) && states[i].failed != []
  {
    var s := states[i];
    if steps[i] == FinishFlush(true) && s.failed != [] {
      var m := s.failed[0];
      FailedRouted(route, states, steps, i);
      RunKeeps(route, states, steps, i);
      NotGone(route, s, route(m.topic).value, m);
      assert m in states[i + 1].lost;
    }
  }

  /** Over whole runs a message is lost exactly when a cancelled flush ended with it refused. */
  lemma {:induction false} LostExactly(route: Route, states: seq<State>, steps: seq<Step>, i: nat, m: Msg)
    requires IsRun(route, states, steps) && i < |states|
    ensures m in states[i].lost <==> exists k :: 0 <= k < i && steps[k] == FinishFlush(true) && m in states[k].failed
  {
    if i > 0 {
      LostExactly(route, states, steps, i - 1, m);
      var k := i - 1;
      assert m in states[i].lost <==> m in states[k].lost || (steps[k] == FinishFlush(true) && m in states[k].failed);
    }
  }

  /** So nothing is lost exactly while every cancelled flush ended with nothing refused. */
  lemma NothingLost(route: Route, states: seq<State>, steps: seq<Step>, i: nat)
    requires IsRun(route, states, steps) && i < |states|
    ensures states[i].lost == {} <==> forall k :: 0 <= k < i && steps[k] == FinishFlush(true) ==> states[k].failed == []
  {
    if k :| 0 <= k < i && steps[k] == FinishFlush(true) && states[k].failed != [] {
      LostExactly(route, states, steps, i, states[k].failed[0]);
    } else {
      forall m ensures m !in states[i].lost { LostExactly(route, states, steps, i, m); }
    }
  }

  function Losing(topic: string, st: Stream, k: nat): State {
    var m, idle := Msg(0, topic), State([], false, map[], [], map[], {}, [topic], {}, {});
    match k
    case 0 => idle.(topics := [])
    case 1 => idle.(buf := [m])
    case 2 => idle.(busy := true, flight := map[st := [m]])
    case 3 => idle.(busy := true, failed := [m])
    case _ => idle.(lost := {m})
  }

  function LosingStep(topic: string, st: Stream, k: nat): Step {
    match k case 0 => Arrive(topic, "") case 1 => TakeBuffer case 2 => StoreGroup(st, false) case _ => FinishFlush(true)
  }

  lemma LosingNext(route: Route, topic: string, st: Stream, k: nat)
    requires route(topic) == Some(st) && k < 4
    ensures Enabled(Losing(topic, st, k), LosingStep(topic, st, k))
    ensures Next(route, Losing(topic, st, k), LosingStep(topic, st, k)) == Losing(topic, st, k + 1)
  {
    var m := Msg(0, topic);
    match k
    case 0 => assert Members([]) == {};
    case 1 =>
      OfOne(route, m, st);
      assert StreamsOf(route, [m]) == {st};
    case 2 => assert map[st := [m]] - {st} == map[];
    case _ => assert Members([m]) == {m};
  }

  /** A message of any stream is lost in four steps: it arrives, is taken, refused, and the flush is cancelled. */
  lemma CancelledFlushLoses(route: Route, topic: string, st: Stream) returns (states: seq<State>, steps: seq<Step>)
    requires route(topic) == Some(st)
    ensures IsRun(route, states, steps) && Received(states[|steps|].topics, Msg(0, topic))
    ensures var s := states[|steps|];
      s.lost == {Msg(0, topic)} && s.stored == map[] && s.buf == [] && s.failed == [] && s.flight == map[]
  {
    states := seq(5, k requires 0 <= k => Losing(topic, st, k));
    steps := seq(4, k requires 0 <= k => LosingStep(topic, st, k));
    forall k | 0 <= k < 4 ensures Enabled(states[k], steps[k]) && states[k + 1] == Next(route, states[k], steps[k]) {
      LosingNext(route, topic, st, k);
    }
  }
}
