/**
 The flush protocol of retained replicas: local writes, replicas of several sources and
 flushes that may fail, with every lock section and every store call one step.

 Retained writes of one topic are serialised (a stripe lock is held from the arrival of a
 value to the end of its handling), and local store writes succeed. A failing store call of a
 flush may have written any part of its batch.
 */
module RetainedFlush {
  import opened Retained

  /** A local write in progress: arrived, waiting for a flush of its topic, or about to be stored. */
  datatype Local = Arrived(msg: Msg) | Waiting(msg: Msg) | Ready(msg: Msg)

  /** The running flush; flushes hold a lock, so there is at most one. */
  datatype Flush =
    | Idle
    | Taken(source: string, batch: map<string, Msg>)
    | SetsWritten(source: string, batch: map<string, Msg>, setsFailed: bool)
    | Written(source: string, batch: map<string, Msg>, setsFailed: bool, delsFailed: bool)

  type Store = map<string, Msg>

  /** last: the value of each topic that arrived last. */
  datatype Sys = Sys(book: Book, flush: Flush, store: Store, locals: map<string, Local>, last: map<string, Msg>)

  datatype Step =
    | LocalArrives(msg: Msg)
    | LocalShortcut(t: string)
    | LocalSupersedes(t: string)
    | LocalWakes(t: string)
    | LocalStores(t: string)
    | ReplicaArrives(source: string, msg: Msg)
    | FlushTakes(source: string)
    | FlushSets(ok: bool, part: set<string>)
    | FlushDels(ok: bool, part: set<string>)
    | FlushEnds

  function Write(store: Store, msg: Msg): Store {
    if msg.payload == "" then store - {msg.topic} else store[msg.topic := msg]
  }

  predicate Holds(store: Store, msg: Msg) {
    if msg.payload == "" then msg.topic !in store else msg.topic in store && store[msg.topic] == msg
  }

  predicate IsDel(m: Msg) { m.payload == "" }

  function Batch(f: Flush): map<string, Msg> { if f.Idle? then map[] else f.batch }

  /** The part of a batch one store call reaches: all of it, or some of it when the call fails. */
  function Reached(batch: map<string, Msg>, dels: bool, ok: bool, part: set<string>): set<string> {
    set t | t in batch && IsDel(batch[t]) == dels && (ok || t in part)
  }

  /** AddAll and DelAll. */
  function WriteBatch(store: Store, batch: map<string, Msg>, ts: set<string>): Store {
    map t | t in store.Keys + batch.Keys && (if t in ts && t in batch then !IsDel(batch[t]) else t in store) ::
      if t in ts && t in batch then batch[t] else store[t]
  }

  /** The retry test FlushReplicas passes to done. */
  function FailedTest(setsFailed: bool, delsFailed: bool): Msg -> bool {
    (m: Msg) => if m.payload == "" then delsFailed else setsFailed
  }

  predicate Enabled(s: Sys, step: Step) {
    match step
    case LocalArrives(msg) => msg.topic !in s.locals
    case LocalShortcut(t) => t in s.locals && s.locals[t].Arrived? && s.book.active == 0
    case LocalSupersedes(t) => t in s.locals && s.locals[t].Arrived?
    case LocalWakes(t) => t in s.locals && s.locals[t].Waiting? && t !in s.book.flushing
    case LocalStores(t) => t in s.locals && s.locals[t].Ready?
    case ReplicaArrives(_, msg) => msg.topic !in s.locals
    case FlushTakes(_) => s.flush.Idle?
    case FlushSets(_, _) => s.flush.Taken?
    case FlushDels(_, _) => s.flush.SetsWritten?
    case FlushEnds => s.flush.Written?
  }

  function Next(s: Sys, step: Step): Sys
    requires Enabled(s, step)
  {
    match step
    case LocalArrives(msg) => s.(locals := s.locals[msg.topic := Arrived(msg)], last := s.last[msg.topic := msg])
    case LocalShortcut(t) => s.(locals := s.locals[t := Ready(s.locals[t].msg)])
    case LocalSupersedes(t) =>
      s.(book := Supersede(s.book, t),
         locals := s.locals[t := if t in s.book.flushing then Waiting(s.locals[t].msg) else Ready(s.locals[t].msg)])
    case LocalWakes(t) => s.(locals := s.locals[t := Ready(s.locals[t].msg)])
    case LocalStores(t) => s.(store := Write(s.store, s.locals[t].msg), locals := s.locals - {t})
    case ReplicaArrives(source, msg) => s.(book := Add(s.book, source, msg), last := s.last[msg.topic := msg])
    case FlushTakes(source) =>
      var m := Of(s.book.pending, source);
      s.(book := Take(s.book, source), flush := if m == map[] then Idle else Taken(source, m))
    case FlushSets(ok, part) =>
      var b := s.flush.batch;
      s.(store := WriteBatch(s.store, b, Reached(b, false, ok, part)), flush := SetsWritten(s.flush.source, b, !ok))
    case FlushDels(ok, part) =>
      var b := s.flush.batch;
      s.(store := WriteBatch(s.store, b, Reached(b, true, ok, part)), flush := Written(s.flush.source, b, s.flush.setsFailed, !ok))
    case FlushEnds =>
      var Written(source, b, setsFailed, delsFailed) := s.flush;
      s.(book := Done(s.book, source, b, FailedTest(setsFailed, delsFailed)), flush := Idle)
  }

  /** The batch value of t is in the store for good. */
  predicate Landed(f: Flush, t: string)
    requires t in Batch(f)
  {
    match f
    case Taken(_, _) => false
    case SetsWritten(_, b, setsFailed) => !IsDel(b[t]) && !setsFailed
    case Written(_, b, setsFailed, delsFailed) => if IsDel(b[t]) then !delsFailed else !setsFailed
  }

  ghost predicate Shape(s: Sys) {
    && Valid(s.book) && s.book.flushing.Keys == Batch(s.flush).Keys
    && (forall t :: t in Batch(s.flush) ==> Batch(s.flush)[t].topic == t)
    && (forall t :: t in s.last ==> s.last[t].topic == t)
    && (forall t :: t in s.locals ==> t in s.last && s.locals[t].msg == s.last[t])
  }

  /** Where a topic's last value is. */
  ghost predicate TopicOk(s: Sys, t: string) {
    var batch := Batch(s.flush);
    && (t in batch && Landed(s.flush, t) ==> Holds(s.store, batch[t]))
    && (if t in s.locals then
          && (s.locals[t].Waiting? ==> t in batch ==> t in s.book.newer)
          && (s.locals[t].Ready? ==> t !in batch)
          && (!s.locals[t].Arrived? ==> !PendingTopic(s.book.pending, t))
        else
          && t !in s.book.newer
          && (forall src :: PendingAt(s.book.pending, src, t) ==> t in s.last && s.book.pending[src][t] == s.last[t])
          && (!PendingTopic(s.book.pending, t) && t in batch ==> t in s.last && batch[t] == s.last[t])
          && (!PendingTopic(s.book.pending, t) && t !in batch && t in s.last ==> Holds(s.store, s.last[t])))
  }

  ghost predicate Inv(s: Sys) { Shape(s) && forall t :: TopicOk(s, t) }

  /** Waiting values of t are the same. */
  ghost predicate SamePending(p: Pending, q: Pending, t: string) {
    forall src :: (PendingAt(q, src, t) <==> PendingAt(p, src, t)) && (PendingAt(q, src, t) ==> q[src][t] == p[src][t])
  }

  /** A topic whose surroundings did not change is still where it was. */
  lemma TopicFrame(s: Sys, u: Sys, t: string)
    requires TopicOk(s, t) && SamePending(s.book.pending, u.book.pending, t) && u.store == s.store
    requires t in u.locals <==> t in s.locals
    requires t in s.locals ==> u.locals[t] == s.locals[t]
    requires t in u.last <==> t in s.last
    requires t in s.last ==> u.last[t] == s.last[t]
    requires t in u.book.newer <==> t in s.book.newer
    requires t in Batch(u.flush) <==> t in Batch(s.flush)
    requires t in Batch(s.flush) ==> u.flush == s.flush
    ensures TopicOk(u, t)
  {
    assert PendingTopic(u.book.pending, t) <==> PendingTopic(s.book.pending, t) by {
      assert forall src :: PendingAt(u.book.pending, src, t) <==> PendingAt(s.book.pending, src, t);
    }
  }

  lemma LocalTopic(s: Sys, step: Step, t: string)
    requires TopicOk(s, t) && Enabled(s, step)
    requires step.LocalArrives? || step.LocalWakes? || step.LocalStores?
    requires step.LocalStores? ==> s.locals[step.t].msg.topic == step.t && step.t in s.last && s.locals[step.t].msg == s.last[step.t]
    requires step.LocalStores? && t != step.t ==> t in Batch(s.flush) ==> Batch(s.flush)[t].topic == t
    requires t in s.last ==> s.last[t].topic == t
    requires step.LocalWakes? ==> step.t !in Batch(s.flush)
    requires step.LocalStores? && t == step.t ==> t !in s.book.newer
    ensures TopicOk(Next(s, step), t)
  {
  }

  lemma LocalKeeps(s: Sys, step: Step)
    requires Inv(s) && Enabled(s, step)
    requires step.LocalArrives? || step.LocalWakes? || step.LocalStores?
    ensures Inv(Next(s, step))
  {
    forall t ensures TopicOk(Next(s, step), t) {
      assert TopicOk(s, t);
      LocalTopic(s, step, t);
    }
  }

  lemma ShortcutKeeps(s: Sys, t: string)
    requires Inv(s) && Enabled(s, LocalShortcut(t))
    ensures Inv(Next(s, LocalShortcut(t)))
  {
    ZeroMeansIdle(s.book);
    assert Batch(s.flush) == map[];
    forall x ensures TopicOk(Next(s, LocalShortcut(t)), x) {
      assert TopicOk(s, x);
    }
  }

  lemma SupersedeKeeps(s: Sys, t: string)
    requires Inv(s) && Enabled(s, LocalSupersedes(t))
    ensures Inv(Next(s, LocalSupersedes(t)))
  {
    var u := Next(s, LocalSupersedes(t));
    SupersedeValid(s.book, t);
    forall x ensures TopicOk(u, x) {
      assert TopicOk(s, x);
      if x != t { TopicFrame(s, u, x); }
    }
  }

  lemma AddedPending(b: Book, source: string, msg: Msg)
    ensures var p := Add(b, source, msg).pending;
      && PendingAt(p, source, msg.topic) && p[source][msg.topic] == msg
      && (forall src :: PendingAt(p, src, msg.topic) ==> src == source)
      && (forall x :: x != msg.topic ==> SamePending(b.pending, p, x))
  {
  }

  lemma ReplicaKeeps(s: Sys, source: string, msg: Msg)
    requires Inv(s) && Enabled(s, ReplicaArrives(source, msg))
    ensures Inv(Next(s, ReplicaArrives(source, msg)))
  {
    var u := Next(s, ReplicaArrives(source, msg));
    AddValid(s.book, source, msg);
    AddedPending(s.book, source, msg);
    forall x ensures TopicOk(u, x) {
      assert TopicOk(s, x);
      if x != msg.topic { TopicFrame(s, u, x); }
    }
  }

  lemma TakenTopic(s: Sys, source: string, x: string)
    requires TopicOk(s, x) && s.flush.Idle? && x in Of(s.book.pending, source)
    requires forall src :: PendingAt(s.book.pending, src, x) ==> src == source
    ensures TopicOk(Next(s, FlushTakes(source)), x)
  {
    assert PendingAt(s.book.pending, source, x);
    var p := Next(s, FlushTakes(source)).book.pending;
    assert forall src :: PendingAt(p, src, x) ==> PendingAt(s.book.pending, src, x);
    assert !PendingTopic(p, x);
  }

  lemma UntakenTopic(s: Sys, source: string, x: string)
    requires TopicOk(s, x) && s.flush.Idle? && x !in Of(s.book.pending, source)
    ensures TopicOk(Next(s, FlushTakes(source)), x)
  {
    var u := Next(s, FlushTakes(source));
    assert SamePending(s.book.pending, u.book.pending, x);
    TopicFrame(s, u, x);
  }

  lemma TakeShape(s: Sys, source: string)
    requires Shape(s) && Enabled(s, FlushTakes(source))
    ensures Shape(Next(s, FlushTakes(source)))
  {
    assert s.book.flushing == map[];
    TakeValid(s.book, source);
    assert forall t :: t in Of(s.book.pending, source) ==> PendingAt(s.book.pending, source, t);
  }

  lemma TakeKeeps(s: Sys, source: string)
    requires Inv(s) && Enabled(s, FlushTakes(source))
    ensures Inv(Next(s, FlushTakes(source)))
  {
    TakeShape(s, source);
    forall x ensures TopicOk(Next(s, FlushTakes(source)), x) {
      assert TopicOk(s, x);
      if x in Of(s.book.pending, source) {
        assert PendingAt(s.book.pending, source, x);
        TakenTopic(s, source, x);
      } else {
        UntakenTopic(s, source, x);
      }
    }
  }

  lemma BatchWritten(store: Store, batch: map<string, Msg>, ts: set<string>, m: Msg)
    requires forall t :: t in batch ==> batch[t].topic == t
    ensures m.topic in ts && m.topic in batch && batch[m.topic] == m ==> Holds(WriteBatch(store, batch, ts), m)
    ensures !(m.topic in ts && m.topic in batch) ==> (Holds(WriteBatch(store, batch, ts), m) <==> Holds(store, m))
  {
  }

  /** Writing part of the batch leaves a topic where it was, if it wrote what it should and nothing else. */
  lemma TopicWritten(s: Sys, u: Sys, x: string)
    requires TopicOk(s, x) && u == s.(store := u.store, flush := u.flush) && Batch(u.flush) == Batch(s.flush)
    requires x in Batch(u.flush) && Landed(u.flush, x) ==> Holds(u.store, Batch(s.flush)[x])
    requires x in s.last && x !in Batch(s.flush) ==> (Holds(u.store, s.last[x]) <==> Holds(s.store, s.last[x]))
    ensures TopicOk(u, x)
  {
  }

  lemma WriteTopic(s: Sys, step: Step, x: string)
    requires TopicOk(s, x) && Enabled(s, step) && (step.FlushSets? || step.FlushDels?)
    requires forall t :: t in Batch(s.flush) ==> Batch(s.flush)[t].topic == t
    requires x in s.last ==> s.last[x].topic == x
    ensures TopicOk(Next(s, step), x)
  {
    var b := s.flush.batch;
    var ts := Reached(b, step.FlushDels?, step.ok, step.part);
    if x in b { BatchWritten(s.store, b, ts, b[x]); }
    if x in s.last { BatchWritten(s.store, b, ts, s.last[x]); }
    TopicWritten(s, Next(s, step), x);
  }

  lemma WriteKeeps(s: Sys, step: Step)
    requires Inv(s) && Enabled(s, step) && (step.FlushSets? || step.FlushDels?)
    ensures Inv(Next(s, step))
  {
    forall x ensures TopicOk(Next(s, step), x) {
      assert TopicOk(s, x);
      WriteTopic(s, step, x);
    }
  }

  lemma RequeuedTopic(s: Sys, x: string)
    requires TopicOk(s, x) && s.flush.Written? && Next(s, FlushEnds).book.newer == {}
    requires x in Requeued(s.book, s.flush.batch, FailedTest(s.flush.setsFailed, s.flush.delsFailed))
    ensures TopicOk(Next(s, FlushEnds), x)
  {
    var again := Requeued(s.book, s.flush.batch, FailedTest(s.flush.setsFailed, s.flush.delsFailed));
    MergedAt(s.book.pending, s.flush.source, again);
    assert PendingAt(Next(s, FlushEnds).book.pending, s.flush.source, x);
  }

  lemma SettledTopic(s: Sys, x: string)
    requires TopicOk(s, x) && s.flush.Written? && Next(s, FlushEnds).book.newer == {}
    requires x !in Requeued(s.book, s.flush.batch, FailedTest(s.flush.setsFailed, s.flush.delsFailed))
    requires x in s.last ==> s.last[x].topic == x
    ensures TopicOk(Next(s, FlushEnds), x)
  {
    var u := Next(s, FlushEnds);
    var again := Requeued(s.book, s.flush.batch, FailedTest(s.flush.setsFailed, s.flush.delsFailed));
    MergedAt(s.book.pending, s.flush.source, again);
    assert PendingTopic(u.book.pending, x) <==> PendingTopic(s.book.pending, x) by {
      assert forall src :: PendingAt(u.book.pending, src, x) <==> PendingAt(s.book.pending, src, x);
    }
  }

  lemma DoneKeeps(s: Sys)
    requires Inv(s) && s.flush.Written?
    ensures Inv(Next(s, FlushEnds))
  {
    var failed := FailedTest(s.flush.setsFailed, s.flush.delsFailed);
    DoneValid(s.book, s.flush.source, s.flush.batch, failed);
    DoneCounters(s.book, s.flush.source, s.flush.batch, failed);
    forall x ensures TopicOk(Next(s, FlushEnds), x) {
      assert TopicOk(s, x);
      if x in Requeued(s.book, s.flush.batch, failed) { RequeuedTopic(s, x); } else { SettledTopic(s, x); }
    }
  }

  lemma StepKeeps(s: Sys, step: Step)
    requires Inv(s) && Enabled(s, step)
    ensures Inv(Next(s, step))
  {
    match step
    case LocalSupersedes(t) => SupersedeKeeps(s, t);
    case ReplicaArrives(source, msg) => ReplicaKeeps(s, source, msg);
    case FlushTakes(source) => TakeKeeps(s, source);
    case FlushSets(_, _) => WriteKeeps(s, step);
    case FlushDels(_, _) => WriteKeeps(s, step);
    case FlushEnds => DoneKeeps(s);
    case LocalShortcut(t) => ShortcutKeeps(s, t);
    case _ => LocalKeeps(s, step);
  }

  /** A new hook over any stored values. */
  predicate Initial(s: Sys) {
    s.book == Book(map[], map[], {}, 0) && s.flush.Idle? && s.locals == map[] && s.last == map[]
  }

  ghost predicate IsRun(states: seq<Sys>, steps: seq<Step>) {
    && |states| == |steps| + 1 && Initial(states[0])
    && forall k :: 0 <= k < |steps| ==> Enabled(states[k], steps[k]) && states[k + 1] == Next(states[k], steps[k])
  }

  lemma {:induction false} RunKeeps(states: seq<Sys>, steps: seq<Step>, k: nat)
    requires IsRun(states, steps) && k < |states|
    ensures Inv(states[k])
  {
    if k == 0 {
      assert Pairs(map[]) == {};
    } else {
      RunKeeps(states, steps, k - 1);
      StepKeeps(states[k - 1], steps[k - 1]);
    }
  }

  /**
   The newest arrival wins: in every interleaving, once nothing of a topic is waiting, being
   flushed or being written locally, the store holds the value that arrived last.
   */
  lemma NewestWins(states: seq<Sys>, steps: seq<Step>, k: nat, t: string)
    requires IsRun(states, steps) && k < |states|
    requires var s := states[k]; t in s.last && t !in s.locals && t !in Batch(s.flush) && !PendingTopic(s.book.pending, t)
    ensures Holds(states[k].store, states[k].last[t])
  {
    RunKeeps(states, steps, k);
    assert TopicOk(states[k], t);
  }

  /**
   In every reachable state a topic waits under at most one source, the counter is the
   number of waiting and flushing entries, and only flushing topics are marked as overtaken;
   so a counter of zero means that a local write has nothing to drop and nothing to wait for.
   */
  lemma BookkeepingExact(states: seq<Sys>, steps: seq<Step>, k: nat)
    requires IsRun(states, steps) && k < |states|
    ensures var b := states[k].book;
      && (forall s, r, t :: PendingAt(b.pending, s, t) && PendingAt(b.pending, r, t) ==> s == r)
      && b.active == |Pairs(b.pending)| + |b.flushing| && b.newer <= b.flushing.Keys
      && (b.active == 0 ==> b.flushing == map[] && forall t :: !PendingTopic(b.pending, t))
  {
    RunKeeps(states, steps, k);
    if states[k].book.active == 0 { ZeroMeansIdle(states[k].book); }
  }
}
