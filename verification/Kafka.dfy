/**
 The Kafka stream bridge: MQTT messages are buffered, grouped by stream and stored, and what a
 store refuses goes back to the front of a bounded buffer.
 */
module KafkaOrchestrator {
  import opened Wrappers

  const MAX_BUFFERED := 200000

  /** number: arrival from the bus, counted from 0. */
  datatype Msg = Msg(number: nat, topic: string)

  type Stream = nat

  /** The stream a topic is stored in, if any. */
  type Route = string -> Option<Stream>

  /** The messages of one stream, in order. */
  function OfStream(route: Route, msgs: seq<Msg>, st: Stream): seq<Msg> {
    if msgs == [] then []
    else OfStream(route, msgs[..|msgs| - 1], st) +
         (if route(msgs[|msgs| - 1].topic) == Some(st) then [msgs[|msgs| - 1]] else [])
  }

  lemma {:induction false} OfStreamConcat(route: Route, a: seq<Msg>, b: seq<Msg>, st: Stream)
    ensures OfStream(route, a + b, st) == OfStream(route, a, st) + OfStream(route, b, st)
  {
    if b == [] {
      assert a + b == a;
    } else {
      var init, last := b[..|b| - 1], b[|b| - 1];
      assert (a + b)[..|a + b| - 1] == a + init;
      OfStreamConcat(route, a, init, st);
    }
  }

  lemma {:induction false} OfStreamMembers(route: Route, msgs: seq<Msg>, st: Stream)
    ensures forall m :: m in OfStream(route, msgs, st) <==> m in msgs && route(m.topic) == Some(st)
    ensures |OfStream(route, msgs, st)| <= |msgs|
  {
    if msgs != [] {
      OfStreamMembers(route, msgs[..|msgs| - 1], st);
      assert msgs == msgs[..|msgs| - 1] + [msgs[|msgs| - 1]];
    }
  }

  lemma OfOne(route: Route, m: Msg, st: Stream)
    ensures OfStream(route, [m], st) == if route(m.topic) == Some(st) then [m] else []
  {
    assert [m][..|[m]| - 1] == [];
  }

  /** A stream's own messages, seen by itself and by another stream. */
  lemma {:induction false} OfStreamTwice(route: Route, msgs: seq<Msg>, st: Stream, other: Stream)
    ensures OfStream(route, OfStream(route, msgs, st), other) == if other == st then OfStream(route, msgs, st) else []
  {
    if msgs != [] {
      var init, last := msgs[..|msgs| - 1], msgs[|msgs| - 1];
      OfStreamTwice(route, init, st, other);
      if route(last.topic) == Some(st) {
        OfStreamConcat(route, OfStream(route, init, st), [last], other);
        OfOne(route, last, other);
      } else {
        assert OfStream(route, msgs, st) == OfStream(route, init, st);
      }
    }
  }

  lemma {:induction false} OfStreamCount(route: Route, msgs: seq<Msg>, st: Stream)
    ensures forall m :: multiset(OfStream(route, msgs, st))[m] == if route(m.topic) == Some(st) then multiset(msgs)[m] else 0
  {
    if msgs != [] {
      OfStreamCount(route, msgs[..|msgs| - 1], st);
      assert msgs == msgs[..|msgs| - 1] + [msgs[|msgs| - 1]];
    }
  }

  lemma SubMultiset(a: seq<Msg>, b: seq<Msg>)
    requires forall m :: multiset(a)[m] <= multiset(b)[m]
    ensures |a| <= |b|
  {
    assert multiset(b) == multiset(a) + (multiset(b) - multiset(a));
    assert |multiset(b)| == |multiset(a)| + |multiset(b) - multiset(a)|;
    assert |multiset(a)| == |a| && |multiset(b)| == |b|;
  }

  /** groupByStream: messages of no stream are left out. */
  method GroupByStream(route: Route, msgs: seq<Msg>) returns (out: map<Stream, seq<Msg>>)
    ensures forall st :: st in out <==> OfStream(route, msgs, st) != []
    ensures forall st :: st in out ==> out[st] == OfStream(route, msgs, st)
  {
    out := map[];
    for i := 0 to |msgs|
      invariant forall st :: st in out <==> OfStream(route, msgs[..i], st) != []
      invariant forall st :: st in out ==> out[st] == OfStream(route, msgs[..i], st)
    {
      assert msgs[..i + 1][..i] == msgs[..i];
      var st := route(msgs[i].topic);
      if st.Some? {
        out := out[st.value := (if st.value in out then out[st.value] else []) + [msgs[i]]];
      }
    }
    assert msgs[..|msgs|] == msgs;
  }

  /** The newest messages that fit. */
  function Trim(buf: seq<Msg>, cap: nat): seq<Msg> { if |buf| > cap then buf[|buf| - cap..] else buf }

  function Trimmed(buf: seq<Msg>, cap: nat): seq<Msg> { if |buf| > cap then buf[..|buf| - cap] else [] }

  /** onMessage makes room for one message and appends it. */
  function Push(buf: seq<Msg>, m: Msg): seq<Msg> { Trim(buf, MAX_BUFFERED - 1) + [m] }

  function LogOf(stored: map<Stream, seq<Msg>>, st: Stream): seq<Msg> { if st in stored then stored[st] else [] }

  function Append(stored: map<Stream, seq<Msg>>, st: Stream, msgs: seq<Msg>): map<Stream, seq<Msg>> {
    stored[st := LogOf(stored, st) + msgs]
  }

  class Orchestrator {
    var buf: seq<Msg>
    var stored: map<Stream, seq<Msg>>

    constructor ()
      ensures buf == [] && stored == map[]
    {
      buf, stored := [], map[];
    }

    method OnMessage(m: Msg)
      modifies this`buf
      ensures buf == Push(old(buf), m) && |buf| <= MAX_BUFFERED
    {
      if |buf| >= MAX_BUFFERED {
        var drop := |buf| - MAX_BUFFERED + 1;
        buf := buf[drop..];
      }
      buf := buf + [m];
    }

    method Take() returns (b: seq<Msg>)
      modifies this`buf
      ensures b == old(buf) && buf == []
    {
      b := buf;
      buf := [];
    }

    /** Failed messages go back to the front; the oldest fall off beyond the bound. */
    method PutBack(failed: seq<Msg>)
      modifies this`buf
      ensures buf == Trim(failed + old(buf), MAX_BUFFERED) && |buf| <= MAX_BUFFERED
    {
      buf := failed + buf;
      if |buf| > MAX_BUFFERED {
        buf := buf[|buf| - MAX_BUFFERED..];
      }
    }

    ghost function Log(st: Stream): seq<Msg>
      reads this
    {
      LogOf(stored, st)
    }

    /** The store calls of a flush, one per group in any order. */
    method StoreGroups(route: Route, batch: seq<Msg>, accepts: Stream -> bool) returns (failed: seq<Msg>)
      modifies this`stored
      ensures forall st :: Log(st) == if accepts(st) then old(Log(st)) + OfStream(route, batch, st) else old(Log(st))
      ensures forall st :: OfStream(route, failed, st) == if accepts(st) then [] else OfStream(route, batch, st)
      ensures |failed| <= |batch|
    {
      var groups := GroupByStream(route, batch);
      failed := [];
      var left := groups.Keys;
      NothingTried(route, batch, accepts, left, stored);
      while left != {}
        invariant left <= groups.Keys
        invariant StoredSoFar(route, batch, accepts, left, old(stored), stored)
        invariant FailedSoFar(route, batch, accepts, left, failed) && CountSoFar(route, batch, left, failed)
        decreases left
      {
        var st :| st in left;
        StoredStep(route, batch, accepts, left, old(stored), stored, st);
        FailedStep(route, batch, accepts, left, failed, st);
        CountStep(route, batch, left, failed, st);
        if accepts(st) {
          stored := Append(stored, st, groups[st]);
        } else {
          failed := failed + groups[st];
        }
        left := left - {st};
      }
      SubMultiset(failed, batch);
    }

    /** Messages that arrive one after the other. */
    method OnMessages(msgs: seq<Msg>)
      modifies this`buf
      ensures buf == PushAll(old(buf), msgs)
    {
      for i := 0 to |msgs|
        invariant buf == PushAll(old(buf), msgs[..i])
      {
        assert msgs[..i + 1][..i] == msgs[..i];
        OnMessage(msgs[i]);
      }
      assert msgs[..|msgs|] == msgs;
    }

    /**
     A flush, with the messages that arrive while its store calls run: each stream's messages are stored in
     order, or are put back in front of the new ones, unless cancelled. With room for all of them, that is
     what the buffer then holds of each stream.
     */
    method Flush(route: Route, accepts: Stream -> bool, cancelled: bool, arriving: seq<Msg>)
      requires |buf| <= MAX_BUFFERED
      modifies this
      ensures forall st :: Log(st) == if accepts(st) then old(Log(st)) + OfStream(route, old(buf), st) else old(Log(st))
      ensures |buf| <= MAX_BUFFERED
      ensures |old(buf)| + |arriving| <= MAX_BUFFERED ==> forall st ::
                OfStream(route, buf, st) == Kept(route, old(buf), accepts, cancelled, st) + OfStream(route, arriving, st)
    {
      var batch := Take();
      if batch == [] {
        OnMessages(arriving);
        NothingPushedOut(arriving);
        return;
      }
      var failed := StoreGroups(route, batch, accepts);
      OnMessages(arriving);
      PushedBound([], arriving);
      if |batch| + |arriving| <= MAX_BUFFERED {
        NothingPushedOut(arriving);
        forall st ensures OfStream(route, failed + arriving, st) == OfStream(route, failed, st) + OfStream(route, arriving, st) {
          OfStreamConcat(route, failed, arriving, st);
        }
      }
      if failed != [] && !cancelled {
        PutBack(failed);
      }
    }
  }

  /** What of a stream a flush leaves for the next one. */
  function Kept(route: Route, batch: seq<Msg>, accepts: Stream -> bool, cancelled: bool, st: Stream): seq<Msg> {
    if accepts(st) || cancelled then [] else OfStream(route, batch, st)
  }

  function PushAll(buf: seq<Msg>, msgs: seq<Msg>): seq<Msg> {
    if msgs == [] then buf else Push(PushAll(buf, msgs[..|msgs| - 1]), msgs[|msgs| - 1])
  }

  lemma {:induction false} PushedBound(buf: seq<Msg>, msgs: seq<Msg>)
    requires |buf| <= MAX_BUFFERED
    ensures |PushAll(buf, msgs)| <= MAX_BUFFERED
  {
    if msgs != [] { PushedBound(buf, msgs[..|msgs| - 1]); }
  }

  /** An empty buffer that need not drop anything holds what arrived. */
  lemma {:induction false} NothingPushedOut(msgs: seq<Msg>)
    ensures |msgs| <= MAX_BUFFERED ==> PushAll([], msgs) == msgs
    ensures |PushAll([], msgs)| <= MAX_BUFFERED
  {
    if msgs != [] {
      NothingPushedOut(msgs[..|msgs| - 1]);
      assert msgs == msgs[..|msgs| - 1] + [msgs[|msgs| - 1]];
    }
  }

  /** The failed messages once the groups outside left have been tried. */
  ghost predicate FailedSoFar(route: Route, batch: seq<Msg>, accepts: Stream -> bool, left: set<Stream>, failed: seq<Msg>) {
    forall st :: OfStream(route, failed, st) == if st !in left && !accepts(st) then OfStream(route, batch, st) else []
  }

  ghost predicate StoredSoFar(route: Route, batch: seq<Msg>, accepts: Stream -> bool, left: set<Stream>,
                              before: map<Stream, seq<Msg>>, now: map<Stream, seq<Msg>>) {
    forall st :: LogOf(now, st) ==
      if st !in left && accepts(st) then LogOf(before, st) + OfStream(route, batch, st) else LogOf(before, st)
  }

  ghost predicate CountSoFar(route: Route, batch: seq<Msg>, left: set<Stream>, failed: seq<Msg>) {
    forall m :: multiset(failed)[m] <= if forall st :: st in left ==> route(m.topic) != Some(st) then multiset(batch)[m] else 0
  }

  lemma NothingTried(route: Route, batch: seq<Msg>, accepts: Stream -> bool, left: set<Stream>, before: map<Stream, seq<Msg>>)
    requires forall st :: st in left <==> OfStream(route, batch, st) != []
    ensures StoredSoFar(route, batch, accepts, left, before, before)
    ensures FailedSoFar(route, batch, accepts, left, []) && CountSoFar(route, batch, left, [])
  {
    forall st | st !in left ensures LogOf(before, st) + OfStream(route, batch, st) == LogOf(before, st) {
    }
  }

  lemma StoredStep(route: Route, batch: seq<Msg>, accepts: Stream -> bool, left: set<Stream>,
                   before: map<Stream, seq<Msg>>, now: map<Stream, seq<Msg>>, st: Stream)
    requires StoredSoFar(route, batch, accepts, left, before, now) && st in left
    ensures StoredSoFar(route, batch, accepts, left - {st}, before,
                        if accepts(st) then Append(now, st, OfStream(route, batch, st)) else now)
  {
  }

  lemma FailedStep(route: Route, batch: seq<Msg>, accepts: Stream -> bool, left: set<Stream>, failed: seq<Msg>, st: Stream)
    requires FailedSoFar(route, batch, accepts, left, failed) && st in left
    ensures FailedSoFar(route, batch, accepts, left - {st}, if accepts(st) then failed else failed + OfStream(route, batch, st))
  {
    if !accepts(st) {
      var group := OfStream(route, batch, st);
      forall other ensures OfStream(route, failed + group, other) == if other == st then group else OfStream(route, failed, other) {
        assert other == st ==> OfStream(route, failed, other) == [];
        GroupAdded(route, batch, failed, st, other);
      }
    }
  }

  lemma GroupAdded(route: Route, batch: seq<Msg>, failed: seq<Msg>, st: Stream, other: Stream)
    requires other == st ==> OfStream(route, failed, other) == []
    ensures OfStream(route, failed + OfStream(route, batch, st), other) ==
            if other == st then OfStream(route, batch, st) else OfStream(route, failed, other)
  {
    OfStreamConcat(route, failed, OfStream(route, batch, st), other);
    OfStreamTwice(route, batch, st, other);
  }

  lemma CountStep(route: Route, batch: seq<Msg>, left: set<Stream>, failed: seq<Msg>, st: Stream)
    requires CountSoFar(route, batch, left, failed) && st in left
    ensures CountSoFar(route, batch, left - {st}, failed)
    ensures CountSoFar(route, batch, left - {st}, failed + OfStream(route, batch, st))
  {
    OfStreamCount(route, batch, st);
  }
}
