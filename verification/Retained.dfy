/**
 Bookkeeping of retained replica values: what waits for the next flush of its source, what a
 running flush is writing, and which of those topics a local write has overtaken.
 */
module Retained {
  /** A retained value; an empty payload deletes it. */
  datatype Msg = Msg(topic: string, payload: string)

  type Pending = map<string, map<string, Msg>>

  /** pending: source -> topic -> last value; flushing: topic -> flushes writing it. */
  datatype Book = Book(pending: Pending, flushing: map<string, int>, newer: set<string>, active: int)

  predicate PendingAt(p: Pending, src: string, t: string) { src in p && t in p[src] }

  predicate PendingTopic(p: Pending, t: string) { exists src | src in p :: PendingAt(p, src, t) }

  function Pairs(p: Pending): set<(string, string)> {
    set src, t | src in p && t in p[src] :: (src, t)
  }

  /** Sources other than keep with a waiting value of t. */
  function Holders(p: Pending, t: string, keep: set<string>): set<string> {
    set src | src in p && src !in keep && t in p[src]
  }

  function DropTopic(p: Pending, t: string, keep: set<string>): Pending {
    map src | src in p :: if src in keep then p[src] else p[src] - {t}
  }

  function Of(p: Pending, src: string): map<string, Msg> { if src in p then p[src] else map[] }

  /** A replica replaces the values of its topic waiting under any source. */
  function Add(b: Book, source: string, msg: Msg): Book {
    var t := msg.topic;
    var p := DropTopic(b.pending, t, {source});
    var gained := if t in Of(p, source) then 0 else 1;
    b.(pending := p[source := Of(p, source)[t := msg]], active := b.active - |Holders(b.pending, t, {source})| + gained)
  }

  /** A local write drops every waiting value of its topic and marks a running flush of it as overtaken. */
  function Supersede(b: Book, t: string): Book {
    b.(pending := DropTopic(b.pending, t, {}),
       newer := if t in b.flushing && b.flushing[t] > 0 then b.newer + {t} else b.newer,
       active := b.active - |Holders(b.pending, t, {})|)
  }

  function Take(b: Book, source: string): Book {
    var m := Of(b.pending, source);
    if m == map[] then b
    else b.(pending := b.pending - {source},
            flushing := map t | t in b.flushing.Keys + m.Keys ::
              (if t in b.flushing then b.flushing[t] else 0) + (if t in m then 1 else 0))
  }

  function Requeued(b: Book, m: map<string, Msg>, failed: Msg -> bool): map<string, Msg> {
    map t | t in m && failed(m[t]) && t !in b.newer && !PendingTopic(b.pending, t) :: m[t]
  }

  /** The flush counts once the topics of ts are written. */
  function Unflushed(flushing: map<string, int>, ts: set<string>): map<string, int> {
    map t | t in flushing && (t in ts ==> flushing[t] > 1) :: flushing[t] - (if t in ts then 1 else 0)
  }

  function Unmarked(newer: set<string>, ts: set<string>, flushing: map<string, int>): set<string> {
    set t | t in newer && (t in ts ==> t in flushing)
  }

  /** The end of a flush: failed values go back unless a newer value of the topic is known. */
  function Done(b: Book, source: string, m: map<string, Msg>, failed: Msg -> bool): Book {
    var flushing := Unflushed(b.flushing, m.Keys);
    var again := Requeued(b, m, failed);
    Book(Merged(b.pending, source, again), flushing, Unmarked(b.newer, m.Keys, flushing), b.active - (|m| - |again|))
  }

  /** One source per topic; the counter is exact; only topics being flushed are overtaken. */
  ghost predicate Valid(b: Book) {
    && (forall s, r, t :: PendingAt(b.pending, s, t) && PendingAt(b.pending, r, t) ==> s == r)
    && (forall s, t :: PendingAt(b.pending, s, t) ==> b.pending[s][t].topic == t)
    && (forall t :: t in b.flushing ==> b.flushing[t] == 1)
    && b.newer <= b.flushing.Keys
    && b.active == |Pairs(b.pending)| + |b.flushing|
  }

  lemma AtMostOne(p: Pending, t: string, keep: set<string>)
    requires forall s, r, u :: PendingAt(p, s, u) && PendingAt(p, r, u) ==> s == r
    ensures |Holders(p, t, keep)| <= 1
    ensures forall s :: s in Holders(p, t, keep) ==> Holders(p, t, keep) == {s}
  {
    var h := Holders(p, t, keep);
    if h != {} {
      var s :| s in h;
      assert forall r :: r in h ==> PendingAt(p, r, t) && PendingAt(p, s, t);
      assert h == {s};
    }
  }

  /** Dropping a topic removes as many waiting values as it has other holders. */
  lemma DropCount(p: Pending, t: string, keep: set<string>)
    requires forall s, r, u :: PendingAt(p, s, u) && PendingAt(p, r, u) ==> s == r
    ensures |Pairs(DropTopic(p, t, keep))| == |Pairs(p)| - |Holders(p, t, keep)|
  {
    AtMostOne(p, t, keep);
    var q := DropTopic(p, t, keep);
    if Holders(p, t, keep) == {} {
      assert forall src :: src in p ==> t !in p[src] || src in keep by {
        assert forall src :: src in p && src !in keep && t in p[src] ==> src in Holders(p, t, keep);
      }
      assert Pairs(q) == Pairs(p);
    } else {
      var s :| s in Holders(p, t, keep);
      assert Pairs(q) == Pairs(p) - {(s, t)} by {
        assert forall src :: src in p && src !in keep && t in p[src] ==> src in Holders(p, t, keep);
      }
      assert (s, t) in Pairs(p);
    }
  }

  lemma PairsAre(p: Pending)
    ensures forall s, t :: (s, t) in Pairs(p) <==> PendingAt(p, s, t)
  {
  }

  lemma SetOneCount(p: Pending, source: string, msg: Msg)
    ensures |Pairs(p[source := Of(p, source)[msg.topic := msg]])|
         == |Pairs(p)| + (if msg.topic in Of(p, source) then 0 else 1)
  {
    var q := p[source := Of(p, source)[msg.topic := msg]];
    PairsAre(p);
    PairsAre(q);
    forall x: (string, string) ensures x in Pairs(q) <==> x in Pairs(p) + {(source, msg.topic)} {
      assert x == (x.0, x.1);
    }
    assert Pairs(q) == Pairs(p) + {(source, msg.topic)};
    assert (source, msg.topic) in Pairs(p) <==> msg.topic in Of(p, source);
  }

  /** What waits after a replica arrived. */
  lemma AddAt(b: Book, source: string, msg: Msg, s: string, t: string)
    requires PendingAt(Add(b, source, msg).pending, s, t)
    ensures if t == msg.topic then s == source && Add(b, source, msg).pending[s][t] == msg
            else PendingAt(b.pending, s, t) && Add(b, source, msg).pending[s][t] == b.pending[s][t]
  {
  }

  lemma AddCount(b: Book, source: string, msg: Msg)
    requires Valid(b)
    ensures Add(b, source, msg).active == |Pairs(Add(b, source, msg).pending)| + |b.flushing|
  {
    DropCount(b.pending, msg.topic, {source});
    SetOneCount(DropTopic(b.pending, msg.topic, {source}), source, msg);
  }

  lemma AddValid(b: Book, source: string, msg: Msg)
    requires Valid(b)
    ensures Valid(Add(b, source, msg))
  {
    AddCount(b, source, msg);
    var p := Add(b, source, msg).pending;
    forall s, t | PendingAt(p, s, t) ensures p[s][t].topic == t { AddAt(b, source, msg, s, t); }
    forall s, r, t | PendingAt(p, s, t) && PendingAt(p, r, t) ensures s == r {
      AddAt(b, source, msg, s, t);
      AddAt(b, source, msg, r, t);
    }
  }

  lemma SupersedeValid(b: Book, t: string)
    requires Valid(b)
    ensures Valid(Supersede(b, t)) && !PendingTopic(Supersede(b, t).pending, t)
  {
    DropCount(b.pending, t, {});
    var p := Supersede(b, t).pending;
    forall s, u | PendingAt(p, s, u) ensures PendingAt(b.pending, s, u) && u != t {}
  }

  lemma TakeValid(b: Book, source: string)
    requires Valid(b) && b.flushing == map[]
    ensures Valid(Take(b, source))
    ensures Take(b, source).flushing.Keys == Of(b.pending, source).Keys
  {
    var m, u := Of(b.pending, source), Take(b, source);
    if m != map[] {
      PairsOfSource(b.pending, source);
      assert u.flushing.Keys == m.Keys;
      forall s, t | PendingAt(u.pending, s, t) ensures PendingAt(b.pending, s, t) {}
    }
  }

  /** A source's waiting values are as many as its topics. */
  lemma PairsOfSource(p: Pending, source: string)
    requires source in p
    ensures |Pairs(p - {source})| == |Pairs(p)| - |p[source]|
  {
    var mine := Under(source, p[source].Keys);
    assert Pairs(p) == Pairs(p - {source}) + mine;
    assert Pairs(p - {source}) !! mine;
    PairCount(source, p[source].Keys);
  }

  lemma {:induction false} PairCount(source: string, ts: set<string>)
    ensures |Under(source, ts)| == |ts|
  {
    if ts != {} {
      var t :| t in ts;
      PairCount(source, ts - {t});
      assert Under(source, ts) == Under(source, ts - {t}) + {(source, t)};
    }
  }

  /** Values put back under source. */
  function Merged(p: Pending, source: string, again: map<string, Msg>): Pending {
    if again == map[] then p else p[source := Of(p, source) + again]
  }

  lemma MergedAt(p: Pending, source: string, again: map<string, Msg>)
    ensures forall s, t :: PendingAt(Merged(p, source, again), s, t) <==> PendingAt(p, s, t) || (s == source && t in again)
    ensures forall s, t :: PendingAt(Merged(p, source, again), s, t) ==>
              Merged(p, source, again)[s][t] == if s == source && t in again then again[t] else p[s][t]
  {
  }

  lemma MergedUnique(p: Pending, source: string, again: map<string, Msg>)
    requires forall s, r, t :: PendingAt(p, s, t) && PendingAt(p, r, t) ==> s == r
    requires forall s, t :: PendingAt(p, s, t) ==> t !in again
    ensures forall s, r, t :: PendingAt(Merged(p, source, again), s, t) && PendingAt(Merged(p, source, again), r, t) ==> s == r
  {
    MergedAt(p, source, again);
  }

  lemma DoneValid(b: Book, source: string, m: map<string, Msg>, failed: Msg -> bool)
    requires Valid(b) && b.flushing.Keys == m.Keys && forall t :: t in m ==> m[t].topic == t
    ensures Valid(Done(b, source, m, failed)) && Done(b, source, m, failed).flushing == map[]
  {
    var again := Requeued(b, m, failed);
    assert forall s, t :: PendingAt(b.pending, s, t) ==> PendingTopic(b.pending, t);
    MergedUnique(b.pending, source, again);
    MergedAt(b.pending, source, again);
    MergedCount(b.pending, source, again);
    DoneCounters(b, source, m, failed);
  }

  lemma DoneCounters(b: Book, source: string, m: map<string, Msg>, failed: Msg -> bool)
    requires Valid(b) && b.flushing.Keys == m.Keys
    ensures var u := Done(b, source, m, failed);
      && u.flushing == map[] && u.newer == {}
      && u.active == |Pairs(b.pending)| + |Requeued(b, m, failed)|
      && (Requeued(b, m, failed) == map[] ==> |Requeued(b, m, failed)| == 0)
  {
    assert |b.flushing| == |b.flushing.Keys| && |m| == |m.Keys|;
  }

  function Under(source: string, ts: set<string>): set<(string, string)> { set t | t in ts :: (source, t) }

  lemma PairIn(p: Pending, x: (string, string))
    ensures x in Pairs(p) <==> PendingAt(p, x.0, x.1)
  {
    assert x == (x.0, x.1);
  }

  lemma MergedPairs(p: Pending, source: string, again: map<string, Msg>)
    ensures Pairs(Merged(p, source, again)) == Pairs(p) + Under(source, again.Keys)
  {
    MergedAt(p, source, again);
    forall x: (string, string)
      ensures x in Pairs(Merged(p, source, again)) <==> x in Pairs(p) || x in Under(source, again.Keys)
    {
      PairIn(p, x);
      PairIn(Merged(p, source, again), x);
      assert x == (x.0, x.1);
    }
  }

  lemma MergedCount(p: Pending, source: string, again: map<string, Msg>)
    requires forall s, t :: PendingAt(p, s, t) ==> t !in again
    ensures |Pairs(Merged(p, source, again))| == |Pairs(p)| + |again|
  {
    MergedPairs(p, source, again);
    PairCount(source, again.Keys);
    forall x | x in Under(source, again.Keys) ensures x !in Pairs(p) { PairIn(p, x); }
    assert Pairs(p) !! Under(source, again.Keys);
  }

  /** The lock-free shortcut of a local write is safe: a zero counter means nothing waits and nothing is written. */
  lemma ZeroMeansIdle(b: Book)
    requires Valid(b) && b.active == 0
    ensures b.flushing == map[] && forall t :: !PendingTopic(b.pending, t)
  {
    assert |Pairs(b.pending)| == 0 && |b.flushing| == 0;
    PairsAre(b.pending);
  }
}
