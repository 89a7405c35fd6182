/**
 The replicaRetained object, method by method, and the split of a batch into sets and deletes.
 */
module ReplicaObject {
  import opened Retained

  class ReplicaRetained {
    var pending: Pending
    var flushing: map<string, int>
    var newer: set<string>
    var active: int

    ghost function View(): Book
      reads this
    {
      Book(pending, flushing, newer, active)
    }

    constructor ()
      ensures View() == Book(map[], map[], {}, 0) && Valid(View())
    {
      pending, flushing, newer, active := map[], map[], {}, 0;
      assert Pairs(map[]) == {};
    }

    /** The loop over all sources that drops the waiting values of t, except those of keep. */
    method DropOthers(t: string, keep: set<string>)
      modifies this`pending, this`active
      ensures pending == DropTopic(old(pending), t, keep)
      ensures active == old(active) - |Holders(old(pending), t, keep)|
    {
      var left := pending.Keys;
      NoHolders(pending, t, keep + left);
      while left != {}
        invariant left <= pending.Keys
        invariant pending == DropTopic(old(pending), t, keep + left)
        invariant active == old(active) - |Holders(old(pending), t, keep + left)|
        decreases left
      {
        var src :| src in left;
        var m := pending[src];
        HolderStep(old(pending), t, keep, left, src);
        if t in m && src !in keep {
          pending := pending[src := m - {t}];
          active := active - 1;
        }
        left := left - {src};
      }
      assert keep + left == keep;
    }

    method Add(source: string, msg: Msg)
      modifies this
      ensures View() == Retained.Add(old(View()), source, msg)
    {
      DropOthers(msg.topic, {source});
      var m := if source in pending then pending[source] else map[];
      if msg.topic !in m {
        active := active + 1;
      }
      pending := pending[source := m[msg.topic := msg]];
    }

    /** Drops what waits; the caller has to wait while the topic is being flushed. */
    method Supersede(topic: string) returns (mustWait: bool)
      requires Valid(View())
      modifies this
      ensures View() == Retained.Supersede(old(View()), topic) && Valid(View())
      ensures mustWait == (topic in flushing)
    {
      SupersedeValid(View(), topic);
      if active == 0 {
        ZeroMeansIdle(View());
        NothingToDrop(pending, topic);
        return false;
      }
      DropOthers(topic, {});
      if topic in flushing && flushing[topic] > 0 {
        newer := newer + {topic};
      }
      mustWait := topic in flushing && flushing[topic] > 0;
    }

    method Take(source: string) returns (m: map<string, Msg>)
      modifies this
      ensures View() == Retained.Take(old(View()), source) && m == Of(old(pending), source)
    {
      m := if source in pending then pending[source] else map[];
      if m == map[] {
        return;
      }
      pending := pending - {source};
      var left := m.Keys;
      while left != {}
        invariant left <= m.Keys && pending == old(pending) - {source} && newer == old(newer) && active == old(active)
        invariant flushing == map t | t in old(flushing).Keys + (m.Keys - left) ::
                    (if t in old(flushing) then old(flushing)[t] else 0) + (if t in m && t !in left then 1 else 0)
        decreases left
      {
        var t :| t in left;
        flushing := flushing[t := (if t in flushing then flushing[t] else 0) + 1];
        left := left - {t};
      }
    }

    /** The loop body of done: whether the value of t goes back. */
    method DoneTopic(source: string, t: string, msg: Msg, failed: bool) returns (again: bool)
      modifies this`pending, this`flushing, this`newer
      ensures flushing == if t in old(flushing) && old(flushing)[t] > 1 then old(flushing)[t := old(flushing)[t] - 1]
                          else old(flushing) - {t}
      ensures newer == if t in flushing then old(newer) else old(newer) - {t}
      ensures again == (failed && t !in old(newer) && !PendingTopic(old(pending), t))
      ensures pending == if again then old(pending)[source := Of(old(pending), source)[t := msg]] else old(pending)
    {
      if t in flushing && flushing[t] > 1 {
        flushing := flushing[t := flushing[t] - 1];
      } else {
        flushing := flushing - {t};
      }
      var superseded := t in newer;
      if t !in flushing {
        newer := newer - {t};
      }
      again := failed && !superseded && !PendingTopic(pending, t);
      if again {
        var p := if source in pending then pending[source] else map[];
        pending := pending[source := p[t := msg]];
      }
    }

    method Done(source: string, m: map<string, Msg>, failed: Msg -> bool)
      modifies this
      ensures View() == Retained.Done(old(View()), source, m, failed)
    {
      var requeued := 0;
      var left := m.Keys;
      ghost var b := old(View());
      DoneStarts(b, source, m, failed);
      while left != {}
        invariant left <= m.Keys && View() == PartlyDone(b, source, m, failed, left)
        invariant requeued == |Requeued(b, m, failed) - left|
        decreases left
      {
        var t :| t in left;
        DoneMarks(b, source, m, failed, left, t);
        DoneRequeues(b, source, m, failed, left, t);
        left := left - {t};
        var again := DoneTopic(source, t, m[t], failed(m[t]));
        if again {
          requeued := requeued + 1;
        }
      }
      DoneEnds(b, source, m, failed);
      active := active - (|m| - requeued);
    }
  }

  /** The state of done while the topics of left are still to be handled. */
  ghost function PartlyDone(b: Book, source: string, m: map<string, Msg>, failed: Msg -> bool, left: set<string>): Book {
    var flushing := Unflushed(b.flushing, m.Keys - left);
    Book(Merged(b.pending, source, Requeued(b, m, failed) - left), flushing, Unmarked(b.newer, m.Keys - left, flushing), b.active)
  }

  lemma DoneStarts(b: Book, source: string, m: map<string, Msg>, failed: Msg -> bool)
    ensures PartlyDone(b, source, m, failed, m.Keys) == b && Requeued(b, m, failed) - m.Keys == map[]
  {
    assert m.Keys - m.Keys == {};
    assert Unflushed(b.flushing, {}) == b.flushing;
    assert Unmarked(b.newer, {}, b.flushing) == b.newer;
  }

  /** Handling t takes it off the flush and clears its mark. */
  lemma DoneMarks(b: Book, source: string, m: map<string, Msg>, failed: Msg -> bool, left: set<string>, t: string)
    requires t in left && left <= m.Keys
    ensures var x, y := PartlyDone(b, source, m, failed, left), PartlyDone(b, source, m, failed, left - {t});
      && y.flushing == (if t in x.flushing && x.flushing[t] > 1 then x.flushing[t := x.flushing[t] - 1] else x.flushing - {t})
      && y.newer == (if t in y.flushing then x.newer else x.newer - {t})
      && (t in x.newer <==> t in b.newer)
  {
    var ts := m.Keys - left;
    assert m.Keys - (left - {t}) == ts + {t};
    UnflushMore(b.flushing, ts, t);
  }

  lemma UnflushMore(f: map<string, int>, ts: set<string>, t: string)
    requires t !in ts
    ensures var x := Unflushed(f, ts);
      Unflushed(f, ts + {t}) == if t in x && x[t] > 1 then x[t := x[t] - 1] else x - {t}
  {
  }

  lemma MergedMore(p: Pending, source: string, again: map<string, Msg>, t: string, msg: Msg)
    ensures var q := Merged(p, source, again);
      Merged(p, source, again[t := msg]) == q[source := Of(q, source)[t := msg]]
  {
    assert t in again[t := msg];
    assert Of(p, source) + again[t := msg] == (Of(p, source) + again)[t := msg];
    assert again == map[] ==> Of(p, source) + again == Of(p, source);
    var q, m := Merged(p, source, again), (Of(p, source) + again)[t := msg];
    assert q[source := m] == p[source := m];
  }

  /** The test made during the loop is the test on the state before it. */
  lemma RetryTest(b: Book, source: string, m: map<string, Msg>, failed: Msg -> bool, left: set<string>, t: string)
    requires t in left && t in m
    ensures t in Requeued(b, m, failed) <==>
            failed(m[t]) && t !in b.newer && !PendingTopic(Merged(b.pending, source, Requeued(b, m, failed) - left), t)
  {
    var done := Requeued(b, m, failed) - left;
    MergedAt(b.pending, source, done);
    SamePendingTopic(b.pending, Merged(b.pending, source, done), t);
  }

  /** Handling t puts it back exactly when its write failed and nothing newer is known. */
  lemma DoneRequeues(b: Book, source: string, m: map<string, Msg>, failed: Msg -> bool, left: set<string>, t: string)
    requires t in left && left <= m.Keys
    ensures var x, y := PartlyDone(b, source, m, failed, left), PartlyDone(b, source, m, failed, left - {t});
      var again := failed(m[t]) && t !in b.newer && !PendingTopic(x.pending, t);
      && y.pending == (if again then x.pending[source := Of(x.pending, source)[t := m[t]]] else x.pending)
      && |Requeued(b, m, failed) - (left - {t})| == |Requeued(b, m, failed) - left| + (if again then 1 else 0)
  {
    RetryTest(b, source, m, failed, left, t);
    var all := Requeued(b, m, failed);
    if t in all {
      assert all - (left - {t}) == (all - left)[t := m[t]];
      MergedMore(b.pending, source, all - left, t, m[t]);
    } else {
      assert all - (left - {t}) == all - left;
    }
  }

  lemma DoneEnds(b: Book, source: string, m: map<string, Msg>, failed: Msg -> bool)
    ensures PartlyDone(b, source, m, failed, {}) == Retained.Done(b, source, m, failed).(active := b.active)
    ensures Requeued(b, m, failed) - {} == Requeued(b, m, failed)
  {
    assert m.Keys - {} == m.Keys;
    assert Requeued(b, m, failed) - {} == Requeued(b, m, failed);
  }

  lemma NoHolders(p: Pending, t: string, keep: set<string>)
    requires p.Keys <= keep
    ensures DropTopic(p, t, keep) == p && Holders(p, t, keep) == {}
  {
  }

  lemma HolderStep(p: Pending, t: string, keep: set<string>, left: set<string>, src: string)
    requires src in left && src in p
    ensures Holders(p, t, keep + (left - {src})) ==
            Holders(p, t, keep + left) + (if src !in keep && t in p[src] then {src} else {})
    ensures src !in Holders(p, t, keep + left)
    ensures DropTopic(p, t, keep + (left - {src})) ==
            if src !in keep && t in p[src] then DropTopic(p, t, keep + left)[src := p[src] - {t}] else DropTopic(p, t, keep + left)
  {
    assert t !in p[src] ==> p[src] - {t} == p[src];
  }

  lemma NothingToDrop(p: Pending, t: string)
    requires !PendingTopic(p, t)
    ensures DropTopic(p, t, {}) == p && Holders(p, t, {}) == {}
  {
    forall src | src in p ensures p[src] - {t} == p[src] {
      assert !PendingAt(p, src, t);
    }
  }

  lemma SamePendingTopic(p: Pending, q: Pending, t: string)
    requires forall src :: PendingAt(p, src, t) <==> PendingAt(q, src, t)
    ensures PendingTopic(p, t) <==> PendingTopic(q, t)
  {
  }

  /** FlushReplicas splits its batch into values to set and topics to delete. */
  method Split(pending: map<string, Msg>) returns (sets: set<Msg>, dels: set<string>)
    ensures sets == set t | t in pending && pending[t].payload != "" :: pending[t]
    ensures dels == set t | t in pending && pending[t].payload == ""
  {
    sets, dels := {}, {};
    var left := pending.Keys;
    while left != {}
      invariant left <= pending.Keys
      invariant sets == set t | t in pending && t !in left && pending[t].payload != "" :: pending[t]
      invariant dels == set t | t in pending && t !in left && pending[t].payload == ""
      decreases left
    {
      var t :| t in left;
      left := left - {t};
      if pending[t].payload == "" {
        dels := dels + {t};
      } else {
        sets := sets + {pending[t]};
      }
    }
  }
}
