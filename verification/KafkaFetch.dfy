/** The channel that wakes the long-polling consumers of one stream. */
module StreamSignal {
  class Channel {
    var closed: bool

    constructor ()
      ensures !closed
    {
      closed := false;
    }
  }

  class Stream {
    var notify: Channel?

    ghost predicate Valid()
      reads this, notify
    {
      notify != null ==> !notify.closed
    }

    constructor ()
      ensures Valid() && notify == null
    {
      notify := null;
    }

    /** An open channel that the next Signal closes. */
    method Wait() returns (c: Channel)
      requires Valid()
      modifies this
      ensures Valid() && notify == c && !c.closed
      ensures old(notify) != null ==> c == old(notify)
      ensures old(notify) == null ==> fresh(c)
    {
      if notify == null {
        notify := new Channel();
      }
      c := notify;
    }

    /** Closes the channel every waiter holds; the next Wait makes another. */
    method Signal()
      requires Valid()
      modifies this, notify
      ensures Valid() && notify == null
      ensures old(notify) != null ==> old(notify).closed
    {
      if notify != null {
        notify.closed := true;
        notify := null;
      }
    }
  }
}

/**
 Every interleaving of fetches with appenders. An appender stores records and signals the stream
 afterwards; a fetch takes one channel per stream, reads each stream, and parks on the channels when
 it found nothing.
 */
module KafkaFetch {
  type Stream = nat
  type Channel = nat
  type Fetcher = nat

  /**
   waits: the channel taken for each stream; after: how often the stream had been signalled then; seen:
   the length of each stream when it was read.
   */
  datatype Fetch = Fetch(want: set<Stream>, waits: map<Stream, Channel>, after: map<Stream, nat>,
                         seen: map<Stream, nat>, parked: bool)

  /**
   log: records ever appended; signals: signals ever sent; pending: appends whose signal is still to
   come; made: channels made so far.
   */
  datatype State = State(notify: map<Stream, Channel>, closed: set<Channel>, made: nat, log: map<Stream, nat>,
                         signals: map<Stream, nat>, pending: multiset<Stream>, fetches: map<Fetcher, Fetch>)

  datatype Step =
    | Append(st: Stream)
    | Signal(st: Stream)
    | Begin(f: Fetcher, want: set<Stream>)
    | TakeWait(f: Fetcher, st: Stream)
    | ReadStream(f: Fetcher, st: Stream)
    | Park(f: Fetcher)
    | Wake(f: Fetcher)
    | Answer(f: Fetcher)

  function Count(m: map<Stream, nat>, st: Stream): nat { if st in m then m[st] else 0 }

  function Taken(s: State, st: Stream): Channel { if st in s.notify then s.notify[st] else s.made }

  predicate Enabled(s: State, a: Step) {
    match a
    case Append(st) => true
    case Signal(st) => st in s.pending
    case Begin(f, want) => f !in s.fetches
    case TakeWait(f, st) => f in s.fetches && st in s.fetches[f].want - s.fetches[f].waits.Keys
    case ReadStream(f, st) => f in s.fetches && s.fetches[f].waits.Keys == s.fetches[f].want && st in s.fetches[f].want - s.fetches[f].seen.Keys
    case Park(f) => f in s.fetches && s.fetches[f].waits.Keys == s.fetches[f].want == s.fetches[f].seen.Keys
    case Wake(f) => f in s.fetches && s.fetches[f].parked && exists st :: st in s.fetches[f].waits && s.fetches[f].waits[st] in s.closed
    case Answer(f) => f in s.fetches
  }

  function Update(s: State, f: Fetcher, fetch: Fetch): State { s.(fetches := s.fetches[f := fetch]) }

  function Fresh(want: set<Stream>): Fetch { Fetch(want, map[], map[], map[], false) }

  function Signalled(s: State, st: Stream): State {
    s.(pending := s.pending - multiset{st}, notify := s.notify - {st}, signals := s.signals[st := Count(s.signals, st) + 1],
       closed := s.closed + if st in s.notify then {s.notify[st]} else {})
  }

  function Waiting(s: State, f: Fetcher, st: Stream): State
    requires f in s.fetches
  {
    var fetch := s.fetches[f];
    Update(s.(notify := s.notify[st := Taken(s, st)], made := s.made + if st in s.notify then 0 else 1),
           f, fetch.(waits := fetch.waits[st := Taken(s, st)], after := fetch.after[st := Count(s.signals, st)]))
  }

  function Next(s: State, a: Step): State
    requires Enabled(s, a)
  {
    match a
    case Append(st) => s.(log := s.log[st := Count(s.log, st) + 1], pending := s.pending + multiset{st})
    case Signal(st) => Signalled(s, st)
    case Begin(f, want) => Update(s, f, Fresh(want))
    case TakeWait(f, st) => Waiting(s, f, st)
    case ReadStream(f, st) => Update(s, f, s.fetches[f].(seen := s.fetches[f].seen[st := Count(s.log, st)]))
    case Park(f) => Update(s, f, s.fetches[f].(parked := true))
    case Wake(f) => Update(s, f, Fresh(s.fetches[f].want))
    case Answer(f) => s.(fetches := s.fetches - {f})
  }

  ghost predicate IsRun(states: seq<State>, steps: seq<Step>) {
    && |states| == |steps| + 1
    && states[0] == State(map[], {}, 0, map[], map[], multiset{}, map[])
    && forall i :: 0 <= i < |steps| ==> Enabled(states[i], steps[i]) && states[i + 1] == Next(states[i], steps[i])
  }

  /** A held channel is closed exactly when its stream was signalled since; an open one is the next to be closed. */
  ghost predicate Holds(s: State, fetch: Fetch) {
    && fetch.after.Keys == fetch.waits.Keys
    && forall st :: st in fetch.waits ==>
         && fetch.waits[st] < s.made && fetch.after[st] <= Count(s.signals, st)
         && (fetch.waits[st] in s.closed <==> fetch.after[st] < Count(s.signals, st))
         && (fetch.waits[st] !in s.closed ==> st in s.notify && s.notify[st] == fetch.waits[st])
  }

  /** What was appended after a read is announced, or about to be. */
  ghost predicate Announced(s: State, fetch: Fetch) {
    && fetch.seen.Keys <= fetch.waits.Keys
    && (fetch.parked ==> fetch.seen.Keys == fetch.want)
    && forall st :: st in fetch.seen && fetch.seen[st] != Count(s.log, st) ==> fetch.waits[st] in s.closed || st in s.pending
  }

  /** The channels that are handed out are open, and no two streams share one. */
  ghost predicate Channels(s: State) {
    && (forall st :: st in s.notify ==> s.notify[st] < s.made && s.notify[st] !in s.closed)
    && (forall c :: c in s.closed ==> c < s.made)
    && (forall a, b :: a in s.notify && b in s.notify && s.notify[a] == s.notify[b] ==> a == b)
  }

  ghost predicate Inv(s: State) {
    && Channels(s)
    && (forall f :: f in s.fetches ==> Holds(s, s.fetches[f]) && Announced(s, s.fetches[f]))
  }

  lemma ChannelsKept(s: State, a: Step)
    requires Channels(s) && Enabled(s, a)
    ensures Channels(Next(s, a))
  {
  }

  lemma SignalKeeps(s: State, st: Stream, fetch: Fetch)
    requires Channels(s) && Holds(s, fetch) && Announced(s, fetch)
    ensures Holds(Signalled(s, st), fetch) && Announced(Signalled(s, st), fetch)
  {
  }

  lemma AppendKeeps(s: State, st: Stream, fetch: Fetch)
    requires Holds(s, fetch) && Announced(s, fetch)
    ensures Holds(Next(s, Append(st)), fetch) && Announced(Next(s, Append(st)), fetch)
  {
  }

  /** Taking a channel for one fetch leaves the others' as they were. */
  lemma WaitKeeps(s: State, f: Fetcher, st: Stream, fetch: Fetch)
    requires Channels(s) && Holds(s, fetch) && Announced(s, fetch) && f in s.fetches
    ensures Holds(Waiting(s, f, st), fetch) && Announced(Waiting(s, f, st), fetch)
  {
  }

  /** The step's own fetch. */
  lemma OwnKept(s: State, a: Step)
    requires Inv(s) && Enabled(s, a) && !a.Append? && !a.Signal? && !a.Answer?
    ensures a.f in Next(s, a).fetches && Holds(Next(s, a), Next(s, a).fetches[a.f]) && Announced(Next(s, a), Next(s, a).fetches[a.f])
  {
    if a.TakeWait? {
      WaitKeeps(s, a.f, a.st, s.fetches[a.f]);
    }
  }

  lemma FetchKept(s: State, a: Step, f: Fetcher)
    requires Inv(s) && Enabled(s, a) && f in Next(s, a).fetches
    ensures Holds(Next(s, a), Next(s, a).fetches[f]) && Announced(Next(s, a), Next(s, a).fetches[f])
  {
    match a
    case Append(st) => AppendKeeps(s, st, s.fetches[f]);
    case Signal(st) => SignalKeeps(s, st, s.fetches[f]);
    case TakeWait(g, st) => if f == g { OwnKept(s, a); } else { WaitKeeps(s, g, st, s.fetches[f]); }
    case Answer(g) =>
    case _ => if f == a.f { OwnKept(s, a); }
  }

  lemma {:induction false} RunKeeps(states: seq<State>, steps: seq<Step>, i: nat)
    requires IsRun(states, steps) && i < |states|
    ensures Inv(states[i])
  {
    if i > 0 {
      RunKeeps(states, steps, i - 1);
      ChannelsKept(states[i - 1], steps[i - 1]);
      forall f | f in states[i].fetches
        ensures Holds(states[i], states[i].fetches[f]) && Announced(states[i], states[i].fetches[f])
      {
        FetchKept(states[i - 1], steps[i - 1], f);
      }
    }
  }

  /**
   No append is missed, over every run: a parked fetch that has not read the newest records of one of
   its streams can wake, unless an appender of that stream is between its append and its signal.
   */
  lemma NoMissedAppend(states: seq<State>, steps: seq<Step>, i: nat, f: Fetcher, st: Stream)
    requires IsRun(states, steps) && i < |states|
    requires f in states[i].fetches && states[i].fetches[f].parked && st in states[i].fetches[f].want
    ensures st in states[i].fetches[f].seen
    ensures states[i].fetches[f].seen[st] != Count(states[i].log, st) ==> Enabled(states[i], Wake(f)) || st in states[i].pending
  {
    RunKeeps(states, steps, i);
    assert Announced(states[i], states[i].fetches[f]);
  }

  /** A parked fetch can wake exactly when one of its streams was signalled after its channel was taken. */
  lemma WakesExactly(states: seq<State>, steps: seq<Step>, i: nat, f: Fetcher)
    requires IsRun(states, steps) && i < |states| && f in states[i].fetches && states[i].fetches[f].parked
    ensures states[i].fetches[f].after.Keys == states[i].fetches[f].waits.Keys
    ensures Enabled(states[i], Wake(f)) <==>
            exists st :: st in states[i].fetches[f].after && states[i].fetches[f].after[st] < Count(states[i].signals, st)
  {
    RunKeeps(states, steps, i);
    assert Holds(states[i], states[i].fetches[f]);
  }
}
