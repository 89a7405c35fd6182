/**
 The subscription index: exact filters in hashed shards, wildcard filters per client, shared
 groups, and the snapshots readers use. It has to agree with the plain table of the
 subscriptions the clients hold.

 Merging subscriptions is modelled by the set of subscriptions merged, of which the
 resulting QoS and No Local flag are functions.
 */
module Subscriptions {
  import opened Topics

  datatype Sub = Sub(filter: string, qos: nat, noLocal: bool)

  /** The non-shared subscriptions, by client and filter. */
  type Held = map<(string, string), Sub>

  /** What a topic delivers: each client with the subscriptions merged for it. */
  type Deliveries = map<string, set<Sub>>

  function Clients(held: Held): set<string> { set k | k in held :: k.0 }

  function Matching(held: Held, client: string, topic: string): set<Sub> {
    set k | k in held && k.0 == client && Matches(k.1, topic) :: held[k]
  }

  /** The specification: every client with a matching subscription, with all of those. */
  function Expected(held: Held, topic: string): Deliveries {
    map c | c in Clients(held) && Matching(held, c, topic) != {} :: Matching(held, c, topic)
  }

  ghost predicate HeldOk(held: Held) {
    forall k :: k in held ==> held[k].filter == k.1 && !IsShared(k.1)
  }

  datatype ClientSub = ClientSub(client: string, sub: Sub)

  /** The subscribers of one exact topic, by client. */
  function EntryMap(e: seq<ClientSub>): map<string, Sub> {
    if e == [] then map[] else EntryMap(e[..|e| - 1])[e[|e| - 1].client := e[|e| - 1].sub]
  }

  predicate Distinct(e: seq<ClientSub>) { forall i, j :: 0 <= i < j < |e| ==> e[i].client != e[j].client }

  lemma {:induction false} EntryMapAt(e: seq<ClientSub>)
    ensures forall c :: c in EntryMap(e) <==> exists i :: 0 <= i < |e| && e[i].client == c
    ensures Distinct(e) ==> forall i :: 0 <= i < |e| ==> EntryMap(e)[e[i].client] == e[i].sub
  {
    if e != [] {
      var d := e[..|e| - 1];
      EntryMapAt(d);
      forall c | c in EntryMap(e) ensures exists i :: 0 <= i < |e| && e[i].client == c {
        if c in EntryMap(d) {
          var i :| 0 <= i < |d| && d[i].client == c;
          assert e[i].client == c;
        } else {
          assert e[|e| - 1].client == c;
        }
      }
      forall i | 0 <= i < |e| ensures e[i].client in EntryMap(e) {
        if i < |e| - 1 { assert d[i].client == e[i].client; }
      }
      if Distinct(e) {
        forall i | 0 <= i < |e| ensures EntryMap(e)[e[i].client] == e[i].sub {
          if i < |e| - 1 { assert d[i] == e[i]; }
        }
      }
    }
  }

  /** The entry of a topic lists exactly its exact subscribers, each once. */
  ghost predicate EntryOk(e: seq<ClientSub>, held: Held, t: string) {
    && Distinct(e)
    && (forall c :: c in EntryMap(e) <==> !IsWildcardFilter(t) && (c, t) in held)
    && (forall c :: c in EntryMap(e) ==> EntryMap(e)[c] == held[(c, t)])
  }

  type Wild = map<string, map<string, Sub>>

  /** The wildcard table holds exactly the subscriptions with wildcard filters. */
  ghost predicate WildOk(wild: Wild, held: Held) {
    && (forall c, f :: (c in wild && f in wild[c]) <==> (IsWildcardFilter(f) && (c, f) in held))
    && (forall c, f :: c in wild && f in wild[c] ==> wild[c][f] == held[(c, f)])
  }

  function Subs(m: map<string, Sub>): set<Sub> { set f | f in m :: m[f] }

  /** The wildcard subscriptions of one client that match. */
  function WildMatching(subs: set<Sub>, topic: string): set<Sub> {
    set s | s in subs && Matches(s.filter, topic)
  }

  /** A client's matching subscriptions are its exact one and its matching wildcard ones. */
  lemma MatchingSplits(held: Held, wild: Wild, e: seq<ClientSub>, topic: string, c: string)
    requires HeldOk(held) && WildOk(wild, held) && EntryOk(e, held, topic)
    ensures Matching(held, c, topic) ==
            (if c in EntryMap(e) then {EntryMap(e)[c]} else {}) + (if c in wild then WildMatching(Subs(wild[c]), topic) else {})
  {
    var entry := EntryMap(e);
    var exact := if c in entry then {entry[c]} else {};
    var wildly := if c in wild then WildMatching(Subs(wild[c]), topic) else {};
    forall s | s in Matching(held, c, topic) ensures s in exact + wildly {
      var k :| k in held && k.0 == c && Matches(k.1, topic) && held[k] == s;
      assert k == (c, k.1);
      if IsWildcardFilter(k.1) {
        assert k.1 in wild[c] && s in Subs(wild[c]);
      } else {
        ExactFilterMatches(k.1, topic);
      }
    }
    forall s | s in exact + wildly ensures s in Matching(held, c, topic) {
      if s in exact {
        ExactFilterMatches(topic, topic);
        assert (c, topic) in held && held[(c, topic)] == s;
      } else {
        var f :| f in wild[c] && wild[c][f] == s;
        assert (c, f) in held && held[(c, f)] == s && Matches(f, topic);
      }
    }
  }

  /** The specification in words: who holds a matching filter is listed, with exactly those subscriptions. */
  lemma ExpectedMeans(held: Held, topic: string, c: string)
    ensures c in Expected(held, topic) <==> exists f :: (c, f) in held && Matches(f, topic)
    ensures c in Expected(held, topic) ==> forall s ::
              s in Expected(held, topic)[c] <==> exists f :: (c, f) in held && Matches(f, topic) && held[(c, f)] == s
  {
    ExpectedAt(held, topic, c);
    forall k | k in held && k.0 == c ensures k == (c, k.1) {}
    if f :| (c, f) in held && Matches(f, topic) {
      assert (c, f).0 == c && held[(c, f)] in Matching(held, c, topic);
    }
    forall s, f | (c, f) in held && Matches(f, topic) && held[(c, f)] == s ensures s in Matching(held, c, topic) {
      assert (c, f).0 == c;
    }
  }

  lemma ExpectedAt(held: Held, topic: string, c: string)
    ensures c in Expected(held, topic) <==> Matching(held, c, topic) != {}
  {
    if Matching(held, c, topic) != {} {
      var s :| s in Matching(held, c, topic);
      var k :| k in held && k.0 == c && Matches(k.1, topic) && held[k] == s;
      assert k.0 in Clients(held);
    }
  }
}

/**
 The index object and the two ways it is read: the lookup `Subscribers` and the delivery loop
 of the server, both against `Expected`.
 */
module TopicsIndex {
  import opened Topics
  import opened Subscriptions
  import opened SharedGroups
  import Matchers

  const SHARDS := 64

  /** snap is what readers see. */
  datatype Shard = Shard(internal: map<string, seq<ClientSub>>, snap: map<string, seq<ClientSub>>)

  datatype WildcardClient = WildcardClient(client: string, subs: seq<Sub>)

  datatype Snapshot = Snapshot(clients: seq<WildcardClient>, shared: seq<SharedFilter>)

  /** The hash that picks a shard; any function into the shards will do. */
  type Hash = string -> nat

  predicate HashOk(hash: Hash, t: string) { hash(t) < SHARDS }

  function EntryAt(shards: seq<Shard>, hash: Hash, t: string): seq<ClientSub>
    requires |shards| == SHARDS && HashOk(hash, t)
  {
    var m := shards[hash(t)].internal;
    if t in m then m[t] else []
  }

  /** The shards hold exactly the subscriptions without wildcards, and their snapshots are current. */
  ghost predicate ExactOk(shards: seq<Shard>, hash: Hash, held: Held) {
    && |shards| == SHARDS
    && (forall i :: 0 <= i < SHARDS ==> shards[i].snap == shards[i].internal)
    && (forall t :: HashOk(hash, t))
    && (forall t :: EntryOk(EntryAt(shards, hash, t), held, t))
  }

  function SubSet(subs: seq<Sub>): set<Sub> { set s | s in subs }

  /** The snapshot lists every client with wildcard subscriptions once, with all of them. */
  ghost predicate SnapClientsOk(clients: seq<WildcardClient>, wild: Wild) {
    && (forall i, j :: 0 <= i < j < |clients| ==> clients[i].client != clients[j].client)
    && (forall i :: 0 <= i < |clients| ==> clients[i].client in wild && SubSet(clients[i].subs) == Subs(wild[clients[i].client]))
    && (forall c :: c in wild && wild[c] != map[] ==> exists i :: 0 <= i < |clients| && clients[i].client == c)
  }

  datatype Delivery = Delivery(client: string, subs: set<Sub>)

  /** Each wanted client among done and registered is delivered to once, with its subscriptions. */
  ghost predicate Covers(ds: seq<Delivery>, done: set<string>, want: Deliveries, registered: set<string>) {
    && (forall i, j :: 0 <= i < j < |ds| ==> ds[i].client != ds[j].client)
    && (forall i :: 0 <= i < |ds| ==>
          ds[i].client in done && ds[i].client in registered && ds[i].client in want && ds[i].subs == want[ds[i].client])
    && (forall c :: c in done && c in registered && c in want ==> exists i :: 0 <= i < |ds| && ds[i].client == c)
  }

  lemma CoversMore(ds: seq<Delivery>, done: set<string>, want: Deliveries, registered: set<string>, c: string)
    requires Covers(ds, done, want, registered) && c !in done
    ensures c !in want || c !in registered ==> Covers(ds, done + {c}, want, registered)
    ensures c in want && c in registered ==> Covers(ds + [Delivery(c, want[c])], done + {c}, want, registered)
  {
    if c in want && c in registered {
      var es := ds + [Delivery(c, want[c])];
      forall b | b in done + {c} && b in registered && b in want ensures exists i :: 0 <= i < |es| && es[i].client == b {
        if b == c {
          assert es[|ds|].client == b;
        } else {
          var i :| 0 <= i < |ds| && ds[i].client == b;
          assert es[i].client == b;
        }
      }
    }
  }

  lemma KeysHaveNul(groups: Groups, sheld: SharedHeld)
    requires SharedHeldOk(sheld) && GroupsOk(groups, sheld)
    ensures forall k :: k in groups ==> groups[k] != map[] && '\0' in k
  {
    forall k | k in groups ensures '\0' in k {
      assert groups[k].Keys != {};
      var c :| c in groups[k].Keys;
      var split := SplitShared(sheld[(c, k)].filter);
      assert KeyOf(split.0, split.1)[|split.0|] == '\0';
    }
  }

  /** The entry after a client's subscription is replaced or added. */
  method Upsert(prev: seq<ClientSub>, client: string, sub: Sub) returns (next: seq<ClientSub>, existed: bool)
    requires Distinct(prev)
    ensures Distinct(next) && EntryMap(next) == EntryMap(prev)[client := sub]
    ensures existed == (client in EntryMap(prev))
  {
    next, existed := [], false;
    for i := 0 to |prev|
      invariant |next| == i && forall k :: 0 <= k < i ==> next[k].client == prev[k].client
      invariant existed == (client in EntryMap(prev[..i]))
      invariant EntryMap(next) == if existed then EntryMap(prev[..i])[client := sub] else EntryMap(prev[..i])
    {
      assert prev[..i + 1][..i] == prev[..i];
      var cs := if prev[i].client == client then ClientSub(client, sub) else prev[i];
      if prev[i].client == client {
        existed := true;
      }
      assert (next + [cs])[..i] == next;
      next := next + [cs];
    }
    assert prev[..|prev|] == prev;
    if !existed {
      EntryMapAt(next);
      assert (next + [ClientSub(client, sub)])[..|next|] == next;
      next := next + [ClientSub(client, sub)];
    }
  }

  lemma Appended(e: seq<ClientSub>, cs: ClientSub)
    requires Distinct(e) && cs.client !in EntryMap(e)
    ensures Distinct(e + [cs]) && EntryMap(e + [cs]) == EntryMap(e)[cs.client := cs.sub]
  {
    EntryMapAt(e);
    assert (e + [cs])[..|e|] == e;
  }

  lemma NotYetSeen(e: seq<ClientSub>, i: nat)
    requires Distinct(e) && i < |e|
    ensures e[i].client !in EntryMap(e[..i])
    ensures EntryMap(e[..i + 1]) == EntryMap(e[..i])[e[i].client := e[i].sub]
  {
    EntryMapAt(e[..i]);
    assert e[..i + 1][..i] == e[..i];
  }

  /** The entry without a client. */
  method Without(prev: seq<ClientSub>, client: string) returns (next: seq<ClientSub>, existed: bool)
    requires Distinct(prev)
    ensures Distinct(next) && EntryMap(next) == EntryMap(prev) - {client}
    ensures existed == (client in EntryMap(prev))
  {
    next, existed := [], false;
    for i := 0 to |prev|
      invariant Distinct(next)
      invariant existed == (client in EntryMap(prev[..i]))
      invariant EntryMap(next) == EntryMap(prev[..i]) - {client}
    {
      NotYetSeen(prev, i);
      if prev[i].client == client {
        existed := true;
      } else {
        Appended(next, prev[i]);
        next := next + [prev[i]];
      }
    }
    assert prev[..|prev|] == prev;
  }

  /** One shard changed at one topic. */
  lemma ShardUpdate(shards: seq<Shard>, hash: Hash, held: Held, t: string, m: map<string, seq<ClientSub>>, held': Held)
    requires ExactOk(shards, hash, held) && HashOk(hash, t)
    requires forall x :: x != t ==> (x in m <==> x in shards[hash(t)].internal) && (x in m ==> m[x] == shards[hash(t)].internal[x])
    requires forall x, c :: x != t ==> ((c, x) in held' <==> (c, x) in held)
    requires forall x, c :: x != t && (c, x) in held ==> held'[(c, x)] == held[(c, x)]
    requires EntryOk(if t in m then m[t] else [], held', t)
    ensures ExactOk(shards[hash(t) := Shard(m, m)], hash, held')
  {
    var next := shards[hash(t) := Shard(m, m)];
    forall x ensures EntryOk(EntryAt(next, hash, x), held', x) {
      assert HashOk(hash, x);
      if x != t {
        assert EntryAt(next, hash, x) == EntryAt(shards, hash, x);
        EntryFrame(EntryAt(shards, hash, x), held, held', x);
      }
    }
  }

  lemma EntryFrame(e: seq<ClientSub>, held: Held, held': Held, x: string)
    requires EntryOk(e, held, x)
    requires forall c :: (c, x) in held' <==> (c, x) in held
    requires forall c :: (c, x) in held ==> held'[(c, x)] == held[(c, x)]
    ensures EntryOk(e, held', x)
  {
  }

  lemma EntryWith(prev: seq<ClientSub>, next: seq<ClientSub>, held: Held, t: string, client: string, sub: Sub)
    requires EntryOk(prev, held, t) && !IsWildcardFilter(t) && Distinct(next) && EntryMap(next) == EntryMap(prev)[client := sub]
    ensures EntryOk(next, held[(client, t) := sub], t)
  {
  }

  lemma EntryWithout(prev: seq<ClientSub>, next: seq<ClientSub>, held: Held, t: string, client: string)
    requires EntryOk(prev, held, t) && Distinct(next) && EntryMap(next) == EntryMap(prev) - {client}
    ensures EntryOk(next, held - {(client, t)}, t)
  {
  }

  /** A client without wildcard subscriptions leaves the table. */
  function WildWithout(wild: Wild, client: string, filter: string): Wild
    requires client in wild
  {
    var cm := wild[client] - {filter};
    if cm == map[] then wild - {client} else wild[client := cm]
  }

  lemma WildRemoved(wild: Wild, held: Held, client: string, filter: string)
    requires WildOk(wild, held) && client in wild && filter in wild[client]
    ensures WildOk(WildWithout(wild, client, filter), held - {(client, filter)})
  {
    var cm := wild[client] - {filter};
    assert cm == map[] ==> forall f :: f in wild[client] ==> f == filter by {
      assert forall f :: f in wild[client] && f != filter ==> f in cm;
    }
  }

  function WildWith(wild: Wild, client: string, sub: Sub): Wild {
    wild[client := (if client in wild then wild[client] else map[])[sub.filter := sub]]
  }

  lemma WildAdded(wild: Wild, held: Held, client: string, sub: Sub)
    requires WildOk(wild, held) && IsWildcardFilter(sub.filter)
    ensures WildOk(WildWith(wild, client, sub), held[(client, sub.filter) := sub])
  {
  }

  /** Snapshot of one client's wildcard subscriptions, in any order. */
  method ListSubs(m: map<string, Sub>) returns (subs: seq<Sub>)
    ensures SubSet(subs) == Subs(m)
  {
    subs := [];
    var left := m.Keys;
    while left != {}
      invariant left <= m.Keys && SubSet(subs) == set f | f in m && f !in left :: m[f]
      decreases left
    {
      var f :| f in left;
      left := left - {f};
      assert SubSet(subs + [m[f]]) == SubSet(subs) + {m[f]};
      subs := subs + [m[f]];
    }
  }

  method ListClients(wild: Wild) returns (clients: seq<WildcardClient>)
    ensures SnapClientsOk(clients, wild)
  {
    clients := [];
    var left := wild.Keys;
    while left != {}
      invariant left <= wild.Keys
      invariant forall i, j :: 0 <= i < j < |clients| ==> clients[i].client != clients[j].client
      invariant forall i :: 0 <= i < |clients| ==>
                  clients[i].client in wild && clients[i].client !in left && SubSet(clients[i].subs) == Subs(wild[clients[i].client])
      invariant forall c :: c in wild && c !in left && wild[c] != map[] ==> exists i :: 0 <= i < |clients| && clients[i].client == c
      decreases left
    {
      var c :| c in left;
      left := left - {c};
      if wild[c] != map[] {
        var subs := ListSubs(wild[c]);
        ghost var was := clients;
        clients := clients + [WildcardClient(c, subs)];
        forall b | b in wild && b !in left && wild[b] != map[] ensures exists i :: 0 <= i < |clients| && clients[i].client == b {
          if b == c {
            assert clients[|was|].client == b;
          } else {
            var i :| 0 <= i < |was| && was[i].client == b;
            assert clients[i].client == b;
          }
        }
      }
    }
  }

  /** The part of a client's subscriptions that comes from its exact one. */
  function ExactPart(e: seq<ClientSub>, c: string): set<Sub> {
    if c in EntryMap(e) then {EntryMap(e)[c]} else {}
  }

  /** The part that comes from the listed wildcard ones. */
  function WildPart(clients: seq<WildcardClient>, c: string, topic: string): set<Sub> {
    if clients == [] then {}
    else
      var last := clients[|clients| - 1];
      WildPart(clients[..|clients| - 1], c, topic) + (if last.client == c then WildMatching(SubSet(last.subs), topic) else {})
  }

  lemma {:induction false} WildPartNone(clients: seq<WildcardClient>, c: string, topic: string)
    requires forall i :: 0 <= i < |clients| ==> clients[i].client != c
    ensures WildPart(clients, c, topic) == {}
  {
    if clients != [] { WildPartNone(clients[..|clients| - 1], c, topic); }
  }

  lemma {:induction false} WildPartAt(clients: seq<WildcardClient>, i: nat, topic: string)
    requires i < |clients| && forall a, b :: 0 <= a < b < |clients| ==> clients[a].client != clients[b].client
    ensures WildPart(clients, clients[i].client, topic) == WildMatching(SubSet(clients[i].subs), topic)
  {
    var init := clients[..|clients| - 1];
    if i == |clients| - 1 {
      WildPartNone(init, clients[i].client, topic);
    } else {
      WildPartAt(init, i, topic);
    }
  }

  /** What a client is due is its exact part and its wildcard part. */
  lemma WantParts(held: Held, wild: Wild, clients: seq<WildcardClient>, e: seq<ClientSub>, topic: string, c: string)
    requires HeldOk(held) && WildOk(wild, held) && SnapClientsOk(clients, wild) && EntryOk(e, held, topic)
    ensures Matching(held, c, topic) == ExactPart(e, c) + WildPart(clients, c, topic)
    ensures c in Expected(held, topic) <==> ExactPart(e, c) + WildPart(clients, c, topic) != {}
  {
    MatchingSplits(held, wild, e, topic, c);
    ExpectedAt(held, topic, c);
    if i :| 0 <= i < |clients| && clients[i].client == c {
      WildPartAt(clients, i, topic);
    } else {
      WildPartNone(clients, c, topic);
      if c in wild { assert wild[c] == map[]; }
    }
  }

  /** Merges the matching wildcard subscriptions of one client. */
  method MatchClientWildcards(subs: seq<Sub>, topic: string) returns (matched: set<Sub>, found: bool)
    ensures matched == WildMatching(SubSet(subs), topic) && found == (matched != {})
  {
    matched, found := {}, false;
    for i := 0 to |subs|
      invariant matched == WildMatching(SubSet(subs[..i]), topic) && found == (matched != {})
    {
      var hit := Matchers.MatchMqttTopic(subs[i].filter, topic);
      assert SubSet(subs[..i + 1]) == SubSet(subs[..i]) + {subs[i]};
      if hit {
        matched := matched + {subs[i]};
        found := true;
      }
    }
    assert subs[..|subs|] == subs;
  }

  class TopicsIndex {
    const exact: array<Shard>
    const hash: Hash
    var wildcardClients: Wild
    var shared: Groups
    var wildcardSnap: Snapshot
    ghost var held: Held
    ghost var sheld: SharedHeld
    ghost var snapKeys: seq<string>

    ghost predicate Valid()
      reads this, exact
    {
      && HeldOk(held) && ExactOk(exact[..], hash, held) && WildOk(wildcardClients, held)
      && SnapClientsOk(wildcardSnap.clients, wildcardClients)
      && SharedHeldOk(sheld) && GroupsOk(shared, sheld) && SnapSharedOk(wildcardSnap.shared, snapKeys, shared)
    }

    ghost function Now(): Moment
      reads this
    {
      Moment(held, wildcardClients, shared, sheld, snapKeys)
    }

    constructor (hash: Hash)
      requires forall t :: HashOk(hash, t)
      ensures Valid() && held == map[] && sheld == map[] && fresh(exact)
    {
      exact := new Shard[SHARDS](i => Shard(map[], map[]));
      this.hash := hash;
      wildcardClients, shared, wildcardSnap, held, sheld, snapKeys := map[], map[], Snapshot([], []), map[], map[], [];
      new;
      assert forall i :: 0 <= i < SHARDS ==> exact[..][i] == Shard(map[], map[]);
      forall t ensures EntryOk(EntryAt(exact[..], hash, t), map[], t) {
        assert HashOk(hash, t);
        assert EntryAt(exact[..], hash, t) == [];
      }
    }

    method RebuildWildcardSnap()
      requires SharedHeldOk(sheld) && GroupsOk(shared, sheld)
      modifies this`wildcardSnap, this`snapKeys
      ensures SnapClientsOk(wildcardSnap.clients, wildcardClients) && SnapSharedOk(wildcardSnap.shared, snapKeys, shared)
    {
      var clients := ListClients(wildcardClients);
      KeysHaveNul(shared, sheld);
      var list, keys := ListShared(shared);
      wildcardSnap := Snapshot(clients, list);
      snapKeys := keys;
    }

    /** Replaces one shard and its snapshot. */
    method StoreShard(topic: string, m: map<string, seq<ClientSub>>, ghost held': Held)
      requires ExactOk(exact[..], hash, held) && HashOk(hash, topic)
      requires forall x :: x != topic ==>
                 (x in m <==> x in exact[hash(topic)].internal) && (x in m ==> m[x] == exact[hash(topic)].internal[x])
      requires forall x, c :: x != topic ==> ((c, x) in held' <==> (c, x) in held)
      requires forall x, c :: x != topic && (c, x) in held ==> held'[(c, x)] == held[(c, x)]
      requires EntryOk(if topic in m then m[topic] else [], held', topic)
      modifies exact
      ensures ExactOk(exact[..], hash, held')
    {
      ShardUpdate(exact[..], hash, held, topic, m, held');
      exact[hash(topic)] := Shard(m, m);
      assert exact[..] == old(exact[..])[hash(topic) := Shard(m, m)];
    }

    method UpsertExactSub(topic: string, client: string, sub: Sub) returns (existed: bool)
      requires Valid() && !IsWildcardFilter(topic)
      modifies exact
      ensures ExactOk(exact[..], hash, held[(client, topic) := sub]) && existed == ((client, topic) in held)
    {
      var i := hash(topic);
      assert HashOk(hash, topic) && EntryOk(EntryAt(exact[..], hash, topic), held, topic);
      var internal := exact[i].internal;
      var prev := if topic in internal then internal[topic] else [];
      var next;
      next, existed := Upsert(prev, client, sub);
      var m := internal[topic := next];
      EntryWith(prev, next, held, topic, client, sub);
      StoreShard(topic, m, held[(client, topic) := sub]);
    }

    method DeleteExactSub(topic: string, client: string) returns (existed: bool)
      requires Valid() && !IsWildcardFilter(topic)
      modifies exact
      ensures ExactOk(exact[..], hash, held - {(client, topic)}) && existed == ((client, topic) in held)
    {
      var i := hash(topic);
      assert HashOk(hash, topic) && EntryOk(EntryAt(exact[..], hash, topic), held, topic);
      var internal := exact[i].internal;
      if topic !in internal {
        assert held - {(client, topic)} == held;
        return false;
      }
      var next;
      next, existed := Without(internal[topic], client);
      if !existed {
        assert held - {(client, topic)} == held;
        return;
      }
      EntryWithout(internal[topic], next, held, topic, client);
      DeleteFrom(topic, client, next);
    }

    /** An entry without subscribers leaves its shard. */
    method DeleteFrom(topic: string, client: string, next: seq<ClientSub>)
      requires ExactOk(exact[..], hash, held) && HashOk(hash, topic) && EntryOk(next, held - {(client, topic)}, topic)
      modifies exact
      ensures ExactOk(exact[..], hash, held - {(client, topic)})
    {
      var internal := exact[hash(topic)].internal;
      var m := if next == [] then internal - {topic} else internal[topic := next];
      StoreShard(topic, m, held - {(client, topic)});
    }

    /** New groups and a new snapshot of them. */
    method SetGroups(groups: Groups, ghost sheld': SharedHeld)
      requires Valid() && SharedHeldOk(sheld') && GroupsOk(groups, sheld')
      modifies this`shared, this`wildcardSnap, this`sheld, this`snapKeys
      ensures Valid() && sheld == sheld'
    {
      shared := groups;
      sheld := sheld';
      RebuildWildcardSnap();
    }

    method SubscribeShared(client: string, sub: Sub) returns (existed: bool)
      requires Valid() && IsShared(sub.filter)
      modifies this`shared, this`wildcardSnap, this`sheld, this`snapKeys
      ensures Valid() && sheld == old(sheld)[(client, SharedKey(sub.filter)) := sub]
      ensures existed == ((client, SharedKey(sub.filter)) in old(sheld))
    {
      var key := SharedKey(sub.filter);
      var clients := if key in shared then shared[key] else map[];
      existed := client in clients;
      GroupAdded(shared, sheld, client, sub);
      SetGroups(shared[key := clients[client := sub]], sheld[(client, key) := sub]);
    }

    method SubscribeWildcard(client: string, sub: Sub) returns (existed: bool)
      requires Valid() && IsWildcardFilter(sub.filter) && !IsShared(sub.filter)
      modifies this`held, this`wildcardClients, this`wildcardSnap, this`snapKeys
      ensures Valid() && held == old(held)[(client, sub.filter) := sub] && existed == ((client, sub.filter) in old(held))
    {
      var f := sub.filter;
      var cm := if client in wildcardClients then wildcardClients[client] else map[];
      existed := f in cm;
      WildFrame(exact[..], hash, held, f, held[(client, f) := sub]);
      WildAdded(wildcardClients, held, client, sub);
      held := held[(client, f) := sub];
      wildcardClients := wildcardClients[client := cm[f := sub]];
      RebuildWildcardSnap();
    }

    /** A subscription enters the table; a shared one enters its group instead. */
    method Subscribe(client: string, sub: Sub) returns (added: bool)
      requires Valid()
      modifies this, exact
      ensures Valid()
      ensures held == if IsShared(sub.filter) then old(held) else old(held)[(client, sub.filter) := sub]
      ensures sheld == if IsShared(sub.filter) then old(sheld)[(client, SharedKey(sub.filter)) := sub] else old(sheld)
      ensures added == if IsShared(sub.filter) then (client, SharedKey(sub.filter)) !in old(sheld) else (client, sub.filter) !in old(held)
    {
      var f := sub.filter;
      var existed;
      if IsShared(f) {
        existed := SubscribeShared(client, sub);
      } else if IsWildcardFilter(f) {
        existed := SubscribeWildcard(client, sub);
      } else {
        existed := UpsertExactSub(f, client, sub);
        held := held[(client, f) := sub];
      }
      added := !existed;
    }

    method RemoveShared(key: string, client: string)
      requires Valid() && (client, key) in sheld
      modifies this`shared, this`wildcardSnap, this`sheld, this`snapKeys
      ensures Valid() && sheld == old(sheld) - {(client, key)}
    {
      assert key in shared && client in shared[key];
      GroupRemoved(shared, sheld, client, key);
      FewerHeld(sheld, {(client, key)});
      var clients := shared[key] - {client};
      SetGroups(if clients == map[] then shared - {key} else shared[key := clients], sheld - {(client, key)});
    }

    method UnsubscribeShared(filter: string, client: string) returns (existed: bool)
      requires Valid()
      modifies this`shared, this`wildcardSnap, this`sheld, this`snapKeys
      ensures Valid() && sheld == old(sheld) - {(client, SharedKey(filter))}
      ensures existed == ((client, SharedKey(filter)) in old(sheld))
    {
      var key := SharedKey(filter);
      existed := key in shared && client in shared[key];
      if existed {
        RemoveShared(key, client);
      } else {
        assert sheld - {(client, key)} == sheld;
      }
    }

    method UnsubscribeWildcard(filter: string, client: string) returns (existed: bool)
      requires Valid() && IsWildcardFilter(filter)
      modifies this`held, this`wildcardClients, this`wildcardSnap, this`snapKeys
      ensures Valid() && held == old(held) - {(client, filter)} && existed == ((client, filter) in old(held))
    {
      existed := client in wildcardClients && filter in wildcardClients[client];
      if existed {
        WildFrame(exact[..], hash, held, filter, held - {(client, filter)});
        WildRemoved(wildcardClients, held, client, filter);
        held := held - {(client, filter)};
        wildcardClients := WildWithout(wildcardClients, client, filter);
        RebuildWildcardSnap();
      } else {
        assert held - {(client, filter)} == held;
      }
    }

    method Unsubscribe(filter: string, client: string) returns (existed: bool)
      requires Valid()
      modifies this, exact
      ensures Valid()
      ensures held == if IsShared(filter) then old(held) else old(held) - {(client, filter)}
      ensures sheld == if IsShared(filter) then old(sheld) - {(client, SharedKey(filter))} else old(sheld)
      ensures existed == if IsShared(filter) then (client, SharedKey(filter)) in old(sheld) else (client, filter) in old(held)
    {
      if IsShared(filter) {
        existed := UnsubscribeShared(filter, client);
      } else if IsWildcardFilter(filter) {
        existed := UnsubscribeWildcard(filter, client);
      } else {
        existed := DeleteExactSub(filter, client);
        held := held - {(client, filter)};
      }
    }

    method GetExact(topic: string) returns (entry: seq<ClientSub>)
      requires Valid()
      ensures EntryOk(entry, held, topic)
    {
      assert HashOk(hash, topic) && EntryOk(EntryAt(exact[..], hash, topic), held, topic);
      var m := exact[hash(topic)].snap;
      entry := if topic in m then m[topic] else [];
    }
  }

  /** want gives each client exactly its two parts together. */
  ghost predicate Due(want: Deliveries, e: seq<ClientSub>, clients: seq<WildcardClient>, topic: string) {
    && (forall c :: c in want <==> ExactPart(e, c) + WildPart(clients, c, topic) != {})
    && (forall c :: c in want ==> want[c] == ExactPart(e, c) + WildPart(clients, c, topic))
  }

  lemma ExpectedIsDue(held: Held, wild: Wild, clients: seq<WildcardClient>, e: seq<ClientSub>, topic: string)
    requires HeldOk(held) && WildOk(wild, held) && SnapClientsOk(clients, wild) && EntryOk(e, held, topic)
    ensures Due(Expected(held, topic), e, clients, topic)
  {
    forall c ensures Matching(held, c, topic) == ExactPart(e, c) + WildPart(clients, c, topic)
             ensures c in Expected(held, topic) <==> ExactPart(e, c) + WildPart(clients, c, topic) != {}
    {
      WantParts(held, wild, clients, e, topic, c);
    }
  }

  function MergeFor(r: Deliveries, client: string, w: set<Sub>): Deliveries {
    if w == {} then r else r[client := (if client in r then r[client] else {}) + w]
  }

  /** Merges the matching subscriptions of one client into the result. */
  method MergeMatching(r0: Deliveries, client: string, subs: seq<Sub>, topic: string) returns (r: Deliveries)
    ensures r == MergeFor(r0, client, WildMatching(SubSet(subs), topic))
  {
    r := r0;
    ghost var w: set<Sub> := {};
    for j := 0 to |subs|
      invariant w == WildMatching(SubSet(subs[..j]), topic) && r == MergeFor(r0, client, w)
    {
      var hit := Matchers.MatchMqttTopic(subs[j].filter, topic);
      assert SubSet(subs[..j + 1]) == SubSet(subs[..j]) + {subs[j]};
      if hit {
        r := if client in r then r[client := r[client] + {subs[j]}] else r[client := {subs[j]}];
        MergeTwice(r0, client, w, subs[j]);
        w := w + {subs[j]};
      }
    }
    assert subs[..|subs|] == subs;
  }

  lemma MergeTwice(r: Deliveries, client: string, w: set<Sub>, s: Sub)
    ensures MergeFor(MergeFor(r, client, w), client, {s}) == MergeFor(r, client, w + {s})
  {
    var base := if client in r then r[client] else {};
    assert base + (w + {s}) == (base + w) + {s};
    assert {} + {s} == {s};
    assert w == {} ==> w + {s} == {s};
  }

  lemma DueNextExact(r: Deliveries, e: seq<ClientSub>, i: nat, topic: string)
    requires Distinct(e) && i < |e| && Due(r, e[..i], [], topic)
    ensures Due(r[e[i].client := {e[i].sub}], e[..i + 1], [], topic)
  {
    NotYetSeen(e, i);
  }

  lemma DueNextWild(r: Deliveries, e: seq<ClientSub>, clients: seq<WildcardClient>, i: nat, topic: string)
    requires i < |clients| && Due(r, e, clients[..i], topic)
    ensures Due(MergeFor(r, clients[i].client, WildMatching(SubSet(clients[i].subs), topic)), e, clients[..i + 1], topic)
  {
    assert clients[..i + 1][..i] == clients[..i];
    var w := WildMatching(SubSet(clients[i].subs), topic);
    forall c ensures WildPart(clients[..i + 1], c, topic) ==
                     WildPart(clients[..i], c, topic) + (if clients[i].client == c then w else {}) {}
  }

  /** The loops of the lookup: the exact subscribers, then client by client the wildcard ones. */
  method LookUp(entry: seq<ClientSub>, clients: seq<WildcardClient>, topic: string) returns (r: Deliveries)
    requires Distinct(entry)
    ensures Due(r, entry, clients, topic)
  {
    r := map[];
    for i := 0 to |entry|
      invariant Due(r, entry[..i], [], topic)
    {
      DueNextExact(r, entry, i, topic);
      r := r[entry[i].client := {entry[i].sub}];
    }
    assert entry[..|entry|] == entry;
    for i := 0 to |clients|
      invariant Due(r, entry, clients[..i], topic)
    {
      DueNextWild(r, entry, clients, i, topic);
      r := MergeMatching(r, clients[i].client, clients[i].subs, topic);
    }
    assert clients[..|clients|] == clients;
  }

  /** The subscriptions a delivery sees that loads the wildcard snapshot at one moment and the exact entry at another. */
  function Mixed(earlier: Held, later: Held): Held {
    map k | k in earlier.Keys + later.Keys && (if IsWildcardFilter(k.1) then k in earlier else k in later) ::
      if IsWildcardFilter(k.1) then earlier[k] else later[k]
  }

  lemma MixedOk(earlier: Held, wild: Wild, later: Held, entry: seq<ClientSub>, topic: string)
    requires HeldOk(earlier) && WildOk(wild, earlier) && HeldOk(later) && EntryOk(entry, later, topic)
    ensures HeldOk(Mixed(earlier, later)) && WildOk(wild, Mixed(earlier, later)) && EntryOk(entry, Mixed(earlier, later), topic)
  {
  }

  lemma MixedSame(held: Held)
    ensures Mixed(held, held) == held
  {
  }

  /** The index at one moment. */
  datatype Moment = Moment(held: Held, wild: Wild, groups: Groups, sheld: SharedHeld, keys: seq<string>)

  /** The snapshot is that of the moment. */
  ghost predicate SnapOf(snap: Snapshot, t: Moment) {
    && HeldOk(t.held) && WildOk(t.wild, t.held) && SnapClientsOk(snap.clients, t.wild)
    && SharedHeldOk(t.sheld) && GroupsOk(t.groups, t.sheld) && SnapSharedOk(snap.shared, t.keys, t.groups)
  }

  /** The exact entry is that of a moment when these subscriptions were held. */
  ghost predicate EntryOf(entry: seq<ClientSub>, held: Held, topic: string) { HeldOk(held) && EntryOk(entry, held, topic) }

  /**
   The lookup with its two loads at different moments: every client with a matching subscription, with
   the exact one of the first and the wildcard ones of the second; and for every shared filter as spelled
   exactly the clients that hold it at the second, if it matches.
   */
  method LookUpLoaded(entry: seq<ClientSub>, snap: Snapshot, topic: string, ghost exactAt: Held, ghost snapAt: Moment)
    returns (r: Deliveries, candidates: Candidates)
    requires EntryOf(entry, exactAt, topic) && SnapOf(snap, snapAt)
    ensures r == Expected(Mixed(snapAt.held, exactAt), topic) && AllOffered(candidates, snapAt.sheld, topic)
  {
    MixedOk(snapAt.held, snapAt.wild, exactAt, entry, topic);
    ExpectedIsDue(Mixed(snapAt.held, exactAt), snapAt.wild, snap.clients, entry, topic);
    r := LookUp(entry, snap.clients, topic);
    candidates := LookUpShared(snap.shared, topic, snapAt.keys, snapAt.groups, snapAt.sheld);
  }

  /** The lookup while nothing changes. */
  method Subscribers(x: TopicsIndex, topic: string) returns (r: Deliveries, candidates: Candidates)
    requires x.Valid()
    ensures topic == "" ==> r == map[] && candidates == map[]
    ensures topic != "" ==> r == Expected(x.held, topic) && AllOffered(candidates, x.sheld, topic)
  {
    if topic == "" {
      return map[], map[];
    }
    var entry := x.GetExact(topic);
    r, candidates := LookUpLoaded(entry, x.wildcardSnap, topic, x.held, x.Now());
    MixedSame(x.held);
  }

  /** Delivers to a client if it is registered. */
  method DeliverOne(ds: seq<Delivery>, client: string, subs: set<Sub>, registered: set<string>,
                    ghost done: set<string>, ghost want: Deliveries) returns (es: seq<Delivery>)
    requires Covers(ds, done, want, registered) && client !in done && client in want && subs == want[client]
    ensures Covers(es, done + {client}, want, registered)
  {
    CoversMore(ds, done, want, registered, client);
    es := if client in registered then ds + [Delivery(client, subs)] else ds;
  }

  /** The clients of the first n exact subscribers. */
  ghost function FirstExact(e: seq<ClientSub>, n: nat): (r: set<string>)
    requires n <= |e|
  {
    set k | 0 <= k < n :: e[k].client
  }

  ghost function FirstWild(w: seq<WildcardClient>, n: nat): (r: set<string>)
    requires n <= |w|
  {
    set k | 0 <= k < n :: w[k].client
  }

  lemma NextExact(e: seq<ClientSub>, i: nat)
    requires Distinct(e) && i < |e|
    ensures FirstExact(e, i + 1) == FirstExact(e, i) + {e[i].client} && e[i].client !in FirstExact(e, i)
    ensures ExactPart(e, e[i].client) == {e[i].sub}
  {
    EntryMapAt(e);
  }

  /** Only exact subscribers: each gets its own subscription. */
  method DeliverExactOnly(entry: seq<ClientSub>, topic: string, registered: set<string>, ghost want: Deliveries)
    returns (ds: seq<Delivery>)
    requires Distinct(entry) && Due(want, entry, [], topic)
    ensures Covers(ds, FirstExact(entry, |entry|), want, registered)
  {
    ds := [];
    for i := 0 to |entry|
      invariant Covers(ds, FirstExact(entry, i), want, registered)
    {
      NextExact(entry, i);
      ds := DeliverOne(ds, entry[i].client, {entry[i].sub}, registered, FirstExact(entry, i), want);
    }
  }

  ghost predicate DistinctClients(clients: seq<WildcardClient>) {
    forall i, j :: 0 <= i < j < |clients| ==> clients[i].client != clients[j].client
  }

  /** Adds the wildcard subscriptions of an exact subscriber, found by a search of the list. */
  method WithWildcards(cs: ClientSub, clients: seq<WildcardClient>, topic: string) returns (subs: set<Sub>)
    requires DistinctClients(clients)
    ensures subs == {cs.sub} + WildPart(clients, cs.client, topic)
  {
    subs := {cs.sub};
    for j := 0 to |clients|
      invariant subs == {cs.sub} && forall k :: 0 <= k < j ==> clients[k].client != cs.client
    {
      if clients[j].client == cs.client {
        WildPartAt(clients, j, topic);
        var matched, ok := MatchClientWildcards(clients[j].subs, topic);
        if ok {
          subs := subs + matched;
        }
        return;
      }
    }
    WildPartNone(clients, cs.client, topic);
  }

  /** Exact subscribers, each with its wildcard subscriptions. */
  method DeliverExactFirst(entry: seq<ClientSub>, clients: seq<WildcardClient>, topic: string, registered: set<string>,
                           ghost want: Deliveries) returns (ds: seq<Delivery>)
    requires Distinct(entry) && DistinctClients(clients) && Due(want, entry, clients, topic)
    ensures Covers(ds, FirstExact(entry, |entry|), want, registered)
  {
    ds := [];
    for i := 0 to |entry|
      invariant Covers(ds, FirstExact(entry, i), want, registered)
    {
      NextExact(entry, i);
      var subs := WithWildcards(entry[i], clients, topic);
      ds := DeliverOne(ds, entry[i].client, subs, registered, FirstExact(entry, i), want);
    }
  }

  /** Is the client among the exact subscribers? */
  method InExact(entry: seq<ClientSub>, client: string) returns (found: bool)
    ensures found <==> client in FirstExact(entry, |entry|)
    ensures found <==> client in EntryMap(entry)
  {
    EntryMapAt(entry);
    for j := 0 to |entry|
      invariant forall k :: 0 <= k < j ==> entry[k].client != client
    {
      if entry[j].client == client {
        return true;
      }
    }
    return false;
  }

  lemma NextWild(clients: seq<WildcardClient>, i: nat, topic: string)
    requires DistinctClients(clients) && i < |clients|
    ensures FirstWild(clients, i + 1) == FirstWild(clients, i) + {clients[i].client} && clients[i].client !in FirstWild(clients, i)
    ensures WildPart(clients, clients[i].client, topic) == WildMatching(SubSet(clients[i].subs), topic)
  {
    WildPartAt(clients, i, topic);
  }

  /** Wildcard subscribers, those with an exact subscription left out. */
  method DeliverWildRest(entry: seq<ClientSub>, clients: seq<WildcardClient>, topic: string, registered: set<string>,
                         ds0: seq<Delivery>, ghost want: Deliveries) returns (ds: seq<Delivery>)
    requires DistinctClients(clients) && Due(want, entry, clients, topic)
    requires Covers(ds0, FirstExact(entry, |entry|), want, registered)
    ensures Covers(ds, FirstExact(entry, |entry|) + FirstWild(clients, |clients|), want, registered)
  {
    ds := ds0;
    ghost var done := FirstExact(entry, |entry|);
    for i := 0 to |clients|
      invariant done == FirstExact(entry, |entry|) + FirstWild(clients, i) && Covers(ds, done, want, registered)
    {
      var wc := clients[i];
      NextWild(clients, i, topic);
      var inExact := InExact(entry, wc.client);
      if !inExact {
        var matched, ok := MatchClientWildcards(wc.subs, topic);
        assert ExactPart(entry, wc.client) == {};
        if ok {
          ds := DeliverOne(ds, wc.client, matched, registered, done, want);
        } else {
          CoversMore(ds, done, want, registered, wc.client);
        }
        done := done + {wc.client};
      }
    }
  }

  /** Only wildcard subscribers. */
  method DeliverWildOnly(clients: seq<WildcardClient>, topic: string, registered: set<string>, ghost want: Deliveries)
    returns (ds: seq<Delivery>)
    requires DistinctClients(clients) && Due(want, [], clients, topic)
    ensures Covers(ds, FirstWild(clients, |clients|), want, registered)
  {
    ds := [];
    for i := 0 to |clients|
      invariant Covers(ds, FirstWild(clients, i), want, registered)
    {
      var wc := clients[i];
      NextWild(clients, i, topic);
      var matched, ok := MatchClientWildcards(wc.subs, topic);
      if ok {
        ds := DeliverOne(ds, wc.client, matched, registered, FirstWild(clients, i), want);
      } else {
        CoversMore(ds, FirstWild(clients, i), want, registered, wc.client);
      }
    }
  }

  /** Whoever is wanted is listed. */
  lemma AllListed(want: Deliveries, entry: seq<ClientSub>, clients: seq<WildcardClient>, topic: string)
    requires Due(want, entry, clients, topic)
    ensures want.Keys <= FirstExact(entry, |entry|) + FirstWild(clients, |clients|)
  {
    EntryMapAt(entry);
    forall c | c in want && c !in FirstWild(clients, |clients|) ensures c in FirstExact(entry, |entry|) {
      assert forall k :: 0 <= k < |clients| ==> clients[k].client in FirstWild(clients, |clients|);
      WildPartNone(clients, c, topic);
    }
  }

  lemma CoversAll(ds: seq<Delivery>, done: set<string>, want: Deliveries, registered: set<string>)
    requires Covers(ds, done, want, registered) && want.Keys <= done
    ensures Covers(ds, want.Keys, want, registered)
  {
  }

  /**
   The delivery loop used while there are no shared groups. The index may change between the two loads: each
   registered client is reached at most once, with exactly the wildcard subscriptions of the first moment and
   the exact one of the second.
   */
  method DeliverLoaded(clients: seq<WildcardClient>, entry: seq<ClientSub>, topic: string, registered: set<string>,
                       ghost earlier: Held, ghost wild: Wild, ghost later: Held) returns (ds: seq<Delivery>)
    requires HeldOk(earlier) && WildOk(wild, earlier) && SnapClientsOk(clients, wild)
    requires HeldOk(later) && EntryOk(entry, later, topic)
    ensures var want := Expected(Mixed(earlier, later), topic); Covers(ds, want.Keys, want, registered)
  {
    MixedOk(earlier, wild, later, entry, topic);
    ExpectedIsDue(Mixed(earlier, later), wild, clients, entry, topic);
    ds := DeliverListed(entry, clients, topic, registered, Expected(Mixed(earlier, later), topic));
  }

  /** What a delivery owes: the matching subscriptions, and those its clients were chosen for. */
  ghost predicate Owes(want: Deliveries, held: Held, sheld: SharedHeld, topic: string, candidates: Candidates, pick: Choice) {
    && AllOffered(candidates, sheld, topic) && Picks(candidates, pick)
    && exists selected :: Selected(selected, candidates, pick, candidates.Keys) && want == Together(Expected(held, topic), selected)
  }

  /**
   For some choice of a holder for each matching shared filter, each registered client that matches or was
   chosen is reached exactly once, with exactly those subscriptions, and nobody else is.
   */
  ghost predicate Delivered(ds: seq<Delivery>, held: Held, sheld: SharedHeld, topic: string, registered: set<string>) {
    exists want, candidates, pick :: Owes(want, held, sheld, topic, candidates, pick) && Covers(ds, want.Keys, want, registered)
  }

  /** Delivery through the lookup, with a member chosen for each shared filter. */
  method DeliverShared(entry: seq<ClientSub>, snap: Snapshot, topic: string, registered: set<string>,
                       ghost exactAt: Held, ghost snapAt: Moment) returns (ds: seq<Delivery>)
    requires EntryOf(entry, exactAt, topic) && SnapOf(snap, snapAt)
    ensures Delivered(ds, Mixed(snapAt.held, exactAt), snapAt.sheld, topic, registered)
  {
    var r, candidates := LookUpLoaded(entry, snap, topic, exactAt, snapAt);
    var selected, pick := SelectShared(candidates);
    var all := MergeSelected(r, selected);
    ds := DeliverAll(all, registered);
    assert Owes(all, Mixed(snapAt.held, exactAt), snapAt.sheld, topic, candidates, pick);
  }

  /** One delivery for each registered client of the list. */
  method DeliverAll(all: Deliveries, registered: set<string>) returns (ds: seq<Delivery>)
    ensures Covers(ds, all.Keys, all, registered)
  {
    ds := [];
    var left := all.Keys;
    ghost var done := {};
    while left != {}
      invariant left == all.Keys - done && done <= all.Keys && Covers(ds, done, all, registered)
      decreases left
    {
      var c :| c in left;
      ds := DeliverOne(ds, c, all[c], registered, done, all);
      left := left - {c};
      done := done + {c};
    }
    assert done == all.Keys;
  }

  lemma NoneShared(list: seq<SharedFilter>, keys: seq<string>, groups: Groups, sheld: SharedHeld, held: Held, topic: string)
    requires GroupsOk(groups, sheld) && SnapSharedOk(list, keys, groups) && list == []
    ensures Owes(Expected(held, topic), held, sheld, topic, map[], map[])
  {
    NothingOffered(list, keys, groups, sheld, topic);
    NothingSelected(map[]);
    TogetherNone(Expected(held, topic));
    var none: Candidates, d: Deliveries := map[], map[];
    assert Selected(d, none, map[], none.Keys);
  }

  /**
   A publish, with its loads at different moments: the snapshot that decides on the path, the exact entry,
   and on the path through the lookup the snapshot again. It delivers by the subscriptions of the moments
   its path reads.
   */
  method DeliverLoads(path: Snapshot, entry: seq<ClientSub>, snap: Snapshot, topic: string, registered: set<string>,
                      ghost pathAt: Moment, ghost exactAt: Held, ghost snapAt: Moment) returns (ds: seq<Delivery>)
    requires SnapOf(path, pathAt) && EntryOf(entry, exactAt, topic) && SnapOf(snap, snapAt)
    ensures if path.shared == [] then Delivered(ds, Mixed(pathAt.held, exactAt), pathAt.sheld, topic, registered)
            else Delivered(ds, Mixed(snapAt.held, exactAt), snapAt.sheld, topic, registered)
  {
    if path.shared == [] {
      ds := DeliverLoaded(path.clients, entry, topic, registered, pathAt.held, pathAt.wild, exactAt);
      NoneShared(path.shared, pathAt.keys, pathAt.groups, pathAt.sheld, Mixed(pathAt.held, exactAt), topic);
    } else {
      ds := DeliverShared(entry, snap, topic, registered, exactAt, snapAt);
    }
  }

  /** A publish while nothing changes. */
  method DeliverToSubscribers(x: TopicsIndex, topic: string, registered: set<string>) returns (ds: seq<Delivery>)
    requires x.Valid()
    ensures if topic == "" then ds == [] else Delivered(ds, x.held, x.sheld, topic, registered)
  {
    if topic == "" {
      return [];
    }
    var entry := x.GetExact(topic);
    ds := DeliverLoads(x.wildcardSnap, entry, x.wildcardSnap, topic, registered, x.Now(), x.held, x.Now());
    MixedSame(x.held);
  }

  /** The four cases of the delivery loop. */
  method DeliverListed(entry: seq<ClientSub>, clients: seq<WildcardClient>, topic: string, registered: set<string>,
                       ghost want: Deliveries) returns (ds: seq<Delivery>)
    requires Distinct(entry) && DistinctClients(clients) && Due(want, entry, clients, topic)
    ensures Covers(ds, want.Keys, want, registered)
  {
    AllListed(want, entry, clients, topic);
    ghost var done := FirstExact(entry, |entry|) + FirstWild(clients, |clients|);
    if entry != [] && clients == [] {
      ds := DeliverExactOnly(entry, topic, registered, want);
      assert done == FirstExact(entry, |entry|);
    } else if entry == [] && clients != [] {
      ds := DeliverWildOnly(clients, topic, registered, want);
      assert done == FirstWild(clients, |clients|);
    } else if entry != [] && clients != [] {
      ds := DeliverExactFirst(entry, clients, topic, registered, want);
      ds := DeliverWildRest(entry, clients, topic, registered, ds, want);
    } else {
      ds := [];
    }
    CoversAll(ds, done, want, registered);
  }

  /** A wildcard filter does not touch the shards. */
  lemma WildFrame(shards: seq<Shard>, hash: Hash, held: Held, f: string, held': Held)
    requires ExactOk(shards, hash, held) && IsWildcardFilter(f)
    requires forall x, c :: x != f ==> ((c, x) in held' <==> (c, x) in held)
    requires forall x, c :: x != f && (c, x) in held ==> held'[(c, x)] == held[(c, x)]
    ensures ExactOk(shards, hash, held')
  {
    forall x ensures EntryOk(EntryAt(shards, hash, x), held', x) {
      assert EntryOk(EntryAt(shards, hash, x), held, x);
      if x != f { EntryFrame(EntryAt(shards, hash, x), held, held', x); }
    }
  }
}
