/**
 Shared subscriptions: the groups, their snapshot, the lookup of a topic and the choice of one member
 per filter.
 */
module SharedGroups {
  import opened Topics
  import opened Subscriptions
  import Matchers

  /** The shared subscriptions, by client and group key. */
  type SharedHeld = map<(string, string), Sub>

  /** Group key to the members of the group. */
  type Groups = map<string, map<string, Sub>>

  datatype SharedFilter = SharedFilter(plain: string, clients: map<string, Sub>)

  /** Of a topic: each shared filter as its members spelled it, with those members. */
  type Candidates = map<string, map<string, Sub>>

  function SplitShared(filter: string): (string, string) {
    var i := FirstSlash(filter);
    if i == |filter| then ("", "")
    else
      var rest := filter[i + 1..];
      var j := FirstSlash(rest);
      if j == |rest| then (rest, "") else (rest[..j], rest[j + 1..])
  }

  function KeyOf(group: string, plain: string): string { group + "\0" + plain }

  function SharedKey(filter: string): string { KeyOf(SplitShared(filter).0, SplitShared(filter).1) }

  /** The plain filter of a key, after its first NUL. */
  function PlainOf(key: string): string {
    if key == "" then "" else if key[0] == '\0' then key[1..] else PlainOf(key[1..])
  }

  lemma {:induction false} PlainLength(key: string)
    ensures |PlainOf(key)| <= |key| && ('\0' in key ==> |PlainOf(key)| < |key|)
  {
    if key != "" && key[0] != '\0' { PlainLength(key[1..]); }
  }

  /** A key gives its plain filter back exactly when the group name has no NUL, which MQTT forbids in any string. */
  lemma {:induction false} KeyRoundTrip(group: string, plain: string)
    ensures PlainOf(KeyOf(group, plain)) == plain <==> '\0' !in group
  {
    var key := KeyOf(group, plain);
    if group == "" {
      assert key[1..] == plain;
    } else {
      assert key[1..] == KeyOf(group[1..], plain);
      if group[0] == '\0' {
        assert |key[1..]| > |plain|;
      } else {
        KeyRoundTrip(group[1..], plain);
        assert '\0' in group <==> '\0' in group[1..];
      }
    }
  }

  /** A filter put together from its parts has the key of its group and plain filter, however the prefix is spelled. */
  lemma SharedKeyOf(prefix: string, group: string, plain: string)
    requires NoSlash(prefix) && NoSlash(group)
    ensures SplitShared(prefix + "/" + group + "/" + plain) == (group, plain)
    ensures Levels(prefix + "/" + group + "/" + plain)[0] == prefix
  {
    var rest := group + "/" + plain;
    var filter := prefix + "/" + group + "/" + plain;
    assert filter == prefix + ("/" + rest);
    FirstSlashAt(prefix, "/" + rest);
    assert filter[|prefix| + 1..] == rest && filter[..|prefix|] == prefix;
    assert rest == group + ("/" + plain);
    FirstSlashAt(group, "/" + plain);
    assert rest[|group| + 1..] == plain && rest[..|group|] == group;
  }

  predicate Keyed(filter: string, key: string) { IsShared(filter) && SharedKey(filter) == key }

  /** Every subscription is held under the key of its own filter. */
  ghost predicate SharedHeldOk(sheld: SharedHeld) {
    forall p :: p in sheld ==> Keyed(sheld[p].filter, p.1)
  }

  /** The groups are the table of shared subscriptions, with no empty group. */
  ghost predicate GroupsOk(groups: Groups, sheld: SharedHeld) {
    && (forall k, c :: (k in groups && c in groups[k]) <==> (c, k) in sheld)
    && (forall k, c :: k in groups && c in groups[k] ==> groups[k][c] == sheld[(c, k)])
    && (forall k :: k in groups ==> groups[k] != map[])
  }

  function GroupsWith(groups: Groups, client: string, sub: Sub): Groups {
    var key := SharedKey(sub.filter);
    groups[key := (if key in groups then groups[key] else map[])[client := sub]]
  }

  function GroupsWithout(groups: Groups, client: string, key: string): Groups
    requires key in groups
  {
    var clients := groups[key] - {client};
    if clients == map[] then groups - {key} else groups[key := clients]
  }

  lemma GroupAddedAt(groups: Groups, sheld: SharedHeld, client: string, sub: Sub, k: string, c: string)
    requires GroupsOk(groups, sheld)
    ensures var next, key := GroupsWith(groups, client, sub), SharedKey(sub.filter);
      var with := sheld[(client, key) := sub];
      && ((k in next && c in next[k]) <==> (c, k) in with)
      && (k in next && c in next[k] ==> next[k][c] == with[(c, k)])
      && (k in next ==> next[k] != map[])
  {
    var next, key := GroupsWith(groups, client, sub), SharedKey(sub.filter);
    assert client in next[key];
    assert (c, k) == (client, key) <==> c == client && k == key;
  }

  lemma GroupAdded(groups: Groups, sheld: SharedHeld, client: string, sub: Sub)
    requires GroupsOk(groups, sheld)
    ensures GroupsOk(GroupsWith(groups, client, sub), sheld[(client, SharedKey(sub.filter)) := sub])
  {
    var next, with := GroupsWith(groups, client, sub), sheld[(client, SharedKey(sub.filter)) := sub];
    forall k, c
      ensures (k in next && c in next[k]) <==> (c, k) in with
      ensures k in next && c in next[k] ==> next[k][c] == with[(c, k)]
      ensures k in next ==> next[k] != map[]
    {
      GroupAddedAt(groups, sheld, client, sub, k, c);
    }
  }

  lemma FewerHeld(sheld: SharedHeld, gone: set<(string, string)>)
    requires SharedHeldOk(sheld)
    ensures SharedHeldOk(sheld - gone)
  {
    var rest := sheld - gone;
    forall p | p in rest ensures Keyed(rest[p].filter, p.1) {
      assert p in sheld && rest[p] == sheld[p];
    }
  }

  lemma GroupRemoved(groups: Groups, sheld: SharedHeld, client: string, key: string)
    requires GroupsOk(groups, sheld) && key in groups && client in groups[key]
    ensures GroupsOk(GroupsWithout(groups, client, key), sheld - {(client, key)})
  {
    var clients := groups[key] - {client};
    assert clients == map[] ==> forall c :: c in groups[key] ==> c == client by {
      assert forall c :: c in groups[key] && c != client ==> c in clients;
    }
  }

  /** The snapshot has one entry per group, in the order of keys. */
  ghost predicate SnapSharedOk(list: seq<SharedFilter>, keys: seq<string>, groups: Groups) {
    && |keys| == |list|
    && (forall i :: 0 <= i < |keys| ==> keys[i] in groups && list[i] == SharedFilter(PlainOf(keys[i]), groups[keys[i]]))
    && (forall k :: k in groups ==> k in keys)
  }

  method ListShared(groups: Groups) returns (list: seq<SharedFilter>, keys: seq<string>)
    requires forall k :: k in groups ==> groups[k] != map[] && '\0' in k
    ensures SnapSharedOk(list, keys, groups)
  {
    list, keys := [], [];
    var left := groups.Keys;
    while left != {}
      invariant left <= groups.Keys && |keys| == |list|
      invariant forall i :: 0 <= i < |keys| ==> keys[i] in groups && list[i] == SharedFilter(PlainOf(keys[i]), groups[keys[i]])
      invariant forall k :: k in groups && k !in left ==> k in keys
      decreases left
    {
      var k :| k in left;
      left := left - {k};
      if groups[k] != map[] && '\0' in k {
        list, keys := list + [SharedFilter(PlainOf(k), groups[k])], keys + [k];
      }
    }
  }

  /** The client subscribed with this very filter, and the filter matches. */
  ghost predicate Offers(sheld: SharedHeld, topic: string, f: string, c: string) {
    (c, SharedKey(f)) in sheld && sheld[(c, SharedKey(f))].filter == f && Matches(PlainOf(SharedKey(f)), topic)
  }

  /** The candidates from the pairs of done: exactly those, each under its filter. */
  ghost predicate Listed(r: Candidates, sheld: SharedHeld, done: set<(string, string)>) {
    && (forall f, c :: (f in r && c in r[f]) <==> (c, SharedKey(f)) in done && (c, SharedKey(f)) in sheld && sheld[(c, SharedKey(f))].filter == f)
    && (forall f, c :: f in r && c in r[f] ==> r[f][c] == sheld[(c, SharedKey(f))])
    && (forall f :: f in r ==> r[f] != map[])
  }

  function Add(r: Candidates, c: string, sub: Sub): Candidates {
    r[sub.filter := (if sub.filter in r then r[sub.filter] else map[])[c := sub]]
  }

  lemma AddListed(r: Candidates, sheld: SharedHeld, done: set<(string, string)>, c: string, k: string)
    requires SharedHeldOk(sheld) && (c, k) in sheld && Listed(r, sheld, done)
    ensures Listed(Add(r, c, sheld[(c, k)]), sheld, done + {(c, k)})
  {
    var sub := sheld[(c, k)];
    var next := Add(r, c, sub);
    assert SharedKey(sub.filter) == k && c in next[sub.filter];
    forall f, d ensures (f in next && d in next[f]) <==>
                        (d, SharedKey(f)) in done + {(c, k)} && (d, SharedKey(f)) in sheld && sheld[(d, SharedKey(f))].filter == f {
    }
  }

  function Pairs(clients: set<string>, k: string): set<(string, string)> { set c | c in clients :: (c, k) }

  lemma PairsMore(done: set<(string, string)>, clients: set<string>, left: set<string>, c: string, k: string)
    requires c in left && left <= clients
    ensures done + Pairs(clients - (left - {c}), k) == done + Pairs(clients - left, k) + {(c, k)}
  {
  }

  /** The members of one matching group. */
  method AddGroup(r0: Candidates, clients: map<string, Sub>, ghost sheld: SharedHeld, ghost done: set<(string, string)>, ghost k: string)
    returns (r: Candidates)
    requires SharedHeldOk(sheld) && Listed(r0, sheld, done)
    requires forall c :: c in clients ==> (c, k) in sheld && clients[c] == sheld[(c, k)]
    ensures Listed(r, sheld, done + Pairs(clients.Keys, k))
  {
    r := r0;
    var left := clients.Keys;
    ghost var seen := done;
    NoPairs(done, clients.Keys, k);
    while left != {}
      invariant left <= clients.Keys && seen == done + Pairs(clients.Keys - left, k) && Listed(r, sheld, seen)
      decreases left
    {
      var c :| c in left;
      AddListed(r, sheld, seen, c, k);
      PairsMore(done, clients.Keys, left, c, k);
      left := left - {c};
      seen := seen + {(c, k)};
      r := Add(r, c, clients[c]);
    }
    assert clients.Keys - left == clients.Keys;
  }

  lemma NoPairs(done: set<(string, string)>, clients: set<string>, k: string)
    ensures done + Pairs(clients - clients, k) == done
  {
  }

  /** The pairs whose group is among the first n entries and matches. */
  ghost function DonePairs(keys: seq<string>, n: nat, groups: Groups, topic: string): set<(string, string)>
    requires n <= |keys|
  {
    set i, c | 0 <= i < n && keys[i] in groups && Matches(PlainOf(keys[i]), topic) && c in groups[keys[i]] :: (c, keys[i])
  }

  /** The candidates of a topic: for each shared filter as spelled exactly the clients that offer it. */
  ghost predicate AllOffered(r: Candidates, sheld: SharedHeld, topic: string) {
    && (forall f, c :: (f in r && c in r[f]) <==> Offers(sheld, topic, f, c))
    && (forall f, c :: f in r && c in r[f] ==> r[f][c] == sheld[(c, SharedKey(f))])
    && (forall f :: f in r ==> r[f] != map[])
  }

  lemma DoneNext(keys: seq<string>, i: nat, groups: Groups, topic: string)
    requires i < |keys| && keys[i] in groups
    ensures DonePairs(keys, i + 1, groups, topic) ==
            DonePairs(keys, i, groups, topic) + (if Matches(PlainOf(keys[i]), topic) then Pairs(groups[keys[i]].Keys, keys[i]) else {})
  {
  }

  lemma DoneAll(r: Candidates, sheld: SharedHeld, keys: seq<string>, groups: Groups, topic: string)
    requires GroupsOk(groups, sheld) && (forall k :: k in groups ==> k in keys)
    requires Listed(r, sheld, DonePairs(keys, |keys|, groups, topic))
    ensures AllOffered(r, sheld, topic)
  {
    var done := DonePairs(keys, |keys|, groups, topic);
    forall c, k ensures (c, k) in done <==> (c, k) in sheld && Matches(PlainOf(k), topic) {
      if (c, k) in sheld && Matches(PlainOf(k), topic) {
        assert k in groups && c in groups[k];
        var i :| 0 <= i < |keys| && keys[i] == k;
      }
    }
  }

  lemma MembersHeld(list: seq<SharedFilter>, keys: seq<string>, groups: Groups, sheld: SharedHeld, i: nat)
    requires GroupsOk(groups, sheld) && SnapSharedOk(list, keys, groups) && i < |list|
    ensures keys[i] in groups && list[i].plain == PlainOf(keys[i]) && list[i].clients == groups[keys[i]]
    ensures forall c :: c in list[i].clients ==> (c, keys[i]) in sheld && list[i].clients[c] == sheld[(c, keys[i])]
  {
  }

  lemma NothingOffered(list: seq<SharedFilter>, keys: seq<string>, groups: Groups, sheld: SharedHeld, topic: string)
    requires GroupsOk(groups, sheld) && SnapSharedOk(list, keys, groups) && list == []
    ensures AllOffered(map[], sheld, topic)
  {
    assert forall c, k :: (c, k) in sheld ==> k in groups;
  }

  /** One entry of the snapshot. */
  method AddEntry(r0: Candidates, entry: SharedFilter, topic: string, ghost sheld: SharedHeld, ghost done: set<(string, string)>, ghost k: string)
    returns (r: Candidates)
    requires SharedHeldOk(sheld) && Listed(r0, sheld, done) && entry.plain == PlainOf(k)
    requires forall c :: c in entry.clients ==> (c, k) in sheld && entry.clients[c] == sheld[(c, k)]
    ensures Listed(r, sheld, done + (if Matches(PlainOf(k), topic) then Pairs(entry.clients.Keys, k) else {}))
  {
    var hit := Matchers.MatchMqttTopic(entry.plain, topic);
    if hit {
      r := AddGroup(r0, entry.clients, sheld, done, k);
    } else {
      assert done + {} == done;
      r := r0;
    }
  }

  /** The loop over the snapshot. */
  method LookUpShared(list: seq<SharedFilter>, topic: string, ghost keys: seq<string>, ghost groups: Groups, ghost sheld: SharedHeld)
    returns (r: Candidates)
    requires SharedHeldOk(sheld) && GroupsOk(groups, sheld) && SnapSharedOk(list, keys, groups)
    ensures AllOffered(r, sheld, topic)
  {
    r := map[];
    for i := 0 to |list|
      invariant Listed(r, sheld, DonePairs(keys, i, groups, topic))
    {
      MembersHeld(list, keys, groups, sheld, i);
      DoneNext(keys, i, groups, topic);
      r := AddEntry(r, list[i], topic, sheld, DonePairs(keys, i, groups, topic), keys[i]);
    }
    DoneAll(r, sheld, keys, groups, topic);
  }

  /** One member for each shared filter. */
  type Choice = map<string, string>

  ghost predicate Picks(r: Candidates, pick: Choice) {
    pick.Keys == r.Keys && forall f :: f in r ==> pick[f] in r[f]
  }

  /** The subscriptions a client was chosen for, among some filters. */
  function ChosenFor(r: Candidates, pick: Choice, among: set<string>, c: string): set<Sub> {
    set f | f in among && f in r && f in pick && pick[f] == c && c in r[f] :: r[f][c]
  }

  /** selected lists exactly the clients chosen among those filters, with the subscriptions they were chosen for. */
  ghost predicate Selected(selected: Deliveries, r: Candidates, pick: Choice, among: set<string>) {
    && (forall c :: c in selected <==> ChosenFor(r, pick, among, c) != {})
    && (forall c :: c in selected ==> selected[c] == ChosenFor(r, pick, among, c))
  }

  lemma ChosenNext(r: Candidates, pick: Choice, among: set<string>, f: string, member: string, c: string)
    requires f in r && f !in pick && f !in among && member in r[f]
    ensures ChosenFor(r, pick[f := member], among + {f}, c) == ChosenFor(r, pick, among, c) + (if c == member then {r[f][c]} else {})
  {
    assert forall g :: g in among ==> g != f;
  }

  function SubsOf(d: Deliveries, c: string): set<Sub> { if c in d then d[c] else {} }

  function Chosen(selected: Deliveries, member: string, sub: Sub): Deliveries {
    selected[member := SubsOf(selected, member) + {sub}]
  }

  lemma SelectedNext(selected: Deliveries, r: Candidates, pick: Choice, among: set<string>, f: string, member: string)
    requires Selected(selected, r, pick, among) && f in r && f !in pick && f !in among && member in r[f]
    ensures Selected(Chosen(selected, member, r[f][member]), r, pick[f := member], among + {f})
  {
    var next := Chosen(selected, member, r[f][member]);
    forall c
      ensures c in next <==> ChosenFor(r, pick[f := member], among + {f}, c) != {}
      ensures c in next ==> next[c] == ChosenFor(r, pick[f := member], among + {f}, c)
    {
      ChosenNext(r, pick, among, f, member, c);
      assert SubsOf(selected, c) == ChosenFor(r, pick, among, c);
    }
  }

  ghost predicate SelectedSoFar(selected: Deliveries, r: Candidates, pick: Choice, among: set<string>) {
    && pick.Keys == among && among <= r.Keys && (forall f :: f in pick ==> pick[f] in r[f])
    && Selected(selected, r, pick, among)
  }

  lemma SoFarNext(selected: Deliveries, r: Candidates, pick: Choice, among: set<string>, f: string, member: string)
    requires SelectedSoFar(selected, r, pick, among) && f in r && f !in among && member in r[f]
    ensures SelectedSoFar(Chosen(selected, member, r[f][member]), r, pick[f := member], among + {f})
  {
    SelectedNext(selected, r, pick, among, f, member);
  }

  lemma NothingSelected(r: Candidates)
    ensures SelectedSoFar(map[], r, map[], {})
  {
    forall c ensures ChosenFor(r, map[], {}, c) == {} {}
  }

  /** The choice for one filter. */
  method SelectOne(selected0: Deliveries, pick0: Choice, r: Candidates, f: string, ghost among: set<string>)
    returns (selected: Deliveries, pick: Choice)
    requires SelectedSoFar(selected0, r, pick0, among) && f in r && f !in among && r[f] != map[]
    ensures SelectedSoFar(selected, r, pick, among + {f})
  {
    var member := AnyMember(r[f]);
    SoFarNext(selected0, r, pick0, among, f, member);
    selected, pick := Chosen(selected0, member, r[f][member]), pick0[f := member];
  }

  /** SelectShared: for each filter whichever member the map yields first. */
  method SelectShared(r: Candidates) returns (selected: Deliveries, pick: Choice)
    requires forall f :: f in r ==> r[f] != map[]
    ensures Picks(r, pick) && Selected(selected, r, pick, r.Keys)
  {
    selected, pick := map[], map[];
    var left := r.Keys;
    ghost var among := {};
    NothingSelected(r);
    while left != {}
      invariant left == r.Keys - among && SelectedSoFar(selected, r, pick, among)
      decreases left
    {
      var f :| f in left;
      selected, pick := SelectOne(selected, pick, r, f, among);
      left := left - {f};
      among := among + {f};
    }
    assert among == r.Keys;
  }

  method AnyMember(clients: map<string, Sub>) returns (c: string)
    requires clients != map[]
    ensures c in clients
  {
    assert clients.Keys != {};
    c :| c in clients.Keys;
  }

  /** Both lists together. */
  function Together(a: Deliveries, b: Deliveries): Deliveries {
    map c | c in a.Keys + b.Keys :: SubsOf(a, c) + SubsOf(b, c)
  }

  lemma TogetherNone(a: Deliveries)
    ensures Together(a, map[]) == a
  {
    assert forall c :: c in a ==> SubsOf(a, c) + {} == a[c];
  }

  ghost predicate MergedSoFar(r: Deliveries, a: Deliveries, b: Deliveries, left: set<string>) {
    && r.Keys == a.Keys + (b.Keys - left)
    && forall c :: c in r ==> r[c] == SubsOf(a, c) + (if c in left then {} else SubsOf(b, c))
  }

  lemma MergedNext(r: Deliveries, a: Deliveries, b: Deliveries, left: set<string>, c: string)
    requires MergedSoFar(r, a, b, left) && c in left && c in b
    ensures MergedSoFar(r[c := SubsOf(r, c) + b[c]], a, b, left - {c})
  {
    assert SubsOf(r, c) == SubsOf(a, c);
  }

  lemma MergedEnds(r: Deliveries, a: Deliveries, b: Deliveries)
    requires MergedSoFar(r, a, b, {})
    ensures r == Together(a, b)
  {
  }

  lemma MergedStarts(a: Deliveries, b: Deliveries)
    ensures MergedSoFar(a, a, b, b.Keys)
  {
  }

  /** MergeSharedSelected: a client in both lists is in the result once. */
  method MergeSelected(a: Deliveries, b: Deliveries) returns (r: Deliveries)
    ensures r == Together(a, b)
  {
    r := a;
    var left := b.Keys;
    MergedStarts(a, b);
    while left != {}
      invariant left <= b.Keys && MergedSoFar(r, a, b, left)
      decreases left
    {
      var c :| c in left;
      MergedNext(r, a, b, left, c);
      r := r[c := SubsOf(r, c) + b[c]];
      left := left - {c};
    }
    MergedEnds(r, a, b);
  }

  /** The filters, as spelled, under which a topic finds one group. */
  function Spellings(r: Candidates, k: string): set<string> { set f | f in r && SharedKey(f) == k }

  ghost predicate SpelledAlike(sheld: SharedHeld, k: string) {
    forall c, d :: (c, k) in sheld && (d, k) in sheld ==> sheld[(c, k)].filter == sheld[(d, k)].filter
  }

  /** The members of one group that are chosen. */
  function ChosenMembers(pick: Choice, k: string): set<string> { set f | f in pick && SharedKey(f) == k :: pick[f] }

  /** The clients chosen for some filters of a group. */
  function PickedFor(pick: Choice, among: set<string>): set<string> { set f | f in among && f in pick :: pick[f] }

  /** No client is chosen for two spellings, since it holds the group under one. */
  lemma PicksApart(sheld: SharedHeld, topic: string, r: Candidates, pick: Choice, k: string, f: string, g: string)
    requires AllOffered(r, sheld, topic) && Picks(r, pick) && f in Spellings(r, k) && g in Spellings(r, k) && f != g
    ensures pick[f] != pick[g]
  {
    ChosenAreMembers(sheld, topic, r, pick, k, f);
    ChosenAreMembers(sheld, topic, r, pick, k, g);
  }

  ghost predicate AllApart(pick: Choice, among: set<string>) {
    among <= pick.Keys && forall f, g :: f in among && g in among && f != g ==> pick[f] != pick[g]
  }

  lemma {:induction false} PickedCount(pick: Choice, among: set<string>)
    requires AllApart(pick, among)
    ensures |PickedFor(pick, among)| == |among|
    decreases among
  {
    if among != {} {
      var f :| f in among;
      var rest := among - {f};
      PickedCount(pick, rest);
      assert PickedFor(pick, among) == PickedFor(pick, rest) + {pick[f]};
      assert pick[f] !in PickedFor(pick, rest);
    }
  }

  /** The spellings found are those of the members. */
  lemma SpellingsAre(sheld: SharedHeld, topic: string, r: Candidates, k: string)
    requires SharedHeldOk(sheld) && AllOffered(r, sheld, topic) && Matches(PlainOf(k), topic)
    ensures forall c :: (c, k) in sheld ==> sheld[(c, k)].filter in Spellings(r, k)
    ensures forall f :: f in Spellings(r, k) ==> exists c :: (c, k) in sheld && sheld[(c, k)].filter == f
  {
    forall c | (c, k) in sheld ensures sheld[(c, k)].filter in Spellings(r, k) {
      assert Keyed(sheld[(c, k)].filter, k) && Offers(sheld, topic, sheld[(c, k)].filter, c);
    }
    forall f | f in Spellings(r, k) ensures exists c :: (c, k) in sheld && sheld[(c, k)].filter == f {
      assert r[f] != map[];
      var c :| c in r[f];
      assert Offers(sheld, topic, f, c);
    }
  }

  /** As many members of a matching group are chosen as its members spelled its filter in different ways. */
  lemma ChosenCount(sheld: SharedHeld, topic: string, r: Candidates, pick: Choice, k: string)
    requires AllOffered(r, sheld, topic) && Picks(r, pick)
    ensures |ChosenMembers(pick, k)| == |Spellings(r, k)|
  {
    forall f, g | f in Spellings(r, k) && g in Spellings(r, k) && f != g ensures pick[f] != pick[g] {
      PicksApart(sheld, topic, r, pick, k, f, g);
    }
    PickedCount(pick, Spellings(r, k));
    assert ChosenMembers(pick, k) == PickedFor(pick, Spellings(r, k));
  }

  lemma OneSpelling(sheld: SharedHeld, topic: string, r: Candidates, k: string, c: string)
    requires SharedHeldOk(sheld) && AllOffered(r, sheld, topic) && Matches(PlainOf(k), topic) && (c, k) in sheld
    ensures |Spellings(r, k)| == 1 <==> SpelledAlike(sheld, k)
    ensures sheld[(c, k)].filter in Spellings(r, k)
  {
    SpellingsAre(sheld, topic, r, k);
    if SpelledAlike(sheld, k) {
      assert Spellings(r, k) == {sheld[(c, k)].filter};
    } else {
      var d, e :| (d, k) in sheld && (e, k) in sheld && sheld[(d, k)].filter != sheld[(e, k)].filter;
      TwoElements(Spellings(r, k), sheld[(d, k)].filter, sheld[(e, k)].filter);
    }
  }

  lemma ChosenHold(sheld: SharedHeld, topic: string, r: Candidates, pick: Choice, k: string, m: string)
    requires AllOffered(r, sheld, topic) && Picks(r, pick) && m in ChosenMembers(pick, k)
    ensures (m, k) in sheld
  {
    var f :| f in pick && SharedKey(f) == k && pick[f] == m;
    ChosenAreMembers(sheld, topic, r, pick, k, f);
  }

  /**
   Section 4.8.2 of MQTT 5.0 asks for one member of each matching group. Whatever members the maps yield,
   exactly one is chosen if and only if all members of the group spelled its filter alike.
   */
  lemma OneMemberExactly(sheld: SharedHeld, topic: string, r: Candidates, pick: Choice, k: string, c: string)
    requires SharedHeldOk(sheld) && AllOffered(r, sheld, topic) && Picks(r, pick)
    requires (c, k) in sheld && Matches(PlainOf(k), topic)
    ensures |ChosenMembers(pick, k)| == 1 <==> SpelledAlike(sheld, k)
    ensures ChosenMembers(pick, k) != {} && forall m :: m in ChosenMembers(pick, k) ==> (m, k) in sheld
  {
    ChosenCount(sheld, topic, r, pick, k);
    OneSpelling(sheld, topic, r, k, c);
    assert |Spellings(r, k)| > 0;
    forall m | m in ChosenMembers(pick, k) ensures (m, k) in sheld { ChosenHold(sheld, topic, r, pick, k, m); }
  }

  lemma TwoElements(s: set<string>, a: string, b: string)
    requires a in s && b in s && a != b
    ensures |s| != 1
  {
    assert |s| == |s - {a}| + 1 && b in s - {a};
  }

  /** Whoever is chosen is a member of the group. */
  lemma ChosenAreMembers(sheld: SharedHeld, topic: string, r: Candidates, pick: Choice, k: string, f: string)
    requires AllOffered(r, sheld, topic) && Picks(r, pick) && f in Spellings(r, k)
    ensures (pick[f], k) in sheld && sheld[(pick[f], k)].filter == f && Matches(PlainOf(k), topic)
  {
    assert Offers(sheld, topic, f, pick[f]);
  }

  lemma SpelledShared(prefix: string, group: string, topic: string)
    requires |prefix| == 6 && NoSlash(prefix) && NoSlash(group)
    requires forall i :: 0 <= i < 6 ==> Folds(prefix[i], "$share"[i])
    ensures Keyed(prefix + "/" + group + "/" + topic, KeyOf(group, topic))
  {
    SharedKeyOf(prefix, group, topic);
  }

  /** The same shared filter with the prefix in small and in capital letters: different filters, one group. */
  lemma TwoSpellings(group: string, topic: string)
    requires NoSlash(group)
    ensures var f, g := "$share" + "/" + group + "/" + topic, "$SHARE" + "/" + group + "/" + topic;
      f != g && Keyed(f, KeyOf(group, topic)) && Keyed(g, KeyOf(group, topic))
  {
    SpelledShared("$share", group, topic);
    SpelledShared("$SHARE", group, topic);
    var f, g := "$share" + "/" + group + "/" + topic, "$SHARE" + "/" + group + "/" + topic;
    assert f[1] == 's' && g[1] == 'S';
  }

  /** In any table with two spellings of one group, at least two of its members receive every message. */
  lemma TwoSpellingsTwoMembers(sheld: SharedHeld, topic: string, r: Candidates, pick: Choice, k: string, a: string, b: string)
    requires SharedHeldOk(sheld) && AllOffered(r, sheld, topic) && Picks(r, pick) && Matches(PlainOf(k), topic)
    requires (a, k) in sheld && (b, k) in sheld && sheld[(a, k)].filter != sheld[(b, k)].filter
    ensures |ChosenMembers(pick, k)| >= 2
  {
    OneMemberExactly(sheld, topic, r, pick, k, a);
  }
}
