# MonsterMQ Edge: a verified model of the broker's core

A Dafny model of the parts of the broker whose correctness depends on every interleaving, every run or
every topic: the QoS 1/2 engine of a session, retained values replicated from peers, the subscription
index, ACL checks and their memo, the connection writer, topic aliases and the Kafka stream bridge.
`dafny verify dfyconfig.toml` checks the whole project.

Two forms are used side by side. Objects that the broker changes in place (`Inflight`, `Client`,
`ReplicaRetained`, `TopicsIndex`, `Cache`, `OutboundQueue`, `ConnWriter`, `Orchestrator`, `Stream`) are
classes; each method is proved equal to a function on the object's value. Protocols between goroutines
are state machines whose steps are those functions, one step per lock section, channel operation or
store call; the main theorems hold in every state of every run.

| file | what it models |
|---|---|
| `Topics`, `Matchers`, `Filters` | topic levels, the rule of section 4.7 of MQTT 5.0, the four matchers of the broker, filter validation |
| `AclPatterns`, `Acl`, `AclCache` | pattern covering, the rule scan and its sort, the decision memo under concurrent refreshes |
| `Inflight`, `Session`, `Client` | the in-flight map and the QoS 1/2 engine of a connection |
| `SendWindow`, `SendConduct`, `SendRuns` | the send window: exact conditions over all runs, well-behaved clients, failing runs |
| `ReceiveWindow`, `ReceiveRuns` | the receive window, QoS 2 flows and failing runs |
| `Retained`, `RetainedFlush`, `ReplicaRetained` | retained replicas and their flush protocol |
| `TopicsIndex`, `SharedGroups` | subscriptions, shared groups, snapshots, lookup and the delivery loop |
| `OutboundQueue`, `Writer`, `Aliases` | the ring deque, the write loop with its producers, topic aliases |
| `Kafka`, `KafkaRun`, `KafkaFetch` | the stream orchestrator, its interleavings, long-poll fetches |

## What the proofs found

Each of these is a lemma with a concrete run or input and, where the code fails a property, the exact
condition under which it meets it. In the session results each packet handler, expiry sweep and drop loop
is one step, and each part of a delivery another.

- The send window can break in two ways, and over whole runs it holds exactly as long as neither happens
  (`SendWindow.WindowExact`). First, a client may acknowledge a message that is still queued; once the
  packet ids have gone round, its id goes to a message that has to wait, and the writer, dropping the
  queued copy for its size, takes the waiting message for its own and returns a unit nobody held. The run
  is given for every maximum packet id from 2 on, with every id the one `NextPacketID` returns
  (`SendRuns.QueuedReuseBreaksWindow`). Second, a delivery stores its message and pushes it to the writer
  in two lock sections; if the client acknowledges in between and the queue is full, the rollback returns
  the unit again (`SendRuns.EarlyAckBreaksWindow`). Clients that acknowledge only what was pushed, and ids
  not reused while a copy carries them, rule both out (`SendConduct.SendWindowHolds`).
- A message can be left waiting while quota is free, whatever the client does: a rollback returns a unit
  that another message waits for, and nobody claims it (`SendRuns.RollbackStrands`). Over whole runs no
  message waits needlessly exactly as long as no rollback happens while another waits
  (`SendWindow.WaitExact`).
- An oversize QoS 1/2 message is released exactly when its topic does not go out by alias
  (`SendRuns.OversizeReleased`). For every topic and alias maximum there is a run after which a message
  that was never sent keeps its entry and the only unit (`SendRuns.AliasedOversizeStays`).
- A client's QoS 2 message can be delivered twice without a PUBREL: after an expiry sweep
  (`ReceiveRuns.SweepDeliversTwice`); when its packet id meets that of an outbound message whose delivery
  is then rolled back, which removes the client's PUBREC (`ReceiveRuns.RollbackDeliversTwice`); and when
  an outbound message that chose the id before the client used it is stored over the PUBREC
  (`ReceiveRuns.StoringDeliversTwice`). A later deliverable PUBLISH of an id is delivered again exactly
  when the flow was ended, by its PUBREL or in one of these three ways, and not opened since
  (`ReceiveWindow.DeliversAgainExactly`, `ReceiveWindow.RedeliveredExactlyWhenTorn`).
- Open flows and receive quota make up Receive Maximum exactly as long as no sweep, rollback or stored
  outbound message removed an open flow and every PUBCOMP was written
  (`ReceiveWindow.ReceiveWindowHolds`).
- Whatever members the maps yield, exactly one member of a shared group is chosen for a message if and
  only if all members spelled the filter alike (`SharedGroups.OneMemberExactly`). The lookup goes by the
  filter as spelled, so with `$share/g/t` and `$SHARE/g/t`, one group in the index, at least two members
  receive the message (`SharedGroups.TwoSpellings`, `SharedGroups.TwoSpellingsTwoMembers`).
- A message a stream store refuses is lost exactly when the flush it was refused in ended cancelled
  (`KafkaRun.LostExactly`, with a losing run in `KafkaRun.CancelledFlushLoses`).
- The ACL pattern `+/#` covers the filter `#`, since both leave out `$` topics, and is refused; this is
  the only such pair among valid filters (`AclPatterns.CoveringExact`).
- The search for a packet id ends unless it starts beyond the maximum with every id in use; a session
  never stores such a start (`PacketIdSearch.StopsExactly`, `ClientSession.Client.NextPacketID`).
- The NATS level test alone also accepts what the `$` rule blocks, and nothing else
  (`Matchers.NatsAgrees`). The archive matcher refuses the parent level of `a/#`, and nothing else
  (`Matchers.ArchiveMatchTopic`).

## Model

| member | source | states |
|---|---|---|
| Topics.LevelsOfJoin | internal/mqtt/topics.go:313-346 | splitting at `/` undoes joining, so level lists and topic strings correspond one to one |
| Topics.JoinOfLevels | internal/mqtt/topics.go:313-346 | joining undoes splitting, and no level holds a `/` |
| Topics.ScanIsLevelsMatch | internal/mqtt/topics.go:313-346 | reading filter and topic level by level from the left is the quantified rule of section 4.7.1 of MQTT 5.0 |
| Topics.ExactFilterMatches | internal/mqtt/topics.go:218-220 | a filter without wildcard characters matches exactly the topic it spells, which is why exact filters can be looked up by key |
| Matchers.MatchMqttTopic | internal/mqtt/topics.go:313-346 | the two-offset matcher is true exactly when section 4.7 says so, `$` rule included, for all strings |
| Matchers.MatchLevelByLevel | internal/mqtt/topics.go:320-345 | its loop over two offsets is the level-by-level scan |
| Matchers.ArchiveMatchTopic | internal/archive/group.go:315-352 | the archive matcher accepts exactly what section 4.7 accepts, save topics whose levels end where the `#` begins |
| Matchers.ArchiveLevelByLevel | internal/archive/group.go:323-352 | its shortening loop is the scan in which `#` needs a level |
| Matchers.NatsAgrees | internal/nats/subject.go:24-42 | the NATS level test together with the `$` test is section 4.7; the level test alone differs exactly on blocked `$` topics |
| Filters.IsValidFilter | internal/mqtt/topics.go:804-868 | for every string: a subscription filter is accepted exactly when wildcards fill levels, `#` is last and a shared filter has a plain group and a filter; a topic exactly when it is concrete, not `$SYS` and not a malformed share |
| Filters.LevelsWhole | internal/mqtt/topics.go:848-866 | the pass over the levels accepts exactly when every wildcard fills its level |
| Filters.ShareTest | internal/mqtt/topics.go:827-846 | the tests on the shared prefix are the conditions of section 4.8.2 on levels |
| Filters.WellFormedIs | internal/mqtt/topics.go:822-866 | one test of the first `#` and one of each level make up the level-wise rule |
| AclPatterns.TopicMatchesIs | internal/auth/auth.go:386-411 | what the ACL matcher accepts, without its loop |
| AclPatterns.AclMatcherAgrees | internal/auth/auth.go:386-411 | on concrete topics the ACL matcher is section 4.7 |
| AclPatterns.CoveringSound | internal/auth/auth.go:386-411 | if a pattern covers a filter, it matches every concrete topic the filter matches, for all patterns and filters |
| AclPatterns.CoveringComplete | internal/auth/auth.go:386-411 | a pattern that matches all topics of a valid filter is accepted, outside the one exception |
| AclPatterns.PlusHashCoversAll | internal/auth/auth.go:386-411 | the exception: `#` under a pattern starting `+/#` is covered and refused |
| AclPatterns.CoveringExact | internal/auth/auth.go:386-411 | for valid filters accepted is the same as covered, with that exception, both directions |
| Acl.SortSorts | internal/auth/auth.go:127-139 | Refresh's order of the rules is sorted and a permutation |
| Acl.ScanIsGranted | internal/auth/auth.go:295-360 | on sorted rules the first-match scan grants exactly when some rule applies and no applying deny rule has the top applying priority |
| Acl.VerdictOfRules | internal/auth/auth.go:127-139 | the same of rules in whatever order the store returned them |
| Acl.OrderIrrelevant | internal/auth/auth.go:127-139 | the verdict depends only on the multiset of rules |
| AclCache.GroupRules | internal/auth/auth.go:122-143 | rules are grouped by user, in order, and no user without rules is listed |
| AclCache.SortGroups | internal/auth/auth.go:127-139 | each group is replaced by its stable sort, no other |
| AclCache.RememberBounded | internal/auth/auth.go:266-293 | the memo never grows past its bound and stores nothing but the new decision |
| AclCache.Cache.Refresh | internal/auth/auth.go:122-156 | a refresh replaces users and rules, empties the memo and starts a generation, or on a failed load changes nothing; each user's scan then grants by the multiset of their rules |
| AclCache.Cache.SetCanonical | internal/auth/auth.go:253-263 | a new alias mapping empties the memo and starts a generation |
| AclCache.Cache.AllowClient | internal/auth/auth.go:266-293 | a check answers the verdict of the current tables whether or not it was memoised, and keeps the memo right |
| AclMemo.StepKeeps | internal/auth/auth.go:144-154 | every lock section of checks, refreshes and alias changes keeps each stored decision equal to the current verdict |
| AclMemo.MemoNeverStale | internal/auth/auth.go:253-293 | in every interleaving every stored decision is the verdict of the current users, rules and mapping, and the memo is bounded |
| Inflight.Inflight.constructor | internal/mqtt/inflight.go:32-39 | a new map is empty with full quotas |
| Inflight.Inflight.PutLocked | internal/mqtt/inflight.go:41-56 | a replaced entry keeps its arrival number, a new one gets the next, and the deferred counter follows |
| Inflight.Inflight.Set | internal/mqtt/inflight.go:59-63 | an entry is stored and the map stays consistent; reports whether it is new |
| Inflight.Inflight.SetOutbound | internal/mqtt/inflight.go:138-158 | a message takes a unit, or waits when there is none or others already wait |
| Inflight.Inflight.FindOldest | internal/mqtt/inflight.go:168-209 | the search over the map in any order finds the waiting message that arrived first, or none waits |
| Inflight.Inflight.ClaimNextImmediate | internal/mqtt/inflight.go:168-209 | hands out the oldest waiting message with a unit and its expiry restored, or changes nothing |
| Inflight.Inflight.Delete | internal/mqtt/inflight.go:212-223 | removes one entry and corrects the counter |
| Inflight.Inflight.DecreaseReceiveQuota | internal/mqtt/inflight.go:254-264 | takes a unit exactly when there is one |
| Inflight.Inflight.IncreaseReceiveQuota | internal/mqtt/inflight.go:267-276 | gives a unit back up to the maximum |
| Inflight.Inflight.IncreaseSendQuota | internal/mqtt/inflight.go:308-317 | gives a unit back up to the maximum and says whether it did |
| Inflight.PutConsistent | internal/mqtt/inflight.go:41-56 | storing keeps the counter exact and arrival numbers unique |
| Inflight.RemoveConsistent | internal/mqtt/inflight.go:212-223 | so does removing |
| Inflight.ClaimConsistent | internal/mqtt/inflight.go:168-209 | so does claiming, which takes exactly the oldest out of the waiting ones |
| ReleaseOrder.ApplyKeepsOrder | internal/mqtt/inflight.go:138-223 | each operation releases only a message later than the last one released, and all that wait are later still |
| ReleaseOrder.ReleasedInArrivalOrder | internal/mqtt/inflight.go:138-223 | in every run messages are released in strictly increasing arrival order, and the deferred counter is exact (section 4.6 of MQTT 5.0) |
| Session.RoundShrinks | internal/mqtt/writer.go:188-199 | each round of the drop-and-claim loop leaves fewer messages waiting, which ends it |
| SendWindow.EncodeFacts | internal/mqtt/writer.go:188-199 | the drop-and-claim loop on a packet that is not waiting gives back what it takes |
| SendWindow.EncodeWaits | internal/mqtt/writer.go:188-199 | whatever it hits, the loop leaves no message waiting with quota left |
| SendWindow.EncodeExact | internal/mqtt/writer.go:314-336 | the loop keeps the bound exactly when its first drop does not hit a waiting message with every unit held |
| SendWindow.RollbackExact | internal/mqtt/server.go:1632-1648 | a rollback keeps the bound exactly when its entry still holds a unit or not every unit is held or left, and the waiting rule exactly when no other message waits |
| SendWindow.HandlerFacts | internal/mqtt/server.go:1709-1793 | every packet handler with its closing claim adds no unit and leaves none idle |
| SendWindow.StepExact | internal/mqtt/server.go:816-876 | each step keeps the books, and breaks the bound or the waiting rule exactly as those two lemmas say |
| SendWindow.WindowExact | internal/mqtt/server.go:1632-1648 | over whole runs held units and quota stay within Receive Maximum exactly as long as no drop and no rollback hands out a unit nobody held (section 4.9 of MQTT 5.0) |
| SendWindow.WaitExact | internal/mqtt/server.go:1632-1648 | over whole runs a message waits only while the quota is used up, exactly as long as no rollback happens while another waits |
| SendConduct.StepSound | internal/mqtt/server.go:1491-1652 | with ordinary conduct every step keeps a count in which a delivery in progress holds its unit even if its entry is gone |
| SendConduct.SendWindowHolds | internal/mqtt/server.go:1491-1652 | in every state of every run with ordinary conduct the window holds, whatever collides, expires, is dropped or rolled back |
| SendRuns.QueuedReuseBreaksWindow | internal/mqtt/writer.go:314-336 | for every maximum packet id from 2 on, a run with ids handed out in turn after which a window of one counts two |
| SendRuns.EarlyAckBreaksWindow | internal/mqtt/server.go:1642-1647 | a run of four steps after which a window of two counts three |
| SendRuns.RollbackStrands | internal/mqtt/server.go:1642-1647 | a run without any acknowledgement after which a message waits with the window empty |
| SendRuns.OversizeReleased | internal/mqtt/writer.go:203-336 | dropping an oversize message releases it exactly when the alias table does not replace its topic |
| SendRuns.AliasedOversizeStays | internal/mqtt/writer.go:289-336 | for every topic and alias maximum, a run after which a message that was never sent holds the only unit |
| ReceiveWindow.StepFlows | internal/mqtt/server.go:1055-1206 | exactly how every step, outbound ones included, changes the open QoS 2 flows and the receive quota |
| ReceiveWindow.StepInWindow | internal/mqtt/server.go:1746-1776 | a step keeps flows and quota together exactly when it leaks no unit, and never adds to them |
| ReceiveWindow.ReceiveWindowHolds | internal/mqtt/server.go:1746-1776 | in every run open flows and quota stay within Receive Maximum, and make it up exactly as long as no step leaked a unit |
| ReceiveWindow.FlowClosedExactly | internal/mqtt/server.go:1067-1123 | a flow that was open is closed exactly when its PUBREL, an expiring sweep, a rollback with its id or an outbound message stored over it has ended it, and no PUBLISH opened it since |
| ReceiveWindow.DeliversAgainExactly | internal/mqtt/server.go:1067-1206 | over every run a deliverable QoS 2 PUBLISH of an id already delivered is delivered again if and only if the flow was ended in between and not opened since (section 4.3.3 of MQTT 5.0) |
| ReceiveWindow.RedeliveredExactlyWhenTorn | internal/mqtt/server.go:1067-1206 | without a PUBREL in between it is delivered again if and only if a sweep, a rollback or a stored outbound message tore the flow |
| ReceiveWindow.DeliveredAtMostOncePerFlow | internal/mqtt/server.go:1067-1206 | between any two deliveries of QoS 2 messages with one packet id the flow was ended |
| ReceiveRuns.SweepDeliversTwice | internal/mqtt/clients.go:439-458 | for every packet id a run of three steps, without a PUBREL, that delivers twice |
| ReceiveRuns.RollbackDeliversTwice | internal/mqtt/server.go:1642-1647 | for every packet id a run without PUBREL and sweep that delivers twice |
| ReceiveRuns.StoringDeliversTwice | internal/mqtt/server.go:1584-1598 | for every packet id a run without PUBREL, sweep and rollback that delivers twice and leaks a unit of the receive quota |
| ClientSession.Client.constructor | internal/mqtt/clients.go:213-245 | a new session has an empty map and full quotas |
| ClientSession.Client.NextPacketID | internal/mqtt/clients.go:327-352 | the first unused id after the last one in cyclic order; none exactly when all are in use |
| ClientSession.ReservedIs | internal/mqtt/server.go:1067-1206 | reserving a receive unit first and giving it back at the end has the net effect of the handler |
| ClientSession.Client.ProcessPublish | internal/mqtt/server.go:1055-1206 | the handler performs the engine's step for a received PUBLISH, for every ACL and hook outcome |
| ClientSession.Client.ProcessReserved | internal/mqtt/server.go:1075-1206 | its part after the reservation, with whether the unit is still to be returned |
| ClientSession.Client.ProcessPuback | internal/mqtt/server.go:1709-1722 | a PUBACK frees only a QoS 1 message that was sent |
| ClientSession.Client.ProcessPubrec | internal/mqtt/server.go:1725-1743 | a PUBREC turns a sent QoS 2 message into a PUBREL, or frees it when refused |
| ClientSession.Client.ProcessPubrel | internal/mqtt/server.go:1746-1776 | a PUBREL ends an open flow and returns its unit once the PUBCOMP is written |
| ClientSession.Client.ProcessPubcomp | internal/mqtt/server.go:1779-1793 | a PUBCOMP frees a PUBREL entry and its unit |
| ClientSession.Client.ProcessPacket | internal/mqtt/server.go:816-876 | a received packet is one engine step, with the oldest waiting message sent after a successful handler |
| ClientSession.Client.PublishToClient | internal/mqtt/server.go:1491-1652 | exactly when a message is left out, refused, waits or overflows, for every QoS; a message taken in gets the next packet id in turn and goes through both parts of its delivery, and any other leaves the session as it was |
| ClientSession.Client.ReserveDelivery | internal/mqtt/server.go:1598-1619 | the first part of a delivery is the engine's step, whatever the map holds under the id by then |
| ClientSession.Client.PushDelivery | internal/mqtt/server.go:1621-1652 | so is the second, whatever happened to the entry in between |
| ClientSession.Client.WriteNextDeferred | internal/mqtt/clients.go:400-426 | claims the oldest waiting message for the writer |
| ClientSession.Client.DropOversize | internal/mqtt/writer.go:314-336 | which entry an oversize packet takes out, by the topic on the wire, and whether a unit came back |
| ClientSession.Client.EncodeOne | internal/mqtt/writer.go:203-281 | a packet is written and registers its alias, is left out, or is dropped for its size |
| ClientSession.Client.EncodePacket | internal/mqtt/writer.go:188-199 | the drop-and-claim loop ends and computes the engine's step, alias table included |
| ClientSession.Client.Encode | internal/mqtt/writer.go:188-199 | a packet taken by the writer is one engine step |
| ClientSession.Client.ClearExpiredInflights | internal/mqtt/clients.go:439-458 | exactly the expired packets are deleted, one by one, and reported |
| PacketIdSearch.StopsExactly | internal/mqtt/clients.go:327-352 | from any start value the search ends unless it starts beyond the maximum with every id in use; an id it finds is within the maximum and unused, and it gives up only when every id is in use |
| Retained.AddValid | internal/broker/hook_storage.go:697-716 | a replica replaces the topic's values of all sources and keeps the counter exact |
| Retained.SupersedeValid | internal/broker/hook_storage.go:719-737 | a local write leaves nothing of its topic waiting |
| Retained.TakeValid | internal/broker/hook_storage.go:740-754 | a flush moves exactly its source's values from waiting to flushing |
| Retained.DoneValid | internal/broker/hook_storage.go:757-782 | the end of a flush puts back failed values only where nothing newer is known, and keeps the counter exact |
| Retained.ZeroMeansIdle | internal/broker/hook_storage.go:719-737 | a counter of zero means nothing waits and nothing is written, so the lock-free shortcut is safe |
| RetainedFlush.StepKeeps | internal/broker/hook_storage.go:581-621 | every lock section and store call of local writes, replicas and flushes keeps the place of every topic's last value |
| RetainedFlush.NewestWins | internal/broker/hook_storage.go:491-536 | in every interleaving, with failing and partly written flushes, once nothing of a topic is pending the store holds the value that arrived last |
| RetainedFlush.BookkeepingExact | internal/broker/hook_storage.go:677-791 | in every reachable state a topic waits under one source, the counter is waiting plus flushing entries, and only flushing topics are marked overtaken |
| ReplicaObject.ReplicaRetained.constructor | internal/broker/hook_storage.go:687-695 | a new book is empty |
| ReplicaObject.ReplicaRetained.Add | internal/broker/hook_storage.go:697-716 | the method is the book's Add |
| ReplicaObject.ReplicaRetained.Supersede | internal/broker/hook_storage.go:719-737 | the method, shortcut included, is the book's Supersede, and says when to wait |
| ReplicaObject.ReplicaRetained.Take | internal/broker/hook_storage.go:740-754 | the method is the book's Take and returns the batch |
| ReplicaObject.ReplicaRetained.Done | internal/broker/hook_storage.go:757-782 | the loop in any order is the book's Done; the retry test made during it is the test on the state before it |
| ReplicaObject.Split | internal/broker/hook_storage.go:581-621 | a batch splits into the values to set and the topics to delete |
| Subscriptions.ExpectedMeans | internal/mqtt/topics.go:713-773 | the specification lists a client exactly when it holds a matching filter, with exactly its matching subscriptions |
| Subscriptions.MatchingSplits | internal/mqtt/topics.go:713-773 | a client's matching subscriptions are its exact one and its matching wildcard ones |
| TopicsIndex.Upsert | internal/mqtt/topics.go:360-388 | an entry after replacing or adding one client lists each client once |
| TopicsIndex.Without | internal/mqtt/topics.go:390-417 | an entry without one client |
| TopicsIndex.ListClients | internal/mqtt/topics.go:260-311 | the snapshot lists every client with wildcard subscriptions once, with all of them |
| TopicsIndex.TopicsIndex.constructor | internal/mqtt/topics.go:251-258 | a new index agrees with the empty table |
| TopicsIndex.TopicsIndex.RebuildWildcardSnap | internal/mqtt/topics.go:260-311 | the snapshot lists the wildcard clients and the shared groups as they are |
| TopicsIndex.TopicsIndex.UpsertExactSub | internal/mqtt/topics.go:360-388 | shards and snapshots agree with the table after an exact subscription |
| TopicsIndex.TopicsIndex.DeleteExactSub | internal/mqtt/topics.go:390-417 | and after its removal |
| TopicsIndex.TopicsIndex.Subscribe | internal/mqtt/topics.go:573-616 | the table of plain or of shared subscriptions gains the subscription, the index agrees with both, and the result says whether it is new |
| TopicsIndex.TopicsIndex.Unsubscribe | internal/mqtt/topics.go:619-664 | the table loses exactly that subscription, plain or shared, the index agrees, and the result says whether it was there |
| TopicsIndex.TopicsIndex.GetExact | internal/mqtt/topics.go:478-485 | the entry of a topic lists exactly its exact subscribers |
| TopicsIndex.LookUpLoaded | internal/mqtt/topics.go:713-773 | with the index changing between its two loads, the lookup is exactly the clients with a match, with the exact subscription of the first moment and the wildcard ones of the second, and for each matching shared filter as spelled exactly its holders |
| TopicsIndex.Subscribers | internal/mqtt/topics.go:713-773 | after any history the lookup is exactly the clients with a matching subscription, with all of those, and for each matching shared filter as spelled exactly its holders |
| SharedGroups.KeyRoundTrip | internal/mqtt/topics.go:580-584 | a group key gives its plain filter back exactly when the group name has no NUL |
| SharedGroups.SharedKeyOf | internal/mqtt/topics.go:503-514 | a shared filter splits into its group and plain filter however its prefix is spelled |
| SharedGroups.ListShared | internal/mqtt/topics.go:289-309 | the snapshot has an entry for each group, with its plain filter and members |
| SharedGroups.LookUpShared | internal/mqtt/topics.go:755-770 | the loop finds for each matching shared filter exactly its holders |
| SharedGroups.SelectShared | internal/mqtt/topics.go:162-175 | one holder is chosen for each filter, and the result lists exactly the chosen with what they were chosen for |
| SharedGroups.MergeSelected | internal/mqtt/topics.go:180-192 | a client in both lists is listed once, with both |
| SharedGroups.ChosenCount | internal/mqtt/topics.go:162-175 | as many members of a group are chosen as its filter has spellings among those found |
| SharedGroups.OneMemberExactly | internal/mqtt/topics.go:162-175 | whatever members the maps yield, exactly one member of a matching group is chosen if and only if all its members spelled the filter alike; whoever is chosen is a member (section 4.8.2 of MQTT 5.0) |
| SharedGroups.ChosenAreMembers | internal/mqtt/topics.go:162-175 | whoever is chosen holds the filter, and it matches |
| SharedGroups.TwoSpellings | internal/mqtt/topics.go:573-584 | the prefix in small and in capital letters gives two filters of one group |
| SharedGroups.TwoSpellingsTwoMembers | internal/mqtt/topics.go:755-770 | in any table with two spellings of a matching group at least two of its members are chosen |
| TopicsIndex.MatchClientWildcards | internal/mqtt/server.go:1320-1336 | the matching subscriptions of one client are merged, no others |
| TopicsIndex.DeliverListed | internal/mqtt/server.go:1338-1439 | the four cases of the delivery loop reach the same clients |
| TopicsIndex.DeliverLoaded | internal/mqtt/server.go:1355-1439 | with the index changing between the two loads, each registered client is reached at most once, with exactly the wildcard subscriptions of the first moment and the exact one of the second |
| TopicsIndex.DeliverShared | internal/mqtt/server.go:1441-1464 | through the lookup, its loads at different moments, each registered client that matches or was chosen is reached exactly once, with exactly those subscriptions |
| TopicsIndex.DeliverLoads | internal/mqtt/server.go:1354-1464 | with every load of a publish at its own moment, both paths reach exactly the registered clients that match or were chosen, each once, with the subscriptions of the moments their path reads |
| TopicsIndex.DeliverToSubscribers | internal/mqtt/server.go:1338-1464 | both paths reach exactly the registered clients that match or were chosen, each once, and choose one holder of each matching shared filter |
| OutboundQueue.OutboundQueue.constructor | internal/mqtt/outbound_queue.go:28-31 | a new queue is empty |
| OutboundQueue.OutboundQueue.Grow | internal/mqtt/outbound_queue.go:49-60 | growing keeps the contents and makes room within the bound |
| OutboundQueue.OutboundQueue.Push | internal/mqtt/outbound_queue.go:33-47 | appends at the back exactly below the maximum and leaves a token |
| OutboundQueue.OutboundQueue.PushFront | internal/mqtt/outbound_queue.go:62-73 | puts back at the front whatever the fill, and leaves a token |
| OutboundQueue.OutboundQueue.Pop | internal/mqtt/outbound_queue.go:75-93 | takes from the front; a drained large ring is released |
| Writer.PhasesKept | internal/mqtt/writer.go:71-182 | every step keeps the CONNACK first and a closing packet last |
| Writer.LiveOrderKept | internal/mqtt/writer.go:162-182 | every step keeps live publishes in push order |
| Writer.ControlFirstKept | internal/mqtt/writer.go:162-182 | every step keeps earlier control packets ahead of a live publish |
| Writer.PlacesKept | internal/mqtt/writer.go:71-182 | in every interleaving control packets queued before a live publish was pushed are encoded before it, the CONNACK is written before it, live publishes keep their order, and nothing follows a closing packet |
| Writer.NoLostWakeup | internal/mqtt/outbound_queue.go:33-107 | a writer parked after the CONNACK with packets queued has a token or a pusher about to signal; the queue exceeds its maximum by at most one |
| Aliases.RecordKeeps | internal/mqtt/writer.go:289-308 | each publish resolves to its topic, its alias is within the maximum, and both sides stay in step |
| Aliases.AliasRoundTrip | internal/mqtt/writer.go:203-308 | from any state in which both sides are in step, for every stream of publishes with any of them dropped, the receiver recovers exactly the topics written |
| Aliases.AliasRoundTripFromStart | internal/mqtt/writer.go:203-308 | so it does on every connection, from its first packet on |
| Aliases.ConnWriter.ConnackWritten | internal/mqtt/writer.go:258-263 | only the CONNACK of an MQTT 5 client brings an alias maximum |
| Aliases.ConnWriter.WriteAll | internal/mqtt/writer.go:203-308 | the packets the writer writes after its CONNACK give the client back the topics of exactly those written |
| Aliases.ConnWriter.ApplyAlias | internal/mqtt/writer.go:289-308 | which alias goes on the wire and whether it is new |
| Aliases.ConnWriter.EncodePublish | internal/mqtt/writer.go:203-281 | an alias is registered only for a packet that is written |
| Aliases.InboundTopicAliases.Set | internal/mqtt/topics.go:45-59 | learns a mapping or resolves an alias; an empty topic is never stored |
| KafkaOrchestrator.GroupByStream | internal/kafka/streams.go:99-108 | each stream's messages in order, and no stream without messages |
| KafkaOrchestrator.Orchestrator.constructor | internal/kafka/orchestrator.go:31-40 | a new orchestrator holds nothing |
| KafkaOrchestrator.Orchestrator.OnMessage | internal/kafka/orchestrator.go:70-84 | a message is appended, the oldest making room, within the bound |
| KafkaOrchestrator.Orchestrator.Take | internal/kafka/orchestrator.go:110-116 | the whole buffer is handed over and emptied |
| KafkaOrchestrator.Orchestrator.StoreGroups | internal/kafka/orchestrator.go:125-133 | store calls in any order append each accepted stream's messages and collect exactly the refused ones |
| KafkaOrchestrator.Orchestrator.PutBack | internal/kafka/orchestrator.go:134-141 | refused messages go in front and the bound is kept |
| KafkaOrchestrator.Orchestrator.OnMessages | internal/kafka/orchestrator.go:70-84 | messages that arrive one after the other |
| KafkaOrchestrator.Orchestrator.Flush | internal/kafka/orchestrator.go:120-142 | with messages arriving during its store calls, each stream's messages are stored in order or, unless cancelled, put back in front of the new ones within the bound |
| KafkaRun.ArriveAccounts | internal/kafka/orchestrator.go:70-84 | an arrival between any two store calls keeps every stream accounted for, in order |
| KafkaRun.PutBackAccounts | internal/kafka/orchestrator.go:134-141 | so does putting refused messages back in front of newer ones |
| KafkaRun.StepKeeps | internal/kafka/orchestrator.go:70-142 | so does every step |
| KafkaRun.Conserved | internal/kafka/orchestrator.go:70-142 | in every run a received message of a stream is in exactly one place (stored, refused, in flight, buffered, dropped, lost), each log holds its messages in arrival order and hence at most once, and the buffer is bounded |
| KafkaRun.DropsExactly | internal/kafka/orchestrator.go:77-141 | a message of a stream is dropped exactly when more than the bound would lie from it to the end of the buffer, and the buffer is then full |
| KafkaRun.LosesExactly | internal/kafka/orchestrator.go:134-141 | a step loses messages exactly when it ends a cancelled flush with refused ones |
| KafkaRun.LostExactly | internal/kafka/orchestrator.go:134-141 | over whole runs a message is lost exactly when a cancelled flush ended with it refused |
| KafkaRun.NothingLost | internal/kafka/orchestrator.go:134-141 | nothing is lost exactly while every cancelled flush ended with nothing refused |
| KafkaRun.CancelledFlushLoses | internal/kafka/orchestrator.go:120-142 | a run of four steps that loses a message of any stream |
| StreamSignal.Stream.Wait | internal/kafka/streams.go:27-34 | an open channel, the same one until the next signal |
| StreamSignal.Stream.Signal | internal/kafka/streams.go:38-45 | closes the channel every waiter holds and forgets it |
| KafkaFetch.FetchKept | internal/kafka/handlers.go:548-566 | every step keeps a fetch's channels and reads covered by a signal that came or is to come |
| KafkaFetch.NoMissedAppend | internal/kafka/handlers.go:548-566 | in every run a parked fetch with unread records of a stream can wake, unless the appender is between append and signal |
| KafkaFetch.WakesExactly | internal/kafka/handlers.go:602-623 | a parked fetch can wake exactly when one of its streams was signalled after its channel was taken |

## Left out

- Session takeover and resend, and replay from the queue hook: they send without taking a unit of quota.
- An exact send-quota equation: the packet-id collision and the expiry sweep return no unit, so the window is an inequality.
- SendConduct.SendWindowHolds: stated for a positive Receive Maximum, as are the exact results, since zero means no limit and then nothing is counted.
- Interleavings inside a packet handler, an expiry sweep or the drop loop: each is one step of the session engine, and the exact results on both windows are for runs of such steps. A delivery chooses its id, stores its message and pushes it or rolls it back at three moments; the choice changes nothing but the next id, so a message may be stored under any id, whatever the map holds there.
- Wire order between claimed and live messages: claimed ones travel on the control queue; release order is stated instead.
- The arrival sequence of `Inflight` and the memo generation are unbounded; the code keeps them in 64 bits. A negative expiry interval is not modelled.
- ClientSession.Client.PublishToClient: copying of the packet, retain flag and properties is not modelled; the ACL's answers and the state of the connection are parameters.
- Subscription merging: a delivery carries the set of subscriptions merged, of which QoS and flags are functions.
- TopicsIndex.LookUpLoaded: inline subscriptions are left out, as are interest observers.
- TopicsIndex.DeliverLoads: a hook that selects the members of shared groups itself is not modelled.
- TopicsIndex.TopicsIndex.constructor: takes any hash into the shards instead of the FNV hash.
- RetainedFlush.NewestWins: retained writes of a topic are serialised by the stripe lock and local store writes succeed; the no-wait path for WinCC OA and the in-memory mode are not modelled, and the counter has no value between two changes of one lock section.
- The write loop of `Writer` is modelled on values, step by step, not as methods on a connection object; encoding, buffers, batching by size and time-outs of control packets are parameters of its steps.
- AclCache.Cache.AllowClient: password checks and the cache of verified credentials are not modelled.
- Hooks that rewrite packets, the packet codec, listeners, timers, stores, HTTP, GraphQL and the other bridges.
- Routing by stream filters is a parameter of the Kafka model; its store calls are all-or-nothing, and pruning and the storing of produced records are left out.
