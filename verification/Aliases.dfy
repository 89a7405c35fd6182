/**
 Topic aliases: the writer replaces topics with aliases it has sent, a receiver puts them back.
 */
module Aliases {
  import opened Wrappers

  /** Topic and alias of a PUBLISH on the wire; alias 0 is none. */
  datatype Wire = Wire(topic: string, alias: nat)

  type Sent = map<string, nat>
  type Known = map<nat, string>

  /** applyAlias: a known alias stands for the topic, a new one goes along with it. */
  function Apply(sent: Sent, aliasMax: nat, version: nat, topic: string): Wire {
    if aliasMax == 0 || topic == "" || version < 5 then Wire(topic, 0)
    else if topic in sent then Wire("", sent[topic])
    else if |sent| >= aliasMax then Wire(topic, 0)
    else Wire(topic, |sent| + 1)
  }

  /** A new alias is recorded once its packet is known to be written. */
  function Record(sent: Sent, wire: Wire): Sent {
    if wire.alias > 0 && wire.topic != "" then sent[wire.topic := wire.alias] else sent
  }

  /** InboundTopicAliases.Set: the mapping afterwards, and the topic it yields. An empty topic is never stored. */
  function SetMapping(known: Known, maximum: nat, id: nat, topic: string): Known {
    if maximum == 0 || topic == "" then known else known[id := topic]
  }

  function SetTopic(known: Known, maximum: nat, id: nat, topic: string): string {
    if maximum == 0 || topic != "" then topic else if id in known then known[id] else ""
  }

  /** A received PUBLISH consults the mapping only if it carries an alias. */
  function Learn(known: Known, maximum: nat, wire: Wire): Known {
    if wire.alias > 0 then SetMapping(known, maximum, wire.alias, wire.topic) else known
  }

  function Resolve(known: Known, maximum: nat, wire: Wire): string {
    if wire.alias > 0 then SetTopic(known, maximum, wire.alias, wire.topic) else wire.topic
  }

  /** A publish handed to the writer, and whether it is written or dropped. */
  datatype Publish = Publish(topic: string, written: bool)

  /** What goes over the wire. */
  function Send(sent: Sent, aliasMax: nat, version: nat, pubs: seq<Publish>): seq<Wire>
    decreases |pubs|
  {
    if pubs == [] then []
    else
      var wire := Apply(sent, aliasMax, version, pubs[0].topic);
      if pubs[0].written then [wire] + Send(Record(sent, wire), aliasMax, version, pubs[1..])
      else Send(sent, aliasMax, version, pubs[1..])
  }

  function ReceiveAll(known: Known, maximum: nat, wires: seq<Wire>): seq<string>
    decreases |wires|
  {
    if wires == [] then []
    else [Resolve(known, maximum, wires[0])] + ReceiveAll(Learn(known, maximum, wires[0]), maximum, wires[1..])
  }

  function Written(pubs: seq<Publish>): seq<string> {
    if pubs == [] then [] else (if pubs[0].written then [pubs[0].topic] else []) + Written(pubs[1..])
  }

  /** Aliases number the topics sent from 1 on without a gap, and the receiver knows each of them. */
  ghost predicate InStep(sent: Sent, known: Known, aliasMax: nat) {
    && |sent| <= aliasMax
    && (forall t :: t in sent ==> t != "" && 1 <= sent[t] <= |sent| && sent[t] in known && known[sent[t]] == t)
  }

  lemma RecordKeeps(sent: Sent, known: Known, aliasMax: nat, version: nat, topic: string)
    requires InStep(sent, known, aliasMax)
    ensures var wire := Apply(sent, aliasMax, version, topic);
      && InStep(Record(sent, wire), Learn(known, aliasMax, wire), aliasMax)
      && Resolve(known, aliasMax, wire) == topic && wire.alias <= aliasMax
  {
    var wire := Apply(sent, aliasMax, version, topic);
    if wire.alias > 0 && wire.topic != "" {
      assert Record(sent, wire).Keys == sent.Keys + {topic};
    }
  }

  /**
   Round trip: for every stream of publishes, with any of them dropped, the receiver recovers
   exactly the topics of those written, and no alias exceeds the client's maximum.
   */
  lemma {:induction false} AliasRoundTrip(sent: Sent, known: Known, aliasMax: nat, version: nat, pubs: seq<Publish>)
    requires InStep(sent, known, aliasMax)
    ensures ReceiveAll(known, aliasMax, Send(sent, aliasMax, version, pubs)) == Written(pubs)
    ensures forall i :: 0 <= i < |Send(sent, aliasMax, version, pubs)| ==> Send(sent, aliasMax, version, pubs)[i].alias <= aliasMax
    decreases |pubs|
  {
    if pubs != [] {
      var wire := Apply(sent, aliasMax, version, pubs[0].topic);
      if pubs[0].written {
        RecordKeeps(sent, known, aliasMax, version, pubs[0].topic);
        AliasRoundTrip(Record(sent, wire), Learn(known, aliasMax, wire), aliasMax, version, pubs[1..]);
      } else {
        AliasRoundTrip(sent, known, aliasMax, version, pubs[1..]);
      }
    }
  }

  /** Aliases of one connection, from the start. */
  lemma AliasRoundTripFromStart(aliasMax: nat, version: nat, pubs: seq<Publish>)
    ensures ReceiveAll(map[], aliasMax, Send(map[], aliasMax, version, pubs)) == Written(pubs)
  {
    AliasRoundTrip(map[], map[], aliasMax, version, pubs);
  }

  /** The writer's side. */
  class ConnWriter {
    var aliasMax: nat
    var aliases: Sent

    constructor ()
      ensures aliasMax == 0 && aliases == map[]
    {
      aliasMax, aliases := 0, map[];
    }

    /** The CONNACK of an MQTT 5 client brings its Topic Alias Maximum. */
    method ConnackWritten(version: nat, maximum: nat)
      modifies this`aliasMax
      ensures aliasMax == if version == 5 then maximum else old(aliasMax)
    {
      if version == 5 {
        aliasMax := maximum;
      }
    }

    method ApplyAlias(topic: string, version: nat) returns (wire: Wire, record: Option<nat>)
      ensures wire == Apply(aliases, aliasMax, version, topic)
      ensures record == if wire.alias > 0 && wire.topic != "" then Some(wire.alias) else None
    {
      if aliasMax == 0 || topic == "" || version < 5 {
        return Wire(topic, 0), None;
      }
      if topic in aliases {
        return Wire("", aliases[topic]), None;
      }
      if |aliases| >= aliasMax {
        return Wire(topic, 0), None;
      }
      var alias := |aliases| + 1;
      return Wire(topic, alias), Some(alias);
    }

    /** Encodes a PUBLISH; a packet that is dropped registers nothing. */
    method EncodePublish(topic: string, version: nat, written: bool) returns (wire: Option<Wire>)
      modifies this`aliases
      ensures var w := Apply(old(aliases), aliasMax, version, topic);
        && wire == (if written then Some(w) else None)
        && aliases == (if written then Record(old(aliases), w) else old(aliases))
    {
      var w, record := ApplyAlias(topic, version);
      if !written {
        return None;
      }
      if record.Some? {
        aliases := aliases[topic := record.value];
      }
      return Some(w);
    }

    /**
     A connection's packets: the CONNACK and then publishes, some of them dropped. The client, which
     announced the maximum, recovers exactly the topics of those written.
     */
    method WriteAll(version: nat, maximum: nat, pubs: seq<Publish>) returns (wires: seq<Wire>)
      requires aliasMax == 0 && aliases == map[]
      modifies this
      ensures wires == Send(map[], aliasMax, version, pubs) && aliasMax == (if version == 5 then maximum else 0)
      ensures ReceiveAll(map[], aliasMax, wires) == Written(pubs)
    {
      ConnackWritten(version, maximum);
      wires := [];
      for i := 0 to |pubs|
        invariant aliasMax == if version == 5 then maximum else 0
        invariant wires + Send(aliases, aliasMax, version, pubs[i..]) == Send(map[], aliasMax, version, pubs)
      {
        ghost var rest := Send(aliases, aliasMax, version, pubs[i..]);
        assert pubs[i..][0] == pubs[i] && pubs[i..][1..] == pubs[i + 1..];
        var wire := EncodePublish(pubs[i].topic, version, pubs[i].written);
        if wire.Some? {
          assert rest == [wire.value] + Send(aliases, aliasMax, version, pubs[i + 1..]);
          wires := wires + [wire.value];
        }
      }
      AliasRoundTripFromStart(aliasMax, version, pubs);
    }
  }

  /** The receiving side. */
  class InboundTopicAliases {
    var internal: Known
    const maximum: nat

    constructor (maximum: nat)
      ensures internal == map[] && this.maximum == maximum
    {
      internal := map[];
      this.maximum := maximum;
    }

    method Set(id: nat, topic: string) returns (r: string)
      modifies this`internal
      ensures r == SetTopic(old(internal), maximum, id, topic) && internal == SetMapping(old(internal), maximum, id, topic)
    {
      if maximum == 0 {
        return topic;
      }
      if topic == "" {
        return if id in internal then internal[id] else "";
      }
      internal := internal[id := topic];
      return topic;
    }
  }
}
