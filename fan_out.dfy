/** The subscriber fan-out of a publish, and the PUBACK to its sender, as
    functions of the connection registry and the subscriber list. */
module FanOut {
  import opened Wrappers
  import opened QosLevels
  import opened ProtocolTypes

  /** The level the i-th subscriber receives. The loop carries one level
      variable and lowers it in place, so each subscriber gets the publish
      level lowered by its own request and by every earlier one. */
  function DeliveredQos(qos: QoS, subs: seq<Subscription>, i: nat): (r: QoS)
    requires i < |subs|
    ensures AtMost(r, qos) && AtMost(r, subs[i].requestedQos)
    decreases i
  {
    Downgrade(if i == 0 then qos else DeliveredQos(qos, subs, i - 1), subs[i].requestedQos)
  }

  /** The packet id an outbound PUBLISH carries: set only above at-most-once. */
  function PacketIdFor(q: QoS, packgeID: int): (r: Option<int>)
    ensures r.Some? <==> q != AtMostOnce
    ensures r.Some? ==> r.value == packgeID
  {
    if q != AtMostOnce then Some(packgeID) else None
  }

  /** The position of the first subscriber with no registered connection
      (the whole length when every one has one). */
  function FirstMissing(clients: map<string, ConnectionDescriptor>, subs: seq<Subscription>): (r: nat)
    ensures r <= |subs|
    ensures forall j :: 0 <= j < r ==> subs[j].clientID in clients
    ensures r < |subs| ==> subs[r].clientID !in clients
    decreases |subs|
  {
    if subs == [] then 0
    else if subs[0].clientID !in clients then 0
    else 1 + FirstMissing(clients, subs[1..])
  }

  /** The PUBLISH written to the j-th subscriber. */
  function Delivery(clients: map<string, ConnectionDescriptor>, subs: seq<Subscription>, a: PublishArgs, j: nat): (r: Effect)
    requires j < |subs| && subs[j].clientID in clients
    ensures r.Write? && r.to == clients[subs[j].clientID].client && r.packet.Publish?
    ensures var m := r.packet.message;
            m.topic == a.topic && m.data == a.message && m.retain == a.retain
            && AtMost(m.qos, a.qos) && AtMost(m.qos, subs[j].requestedQos)
            && (m.packgeID.Some? <==> m.qos != AtMostOnce)
            && (m.packgeID.Some? ==> m.packgeID.value == a.packgeID)
  {
    var q := DeliveredQos(a.qos, subs, j);
    Write(clients[subs[j].clientID].client, Publish(PublishMessage(a.topic, q, a.message, a.retain, PacketIdFor(q, a.packgeID))))
  }

  /** The writes to the first n subscribers, in list order. */
  function Deliveries(clients: map<string, ConnectionDescriptor>, subs: seq<Subscription>, a: PublishArgs, n: nat): (r: seq<Effect>)
    requires n <= |subs|
    requires n <= FirstMissing(clients, subs)
    ensures |r| == n
  {
    if n == 0 then [] else Deliveries(clients, subs, a, n - 1) + [Delivery(clients, subs, a, n - 1)]
  }

  /** One more subscriber reached: the writes grow by its PUBLISH, built from
      the level the loop carried so far lowered by this subscriber's request. */
  lemma DeliveriesStep(clients: map<string, ConnectionDescriptor>, subs: seq<Subscription>, a: PublishArgs, i: nat, q: QoS)
    requires i < |subs|
    requires forall j :: 0 <= j <= i ==> subs[j].clientID in clients
    requires q == if i == 0 then a.qos else DeliveredQos(a.qos, subs, i - 1)
    ensures var q' := Downgrade(q, subs[i].requestedQos);
            q' == DeliveredQos(a.qos, subs, i)
            && Deliveries(clients, subs, a, i + 1) == Deliveries(clients, subs, a, i)
               + [Write(clients[subs[i].clientID].client, Publish(PublishMessage(a.topic, q', a.message, a.retain, PacketIdFor(q', a.packgeID))))]
  {
  }

  /** Everything the fan-out writes: one PUBLISH per subscriber up to the
      first one missing from the registry, where the exception is raised. */
  function FanOutEffects(clients: map<string, ConnectionDescriptor>, subs: seq<Subscription>, a: PublishArgs): (r: seq<Effect>)
    ensures |r| <= |subs|
  {
    Deliveries(clients, subs, a, FirstMissing(clients, subs))
  }

  /** How the fan-out ends: normally, or with the exception for the first
      subscriber that has no registered connection. */
  function FanOutOutcome(clients: map<string, ConnectionDescriptor>, subs: seq<Subscription>): (o: Outcome)
    ensures o.Completed? <==> forall j :: 0 <= j < |subs| ==> subs[j].clientID in clients
    ensures o.Thrown? ==> o.fault.UnknownClient? && o.fault.clientID !in clients
  {
    var k := FirstMissing(clients, subs);
    if k < |subs| then Thrown(UnknownClient(subs[k].clientID)) else Completed
  }

  /** The PUBACK to the publisher. A null sender or one missing from the
      registry raises inside a try block that only logs, so nothing is written. */
  function PubAckEffects(clients: map<string, ConnectionDescriptor>, sender: Option<string>, packgeID: int): (r: seq<Effect>)
    ensures |r| <= 1
    ensures |r| == 1 <==> sender.Some? && sender.value in clients
    ensures |r| == 1 ==> r[0] == Write(clients[sender.value].client, PubAck(packgeID))
  {
    if sender.Some? && sender.value in clients then [Write(clients[sender.value].client, PubAck(packgeID))] else []
  }

  /** The i-th subscriber receives the minimum of the publish level and the
      levels requested by subscribers 0..i. */
  lemma {:induction false} DeliveredQosIsPrefixMinimum(qos: QoS, subs: seq<Subscription>, i: nat)
    requires i < |subs|
    ensures forall j :: 0 <= j <= i ==> AtMost(DeliveredQos(qos, subs, i), subs[j].requestedQos)
    ensures DeliveredQos(qos, subs, i) == qos
         || exists j :: 0 <= j <= i && DeliveredQos(qos, subs, i) == subs[j].requestedQos
    decreases i
  {
    if i > 0 {
      DeliveredQosIsPrefixMinimum(qos, subs, i - 1);
      var prev := DeliveredQos(qos, subs, i - 1);
      if prev != qos {
        var j :| 0 <= j <= i - 1 && prev == subs[j].requestedQos;
      }
    }
  }

  /** The delivered level never rises along the subscriber list. */
  lemma {:induction false} DeliveredQosNonIncreasing(qos: QoS, subs: seq<Subscription>, i: nat, j: nat)
    requires i <= j < |subs|
    ensures AtMost(DeliveredQos(qos, subs, j), DeliveredQos(qos, subs, i))
    decreases j
  {
    if i < j {
      DeliveredQosNonIncreasing(qos, subs, i, j - 1);
    }
  }

  /** A later subscriber does not always get min(publish level, its own
      request): after a subscriber asking for level 0, one asking for level 2
      of an exactly-once publish is served at level 0. */
  lemma CumulativeDowngrade()
    ensures var subs := [Subscription("a", "t", AtMostOnce), Subscription("b", "t", ExactlyOnce)];
            DeliveredQos(ExactlyOnce, subs, 1) == AtMostOnce
            && Downgrade(ExactlyOnce, subs[1].requestedQos) == ExactlyOnce
  {
  }

  /** The j-th write of the deliveries is the j-th subscriber's PUBLISH. */
  lemma {:induction false} DeliveriesAt(clients: map<string, ConnectionDescriptor>, subs: seq<Subscription>, a: PublishArgs, n: nat, j: nat)
    requires n <= |subs|
    requires n <= FirstMissing(clients, subs)
    requires j < n
    ensures Deliveries(clients, subs, a, n)[j] == Delivery(clients, subs, a, j)
    decreases n
  {
    if j < n - 1 {
      DeliveriesAt(clients, subs, a, n - 1, j);
    }
  }

  /** What each subscriber reached by the fan-out is sent: a PUBLISH on its
      registered connection, with topic, payload and retain flag copied, a
      level no higher than the publish level or its request, and a packet id
      exactly when that level is above at-most-once. */
  lemma FanOutDelivers(clients: map<string, ConnectionDescriptor>, subs: seq<Subscription>, a: PublishArgs, j: nat)
    requires j < |FanOutEffects(clients, subs, a)|
    ensures subs[j].clientID in clients
    ensures var e := FanOutEffects(clients, subs, a)[j];
            e.Write? && e.to == clients[subs[j].clientID].client && e.packet.Publish?
            && var m := e.packet.message;
               m.topic == a.topic && m.data == a.message && m.retain == a.retain
               && m.qos == DeliveredQos(a.qos, subs, j)
               && AtMost(m.qos, a.qos) && AtMost(m.qos, subs[j].requestedQos)
               && (m.packgeID.Some? <==> m.qos != AtMostOnce)
               && (m.packgeID.Some? ==> m.packgeID.value == a.packgeID)
  {
    DeliveriesAt(clients, subs, a, FirstMissing(clients, subs), j);
  }

  /** When every subscriber is registered, each one receives exactly one write. */
  lemma FanOutReachesAll(clients: map<string, ConnectionDescriptor>, subs: seq<Subscription>, a: PublishArgs)
    requires forall j :: 0 <= j < |subs| ==> subs[j].clientID in clients
    ensures |FanOutEffects(clients, subs, a)| == |subs|
    ensures FanOutOutcome(clients, subs) == Completed
  {
  }

  /** A subscriber missing from the registry raises the error, and only the
      subscribers before it have been written to. */
  lemma FanOutStopsAtMissing(clients: map<string, ConnectionDescriptor>, subs: seq<Subscription>, a: PublishArgs, m: nat)
    requires m < |subs| && subs[m].clientID !in clients
    requires forall j :: 0 <= j < m ==> subs[j].clientID in clients
    ensures FanOutOutcome(clients, subs) == Thrown(UnknownClient(subs[m].clientID))
    ensures |FanOutEffects(clients, subs, a)| == m
  {
  }
}
