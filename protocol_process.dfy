/** The broker's protocol engine: CONNECT admission, PUBLISH dispatch by
    level, subscriber fan-out, PUBACK, clean-session wipe and offline
    republish. Every write and close on a connection, and every call that
    changes a store, is appended to `trace`; read-only store queries are
    not recorded. */
module Protocol {
  import opened Wrappers
  import opened QosLevels
  import opened PublishEvents
  import opened ProtocolTypes
  import opened Stores
  import opened FanOut
  import opened Connect

  /** Regrouping what is appended after a prefix of the trace. */
  lemma AppendAssoc(before: seq<Effect>, done: seq<Effect>, more: seq<Effect>)
    ensures (before + done) + more == before + (done + more)
  {
  }

  class ProtocolProcess {
    /** Connection registry: client id to descriptor. */
    var clients: map<string, ConnectionDescriptor>
    /** Will registry: client id to will. */
    var willStore: map<string, WillMessage>
    /** The authenticator's verdict on a user name and an optional password. */
    const authenticator: (string, Option<string>) -> bool
    /** The subscription store's topic-filter matcher. */
    const topicMatches: (string, string) -> bool
    /** The ids the session store reports as having a session. */
    var sessions: set<string>
    /** The subscription store's entries. */
    var subscriptions: seq<Subscription>
    /** The offline message store's entries, oldest first. */
    var messages: seq<StoredEvent>
    /** Everything written, closed and changed in a store, in order. */
    var trace: seq<Effect>

    ghost predicate Valid()
      reads this
    {
      DistinctEvents(messages)
    }

    constructor (authenticator: (string, Option<string>) -> bool, topicMatches: (string, string) -> bool,
                 sessions: set<string>, subscriptions: seq<Subscription>, messages: seq<StoredEvent>)
      requires DistinctEvents(messages)
      ensures Valid()
      ensures this.authenticator == authenticator && this.topicMatches == topicMatches
      ensures this.sessions == sessions && this.subscriptions == subscriptions && this.messages == messages
      ensures clients == map[] && willStore == map[] && trace == []
    {
      this.authenticator := authenticator;
      this.topicMatches := topicMatches;
      this.sessions := sessions;
      this.subscriptions := subscriptions;
      this.messages := messages;
      clients := map[];
      willStore := map[];
      trace := [];
    }

    /** Admits a CONNECT on `client`. `generated` stands for the random
        23-character id drawn for an anonymous clean session. */
    method ProcessConnect(client: ClientSession, msg: ConnectMessage, generated: string) returns (outcome: Outcome)
      requires Valid()
      requires |generated| == GeneratedIdLength
      modifies this, client, msg
      ensures Valid()
      ensures var id := EffectiveClientId(old(msg.clientId), msg.cleanSession, generated);
              msg.clientId == id
              && trace == old(trace) + ConnectEffects(client, msg, old(msg.clientId), generated, authenticator,
                                                      old(sessions), old(messages))
              && outcome == (if id.None? then Thrown(NullClientId) else Completed)
      // A null id without clean session: the registry refuses the null key and nothing else changes.
      ensures var id := EffectiveClientId(old(msg.clientId), msg.cleanSession, generated);
              id.None? ==>
                clients == old(clients) && willStore == old(willStore) && sessions == old(sessions)
                && subscriptions == old(subscriptions) && messages == old(messages)
                && client.clientIdAttr == old(client.clientIdAttr)
                && client.cleanSessionAttr == old(client.cleanSessionAttr)
                && client.keepAliveAttr == old(client.keepAliveAttr)
      ensures var id := EffectiveClientId(old(msg.clientId), msg.cleanSession, generated);
              id.Some? ==>
                clients == RegisteredClients(old(clients), id.value, client, msg.cleanSession)
                && willStore == StoredWills(old(willStore), id.value, msg)
                && client.clientIdAttr == Some(id.value)
                && client.cleanSessionAttr == Some(msg.cleanSession)
                && client.keepAliveAttr == Some(msg.keepAlive)
                && subscriptions == (if msg.cleanSession then WithoutClient(old(subscriptions), id.value)
                                     else old(subscriptions))
                && sessions == (if msg.cleanSession then old(sessions) - {id.value} else old(sessions))
                && messages == (if msg.cleanSession then old(messages) else KeepOthers(old(messages), id.value))
    {
      ghost var t0, id0 := trace, msg.clientId;
      ValidateConnect(client, msg, generated);
      ghost var done := CheckEffects(client, msg, id0);
      if msg.clientId.None? {
        // the registry's put rejects a null key
        outcome := Thrown(NullClientId);
        return;
      }
      var id := msg.clientId.value;
      RegisterConnection(client, msg, id);
      CheckCredentials(client, msg);
      AppendAssoc(t0, done, AuthEffects(client, msg, authenticator));
      done := done + AuthEffects(client, msg, authenticator);
      if msg.cleanSession {
        CleanSession(id);
      }
      AppendAssoc(t0, done, CleanEffects(msg.cleanSession, id));
      done := done + CleanEffects(msg.cleanSession, id);
      var present := if !msg.cleanSession && id in sessions then 1 else 0;
      assert present == SessionPresent(msg.cleanSession, old(sessions), id);
      AppendAssoc(t0, done, [Write(client, ConnAck(Accepted, present))]);
      done := done + [Write(client, ConnAck(Accepted, present))];
      trace := trace + [Write(client, ConnAck(Accepted, present))];
      assert trace == t0 + done;
      if !msg.cleanSession {
        ghost var listed := RemovalEffects(ListFor(old(messages), id));
        RepublishMessage(id);
        AppendAssoc(t0, done, listed);
        done := done + listed;
      } else {
        assert done + [] == done;
      }
      outcome := Completed;
    }

    /** The three admission checks (reserved bit, protocol name and level,
        client id). The reserved-bit check closes; the other two write their
        rejecting CONNACK and close; none returns. An anonymous clean session
        gets the generated id. */
    method ValidateConnect(client: ClientSession, msg: ConnectMessage, generated: string)
      modifies this`trace, msg
      ensures trace == old(trace) + CheckEffects(client, msg, old(msg.clientId))
      ensures msg.clientId == EffectiveClientId(old(msg.clientId), msg.cleanSession, generated)
    {
      if !msg.reservedIsZero {
        trace := trace + [Close(client)];
      }
      if msg.protocolName != "MQTT" || msg.protocolVersionNumber != 4 {
        trace := trace + [Write(client, ConnAck(UnacceptableProtocolVersion, 0))];
        trace := trace + [Close(client)];
      }
      if IsNullOrEmpty(msg.clientId) {
        if msg.cleanSession {
          msg.clientId := Some(generated);
        } else {
          trace := trace + [Write(client, ConnAck(IdentifierRejected, 0))];
          trace := trace + [Close(client)];
        }
      }
    }

    /** Registers the descriptor under `id`, records the session attributes
        and, when the CONNECT declares one, the will. */
    method RegisterConnection(client: ClientSession, msg: ConnectMessage, id: string)
      modifies this`clients, this`willStore, client
      ensures clients == RegisteredClients(old(clients), id, client, msg.cleanSession)
      ensures willStore == StoredWills(old(willStore), id, msg)
      ensures client.clientIdAttr == Some(id) && client.cleanSessionAttr == Some(msg.cleanSession)
      ensures client.keepAliveAttr == Some(msg.keepAlive)
    {
      clients := clients[id := ConnectionDescriptor(id, client, msg.cleanSession)];
      var keepAlive := msg.keepAlive;
      client.clientIdAttr := Some(id);
      client.cleanSessionAttr := Some(msg.cleanSession);
      client.keepAliveAttr := Some(keepAlive);
      if msg.hasWill {
        var will := WillMessage(msg.willTopic, msg.willMessage, msg.willRetain, msg.willQos);
        willStore := willStore[id := will];
      }
    }

    /** The credentials gate: a rejected login gets a negative CONNACK and
        nothing more. */
    method CheckCredentials(client: ClientSession, msg: ConnectMessage)
      modifies this`trace
      ensures trace == old(trace) + AuthEffects(client, msg, authenticator)
    {
      if msg.hasUsername {
        var userName := msg.username;
        var pwd: Option<string> := None;
        if msg.hasPassword {
          pwd := Some(msg.password);
        }
        if !authenticator(userName, pwd) {
          trace := trace + [Write(client, ConnAck(BadUsernameOrPassword, 0))];
        }
      }
    }

    /** PUBLISH from `client`: the sender is the session's client-id attribute,
        null when the session has none; an unset packet id reads as 0. */
    method ProcessPublic(client: ClientSession, publishMessage: PublishMessage) returns (outcome: Outcome)
      requires Valid()
      modifies this`messages, this`trace
      ensures Valid()
      ensures var a := PublishArgs(publishMessage.topic, publishMessage.qos, publishMessage.data,
                                   publishMessage.retain, publishMessage.packgeID.GetOr(0));
              Dispatched(client.clientIdAttr, a, old(messages), old(trace), outcome)
    {
      var clientID := client.clientIdAttr;
      outcome := DispatchPublic(clientID, publishMessage.topic, publishMessage.qos, publishMessage.data,
                                publishMessage.retain, publishMessage.packgeID.GetOr(0));
    }

    /** The state and trace after dispatching publish `a` from `sender` by its level. */
    ghost predicate Dispatched(sender: Option<string>, a: PublishArgs, oldMessages: seq<StoredEvent>,
                               oldTrace: seq<Effect>, outcome: Outcome)
      reads this, if |messages| == |oldMessages| + 1 then {messages[|oldMessages|].event} else {}
      // the trace only grows, and only at-least-once changes the message store
      ensures Dispatched(sender, a, oldMessages, oldTrace, outcome) ==>
                |oldTrace| <= |trace| && trace[..|oldTrace|] == oldTrace
      ensures Dispatched(sender, a, oldMessages, oldTrace, outcome) ==>
                (messages != oldMessages <==> a.qos == AtLeastOnce)
    {
      var subs := SubscribersOf(subscriptions, topicMatches, a.topic);
      match a.qos
      case AtMostOnce =>
        messages == oldMessages && trace == oldTrace + FanOutEffects(clients, subs, a)
        && outcome == FanOutOutcome(clients, subs)
      case AtLeastOnce =>
        |messages| == |oldMessages| + 1 && messages[..|oldMessages|] == oldMessages
        && var ev := messages[|oldMessages|].event;
           messages[|oldMessages|].session == sender
           && ev.topic == a.topic && ev.qos == a.qos && ev.message == a.message && ev.retain == a.retain
           && ev.clientID == sender && ev.packgeID == a.packgeID
           && outcome == FanOutOutcome(clients, subs)
           && trace == oldTrace + [Store(StoreMessage(ev))] + FanOutEffects(clients, subs, a)
                       + (if outcome.Completed? then PubAckEffects(clients, sender, a.packgeID) else [])
      case ExactlyOnce =>
        messages == oldMessages && trace == oldTrace && outcome == Completed
    }

    /** Dispatch of one publish by its level: at-most-once only fans out;
        at-least-once stores the event, fans out and acknowledges; exactly-once
        does nothing. */
    method DispatchPublic(clientID: Option<string>, topic: string, qos: QoS, message: seq<bv8>,
                          retain: bool, packageID: int) returns (outcome: Outcome)
      requires Valid()
      modifies this`messages, this`trace
      ensures Valid()
      ensures Dispatched(clientID, PublishArgs(topic, qos, message, retain, packageID), old(messages), old(trace), outcome)
      ensures qos == AtLeastOnce ==> fresh(messages[|old(messages)|].event)
    {
      outcome := Completed;
      if qos == AtMostOnce {
        outcome := SendPublicMessage(topic, qos, message, retain, packageID);
      }
      if qos == AtLeastOnce {
        var storePubEvent := new PublishEvent(topic, qos, message, retain, clientID, packageID);
        messages := messages + [StoredEvent(clientID, storePubEvent)];
        trace := trace + [Store(StoreMessage(storePubEvent))];
        outcome := SendPublicMessage(topic, qos, message, retain, packageID);
        if outcome.Completed? {
          SendPubAck(clientID, packageID);
        }
      }
      if qos == ExactlyOnce {
      }
    }

    /** Writes the publish to every subscriber of `topic`, lowering the level
        as the list goes; a subscriber with no registered connection raises
        the error after the earlier ones were written to. */
    method SendPublicMessage(topic: string, qos: QoS, message: seq<bv8>, retain: bool, packgeID: int)
      returns (outcome: Outcome)
      modifies this`trace
      ensures var subs := SubscribersOf(subscriptions, topicMatches, topic);
              var a := PublishArgs(topic, qos, message, retain, packgeID);
              trace == old(trace) + FanOutEffects(clients, subs, a)
              && outcome == FanOutOutcome(clients, subs)
    {
      var subs := SubscribersOf(subscriptions, topicMatches, topic);
      var a := PublishArgs(topic, qos, message, retain, packgeID);
      var registry := clients;
      ghost var before := trace;
      var q := qos;
      var i := 0;
      while i < |subs|
        invariant i <= |subs|
        invariant forall j :: 0 <= j < i ==> subs[j].clientID in registry
        invariant q == if i == 0 then qos else DeliveredQos(qos, subs, i - 1)
        invariant trace == before + Deliveries(registry, subs, a, i)
      {
        var sub := subs[i];
        ghost var carried := q;
        q := Downgrade(q, sub.requestedQos);
        var publishMessage := PublishMessage(topic, q, message, retain, PacketIdFor(q, packgeID));
        if sub.clientID !in registry {
          FanOutStopsAtMissing(registry, subs, a, i);
          outcome := Thrown(UnknownClient(sub.clientID));
          return;
        }
        DeliveriesStep(registry, subs, a, i, carried);
        AppendAssoc(before, Deliveries(registry, subs, a, i), [Write(registry[sub.clientID].client, Publish(publishMessage))]);
        trace := trace + [Write(registry[sub.clientID].client, Publish(publishMessage))];
        i := i + 1;
      }
      FanOutReachesAll(registry, subs, a);
      outcome := Completed;
    }

    /** PUBACK with the publish's packet id to the sender, if registered. */
    method SendPubAck(clientID: Option<string>, packgeID: int)
      modifies this`trace
      ensures trace == old(trace) + PubAckEffects(clients, clientID, packgeID)
    {
      var pubAckMessage := PubAck(packgeID);
      if clientID.Some? && clientID.value in clients {
        trace := trace + [Write(clients[clientID.value].client, pubAckMessage)];
      }
    }

    /** Clean-session wipe: the subscriptions of the id, then its session record. */
    method CleanSession(clientID: string)
      modifies this`subscriptions, this`sessions, this`trace
      ensures subscriptions == WithoutClient(old(subscriptions), clientID)
      ensures sessions == old(sessions) - {clientID}
      ensures trace == old(trace) + CleanEffects(true, clientID)
    {
      subscriptions := WithoutClient(subscriptions, clientID);
      trace := trace + [Store(RemoveForClient(clientID))];
      sessions := sessions - {clientID};
      trace := trace + [Store(WipeSubscriptions(clientID))];
    }

    /** Offline republish on reconnect: every event listed for the id is
        removed from the store, in list order; none of them is written. */
    method RepublishMessage(clientID: string)
      requires Valid()
      modifies this`messages, this`trace
      ensures Valid()
      ensures messages == KeepOthers(old(messages), clientID)
      ensures trace == old(trace) + RemovalEffects(ListFor(old(messages), clientID))
      ensures ListFor(old(messages), clientID) == [] ==> messages == old(messages) && trace == old(trace)
    {
      var publishedEvents := ListFor(messages, clientID);
      ListForCleared(messages, clientID);
      KeepOthersDistinct(messages, clientID);
      KeepUnlistedNothing(messages);
      if |publishedEvents| == 0 {
        NothingListedKeepsAll(messages, clientID);
        return;
      }
      ghost var stored, before := messages, trace;
      var i := 0;
      while i < |publishedEvents|
        invariant 0 <= i <= |publishedEvents|
        invariant messages == KeepUnlisted(stored, publishedEvents[..i])
        invariant trace == before + RemovalEffects(publishedEvents[..i])
      {
        var pubEvent := publishedEvents[i];
        RemovalStep(stored, publishedEvents, i);
        AppendAssoc(before, RemovalEffects(publishedEvents[..i]), [Store(RemoveMessage(pubEvent))]);
        messages := KeepUnlisted(messages, [pubEvent]);
        trace := trace + [Store(RemoveMessage(pubEvent))];
        i := i + 1;
      }
      assert publishedEvents[..i] == publishedEvents;
    }
  }
}
