# zer0MQTTServer protocol engine, modelled in Dafny

This project models the protocol-decision core of the zer0MQTTServer broker.
That core is the `ProtocolProcess` class, together with the `PublishEvent`
record it files in the offline message store. The class comment
(`ProtocolProcess.java` line 26) says the code follows "MQTT3.3.1", evidently
meaning MQTT 3.1.1, whose section numbers are cited below. The model covers:

- **CONNECT admission.**
  - The reserved-bit check, the protocol name and level check, and the client-identifier check.
  - The generated identifier for an anonymous clean session.
  - Registration of the connection descriptor, the session attributes and the will.
  - The credentials gate and the clean-session wipe.
  - The accepting CONNACK with its session-present flag, and the offline republish.
- **PUBLISH dispatch by QoS level**, and the subscriber fan-out with its QoS downgrade and packet-id rule.
- **The PUBACK to the publisher.**

The engine is the class `Protocol.ProtocolProcess`. Its fields are:

- the connection registry (`clients`);
- the will registry (`willStore`);
- the abstract state of the three stores (`sessions`, `subscriptions`, `messages`);
- `trace`, which records, in order, every packet written to a connection, every close, and every call that changes a store (`removeForClient`, `wipeSubscriptions`, `storeMessageToSessionForPublish`, `removeMessageInSessionForPublish`). The read-only queries `contains`, `listMessagesInSession` and `getClientListFromTopic` are not recorded; their answers are computed from the store state.

Each method is proved against a specification:

- `ConnectEffects`, `RegisteredClients` and `StoredWills` in `Connect`;
- `FanOutEffects`, `FanOutOutcome` and `PubAckEffects` in `FanOut`;
- `WithoutClient`, `ListFor`, `KeepOthers` and `RemovalEffects` in `Stores`.

These are functions over values. The two PUBLISH entry points,
`ProcessPublic` and `DispatchPublic`, are instead proved against
`Dispatched`, a ghost predicate of the class. It reads the engine's fields
and the fields of the newly filed `PublishEvent`, and is stated in terms of
the fan-out functions above.

The lemmas beside those functions state what the code promises.

The model follows the code as written, including where the code departs
from MQTT 3.1.1 or from what its own comments say it does:

- **The admission checks do not stop processing.** A set reserved bit
  (section 3.1.2.3) only closes the connection and writes no response. A wrong
  protocol name or level (sections 3.1.2.1-3.1.2.2) and an empty client id
  without clean session (section 3.1.3.1) each write their rejecting CONNACK
  and close. None of the three checks has a `return`. Registration and the accepting
  CONNACK still follow (`Connect.ChecksDoNotStop`).
- **A null client id without clean session stops at registration.** The
  concurrent map refuses the null key. The model returns `Thrown(NullClientId)`
  once the check effects are written. An empty, non-null id is registered under `""`.
- **A rejected login does not close the connection.** It writes
  CONNACK(bad user name or password) and admission continues to an accepting
  CONNACK (`Connect.RejectedLoginStillAccepted`).
- **The QoS downgrade is cumulative.** The fan-out loop lowers its own level
  variable. Each subscriber is therefore served at the minimum of the publish
  level and the requests of every subscriber up to and including itself.
  Section 3.8.4 and the comment at `ProtocolProcess.java` line 254 call for
  min(publish level, own request) instead
  (`FanOut.CumulativeDowngrade` gives a concrete case).
- **Exactly-once is a no-op.** Section 4.3.3 requires the PUBREC, PUBREL and
  PUBCOMP exchange; the code does nothing for this level.
- **Republish only deletes.** The comments at `ProtocolProcess.java` lines
  176, 343 and 350 say the stored events are resent and then deleted. The
  code only removes them from the store and writes nothing
  (`Connect.RepublishOnlyRemoves`).

Modules and files:

- `wrappers.dfy`: `Option`.
- `qos.dfy`: the QoS levels and their minimum.
- `publish_event.dfy`: the `PublishEvent` class.
- `protocol_types.dfy`: packets, the will, subscriptions, the connection descriptor, the `ClientSession` and `ConnectMessage` handles, and the effect trace.
- `stores.dfy`: the store operations.
- `fan_out.dfy`: the fan-out and PUBACK specification.
- `connect.dfy`: the CONNECT specification.
- `protocol_process.dfy`: the engine.

Collaborators the engine calls but whose code is not part of this model
appear as parameters or as abstract state:

- the authenticator, as a fixed predicate on a user name and an optional password;
- the store's topic-filter matcher, as a fixed predicate;
- `StringTool.getRandomString(23)`, as the `generated` argument of length 23;
- the session store, as the set of ids it reports as holding a session (a wipe removes the id);
- the subscription store, as a sequence of subscriptions (a wipe drops the id's entries);
- the message store, as a sequence of events, each filed under its publisher's id and removed by reference.

## Model

| member | source | states |
|---|---|---|
| QosLevels.QoS.Ordinal | zer0MQTTServer/src/com/syxy/protocol/mqttImp/process/ProtocolProcess.java:255 | the ordinal is 0, 1 or 2; 0 exactly for at-most-once and 2 exactly for exactly-once |
| QosLevels.Downgrade | zer0MQTTServer/src/com/syxy/protocol/mqttImp/process/ProtocolProcess.java:255-257 | the result is no higher than either level and is one of the two, i.e. their minimum |
| PublishEvents.PublishEvent.constructor | zer0MQTTServer/src/com/syxy/protocol/mqttImp/process/event/PublishEvent.java:20-28 | topic, qos, message, retain and client id are stored as given; the packet id is the supplied one above at-most-once and stays 0 at at-most-once |
| PublishEvents.PublishEvent.GetTopic | zer0MQTTServer/src/com/syxy/protocol/mqttImp/process/event/PublishEvent.java:31-33 | returns the current topic and changes nothing |
| PublishEvents.PublishEvent.SetTopic | zer0MQTTServer/src/com/syxy/protocol/mqttImp/process/event/PublishEvent.java:35-37 | sets the topic; every other field keeps its value |
| PublishEvents.PublishEvent.GetQos | zer0MQTTServer/src/com/syxy/protocol/mqttImp/process/event/PublishEvent.java:39-41 | returns the current level and changes nothing |
| PublishEvents.PublishEvent.SetQos | zer0MQTTServer/src/com/syxy/protocol/mqttImp/process/event/PublishEvent.java:43-45 | sets the level and leaves the packet id (and every other field) as it was, so the level/packet-id link holds only at construction |
| PublishEvents.PublishEvent.GetMessage | zer0MQTTServer/src/com/syxy/protocol/mqttImp/process/event/PublishEvent.java:47-49 | returns the current payload and changes nothing |
| PublishEvents.PublishEvent.SetMessage | zer0MQTTServer/src/com/syxy/protocol/mqttImp/process/event/PublishEvent.java:51-53 | sets the payload; every other field keeps its value |
| PublishEvents.PublishEvent.IsRetain | zer0MQTTServer/src/com/syxy/protocol/mqttImp/process/event/PublishEvent.java:55-57 | returns the current retain flag and changes nothing |
| PublishEvents.PublishEvent.SetRetain | zer0MQTTServer/src/com/syxy/protocol/mqttImp/process/event/PublishEvent.java:59-61 | sets the retain flag; every other field keeps its value |
| PublishEvents.PublishEvent.GetClientID | zer0MQTTServer/src/com/syxy/protocol/mqttImp/process/event/PublishEvent.java:63-65 | returns the current client id and changes nothing |
| PublishEvents.PublishEvent.SetClientID | zer0MQTTServer/src/com/syxy/protocol/mqttImp/process/event/PublishEvent.java:67-69 | sets the client id; every other field keeps its value |
| PublishEvents.PublishEvent.GetPackgeID | zer0MQTTServer/src/com/syxy/protocol/mqttImp/process/event/PublishEvent.java:71-73 | returns the current packet id and changes nothing |
| PublishEvents.PublishEvent.SetPackgeID | zer0MQTTServer/src/com/syxy/protocol/mqttImp/process/event/PublishEvent.java:75-77 | sets the packet id at any level; every other field keeps its value |
| Stores.SubscribersOf | zer0MQTTServer/src/com/syxy/protocol/mqttImp/process/ProtocolProcess.java:253 | the answer for a topic is never longer than the subscription store; `Stores.SubscribersOfMembers` gives its members |
| Stores.SubscribersOfMembers | zer0MQTTServer/src/com/syxy/protocol/mqttImp/process/ProtocolProcess.java:253 | a subscription is listed for a topic exactly when it is in the store and its filter matches the topic |
| Stores.WithoutClient | zer0MQTTServer/src/com/syxy/protocol/mqttImp/process/ProtocolProcess.java:334 | removing a client's subscriptions never grows the store |
| Stores.WithoutClientMembers | zer0MQTTServer/src/com/syxy/protocol/mqttImp/process/ProtocolProcess.java:334 | exactly the subscriptions of other clients remain |
| Stores.WithoutClientIdempotent | zer0MQTTServer/src/com/syxy/protocol/mqttImp/process/ProtocolProcess.java:334 | a second removal for the same client changes nothing |
| Stores.ListFor | zer0MQTTServer/src/com/syxy/protocol/mqttImp/process/ProtocolProcess.java:351 | the listed events are at most as many as the store's entries |
| Stores.ListForMembers | zer0MQTTServer/src/com/syxy/protocol/mqttImp/process/ProtocolProcess.java:351 | an event is listed for an id exactly when some entry filed under that id holds it |
| Stores.ListForMember | zer0MQTTServer/src/com/syxy/protocol/mqttImp/process/ProtocolProcess.java:351 | with distinct events, an entry's event is listed for an id exactly when the entry is filed under that id |
| Stores.KeepOthers | zer0MQTTServer/src/com/syxy/protocol/mqttImp/process/ProtocolProcess.java:347-361 | dropping a session's entries never grows the store |
| Stores.KeepOthersMembers | zer0MQTTServer/src/com/syxy/protocol/mqttImp/process/ProtocolProcess.java:347-361 | exactly the entries filed under other sessions are kept |
| Stores.KeepOthersDistinct | zer0MQTTServer/src/com/syxy/protocol/mqttImp/process/ProtocolProcess.java:347-361 | dropping a session's entries keeps the store free of duplicate events |
| Stores.NothingListedKeepsAll | zer0MQTTServer/src/com/syxy/protocol/mqttImp/process/ProtocolProcess.java:351-355 | when nothing is listed for the id, dropping its entries leaves the store unchanged |
| Stores.KeepUnlisted | zer0MQTTServer/src/com/syxy/protocol/mqttImp/process/ProtocolProcess.java:359 | removing events never grows the store |
| Stores.KeepUnlistedMembers | zer0MQTTServer/src/com/syxy/protocol/mqttImp/process/ProtocolProcess.java:359 | exactly the entries whose event is not among the removed ones are kept |
| Stores.KeepUnlistedStep | zer0MQTTServer/src/com/syxy/protocol/mqttImp/process/ProtocolProcess.java:358-360 | removing one more event after a list of removals equals removing the extended list |
| Stores.KeepUnlistedNothing | zer0MQTTServer/src/com/syxy/protocol/mqttImp/process/ProtocolProcess.java:358-360 | removing no event leaves the store unchanged |
| Stores.KeepUnlistedAgrees | zer0MQTTServer/src/com/syxy/protocol/mqttImp/process/ProtocolProcess.java:358-360 | when the removed events are exactly those filed under an id, the result is the store without that id's entries |
| Stores.ListForCleared | zer0MQTTServer/src/com/syxy/protocol/mqttImp/process/ProtocolProcess.java:351-360 | with distinct events, removing every event listed for an id yields the store without that id's entries |
| Stores.RemovalEffects | zer0MQTTServer/src/com/syxy/protocol/mqttImp/process/ProtocolProcess.java:358-360 | one removal call per listed event |
| Stores.RemovalStep | zer0MQTTServer/src/com/syxy/protocol/mqttImp/process/ProtocolProcess.java:358-360 | one loop step removes the next listed event and appends exactly its removal call |
| Stores.RemovalEffectsAt | zer0MQTTServer/src/com/syxy/protocol/mqttImp/process/ProtocolProcess.java:358-360 | the i-th call removes the i-th listed event and is neither a write nor a close |
| FanOut.DeliveredQos | zer0MQTTServer/src/com/syxy/protocol/mqttImp/process/ProtocolProcess.java:253-257 | the level for the i-th subscriber is no higher than the publish level nor than that subscriber's request |
| FanOut.PacketIdFor | zer0MQTTServer/src/com/syxy/protocol/mqttImp/process/ProtocolProcess.java:270-272 | an outbound PUBLISH carries a packet id exactly when its level is above at-most-once, and then the publish's own id |
| FanOut.Delivery | zer0MQTTServer/src/com/syxy/protocol/mqttImp/process/ProtocolProcess.java:264-287 | the PUBLISH for a registered subscriber goes to its registered connection with topic, payload and retain copied, a level no higher than the publish level or the request, and a packet id exactly above at-most-once |
| FanOut.FirstMissing | zer0MQTTServer/src/com/syxy/protocol/mqttImp/process/ProtocolProcess.java:280-281 | every subscriber before the position is registered and the one at it (if any) is not |
| FanOut.Deliveries | zer0MQTTServer/src/com/syxy/protocol/mqttImp/process/ProtocolProcess.java:253-288 | one write per subscriber reached |
| FanOut.DeliveriesStep | zer0MQTTServer/src/com/syxy/protocol/mqttImp/process/ProtocolProcess.java:253-287 | one loop step lowers the carried level by the subscriber's request to that subscriber's delivered level and appends exactly its PUBLISH |
| FanOut.DeliveriesAt | zer0MQTTServer/src/com/syxy/protocol/mqttImp/process/ProtocolProcess.java:264-287 | the j-th write of the fan-out is the j-th subscriber's PUBLISH |
| FanOut.FanOutEffects | zer0MQTTServer/src/com/syxy/protocol/mqttImp/process/ProtocolProcess.java:253-288 | never more writes than subscribers |
| FanOut.FanOutOutcome | zer0MQTTServer/src/com/syxy/protocol/mqttImp/process/ProtocolProcess.java:280-281 | the fan-out completes exactly when every subscriber is registered; otherwise it raises for a client id absent from the registry |
| FanOut.PubAckEffects | zer0MQTTServer/src/com/syxy/protocol/mqttImp/process/ProtocolProcess.java:300-323 | at most one write; one exactly when the sender is non-null and registered, and then a PUBACK with the publish's packet id on the sender's connection |
| FanOut.DeliveredQosIsPrefixMinimum | zer0MQTTServer/src/com/syxy/protocol/mqttImp/process/ProtocolProcess.java:253-257 | the i-th level is no higher than the request of every subscriber 0..i and equals the publish level or one of those requests |
| FanOut.DeliveredQosNonIncreasing | zer0MQTTServer/src/com/syxy/protocol/mqttImp/process/ProtocolProcess.java:253-257 | the delivered level never rises along the subscriber list |
| FanOut.CumulativeDowngrade | zer0MQTTServer/src/com/syxy/protocol/mqttImp/process/ProtocolProcess.java:255-256 | after a subscriber requesting level 0, a subscriber requesting level 2 of a level-2 publish is served at level 0, not at its own minimum |
| FanOut.FanOutDelivers | zer0MQTTServer/src/com/syxy/protocol/mqttImp/process/ProtocolProcess.java:264-287 | each subscriber reached gets a PUBLISH on its registered connection with topic, payload and retain copied, its delivered level, and the packet id exactly above at-most-once |
| FanOut.FanOutReachesAll | zer0MQTTServer/src/com/syxy/protocol/mqttImp/process/ProtocolProcess.java:253-288 | with every subscriber registered, each one is written to and the fan-out completes |
| FanOut.FanOutStopsAtMissing | zer0MQTTServer/src/com/syxy/protocol/mqttImp/process/ProtocolProcess.java:280-281 | the first unregistered subscriber raises the error after exactly the earlier subscribers were written to |
| Connect.SessionPresent | zer0MQTTServer/src/com/syxy/protocol/mqttImp/process/ProtocolProcess.java:165-169 | the flag is 0 or 1, and 1 exactly when clean session is off and the session store holds the id |
| Connect.EffectiveClientId | zer0MQTTServer/src/com/syxy/protocol/mqttImp/process/ProtocolProcess.java:108-121 | the id is missing exactly for a null id without clean session, where registration fails; it differs from the request's id only when a null or empty id of a clean session is replaced by the generated one, which every later key uses; an empty id without clean session is kept as "" |
| Connect.CheckEffects | zer0MQTTServer/src/com/syxy/protocol/mqttImp/process/ProtocolProcess.java:98-117 | at most five effects, and none exactly when the reserved bit is clear, the protocol is "MQTT" level 4 and the id is not null or empty without clean session |
| Connect.CheckEffectsShape | zer0MQTTServer/src/com/syxy/protocol/mqttImp/process/ProtocolProcess.java:98-117 | every check effect is on the requesting connection; each write is a rejecting CONNACK with session-present 0 immediately followed by a close |
| Connect.AuthEffects | zer0MQTTServer/src/com/syxy/protocol/mqttImp/process/ProtocolProcess.java:142-153 | the credentials gate adds at most one effect, and that one is CONNACK(bad user name or password, 0) on the requesting connection, never a close |
| Connect.CleanEffects | zer0MQTTServer/src/com/syxy/protocol/mqttImp/process/ProtocolProcess.java:155-159 | without clean session nothing happens; with it, exactly two store calls for the id, the subscription wipe then the session wipe, and no write |
| Connect.ConnectEffects | zer0MQTTServer/src/com/syxy/protocol/mqttImp/process/ProtocolProcess.java:96-179 | the check effects come first; a null id without clean session stops there; otherwise the trace holds the check, credential and wipe effects, one CONNACK and, without clean session, one removal per event listed for the id |
| Connect.RegisteredClients | zer0MQTTServer/src/com/syxy/protocol/mqttImp/process/ProtocolProcess.java:119-121 | the registry gains the id, maps it to a descriptor of this client and flag, replacing any earlier one, and keeps every other entry |
| Connect.StoredWills | zer0MQTTServer/src/com/syxy/protocol/mqttImp/process/ProtocolProcess.java:132-140 | with a will, the id maps to a will of exactly the declared topic, payload, retain and level and other entries stay; without one the registry is untouched |
| Connect.WillRetrievable | zer0MQTTServer/src/com/syxy/protocol/mqttImp/process/ProtocolProcess.java:33-62 | the will is an immutable record of topic, payload, retain flag and level; once stored it keeps its declared topic, payload, retain flag and level under its id across a later CONNECT of another id or a will-less CONNECT of the same id |
| Connect.ReservedBitClosesFirst | zer0MQTTServer/src/com/syxy/protocol/mqttImp/process/ProtocolProcess.java:99-101 | a set reserved bit makes a close the very first effect, before any CONNACK |
| Connect.ProtocolMismatchRejects | zer0MQTTServer/src/com/syxy/protocol/mqttImp/process/ProtocolProcess.java:103-106 | a wrong protocol name or level writes CONNACK(unacceptable version, 0) immediately followed by a close |
| Connect.EmptyIdentifierRejected | zer0MQTTServer/src/com/syxy/protocol/mqttImp/process/ProtocolProcess.java:108-117 | a null or empty id without clean session writes CONNACK(identifier rejected, 0) then a close, closing the checks |
| Connect.ChecksDoNotStop | zer0MQTTServer/src/com/syxy/protocol/mqttImp/process/ProtocolProcess.java:98-170 | whenever an id is available, the accepting CONNACK follows the check, credential and clean-session effects whatever the checks found, and only store calls come after it |
| Connect.AuthenticationGate | zer0MQTTServer/src/com/syxy/protocol/mqttImp/process/ProtocolProcess.java:142-153 | the credentials gate adds nothing exactly when there is no user name or the authenticator accepts the user name with the password (null without the password flag); otherwise it adds exactly one CONNACK(bad user name or password, 0) |
| Connect.RejectedLoginStillAccepted | zer0MQTTServer/src/com/syxy/protocol/mqttImp/process/ProtocolProcess.java:142-170 | a rejected login is followed by the accepting CONNACK, with no close from the rejection onward |
| Connect.CleanSessionBeforeAccept | zer0MQTTServer/src/com/syxy/protocol/mqttImp/process/ProtocolProcess.java:155-170 | with clean session, the subscription wipe and the session wipe for the id come, in that order, right before CONNACK(accepted, 0), and nothing follows |
| Connect.RepublishOnlyRemoves | zer0MQTTServer/src/com/syxy/protocol/mqttImp/process/ProtocolProcess.java:174-178 | without clean session, everything after the accepting CONNACK is one removal per event listed for the id, in list order |
| Connect.ReconnectSupersedes | zer0MQTTServer/src/com/syxy/protocol/mqttImp/process/ProtocolProcess.java:119-121 | a second CONNECT with the same id replaces the descriptor, so every fan-out write to that id goes to the second connection |
| Connect.CleanSessionTwice | zer0MQTTServer/src/com/syxy/protocol/mqttImp/process/ProtocolProcess.java:333-337 | two clean-session wipes in a row leave no subscription of the id and the second changes nothing |
| Protocol.ProtocolProcess.constructor | zer0MQTTServer/src/com/syxy/protocol/mqttImp/process/ProtocolProcess.java:66-73 | the engine starts with empty connection and will registries and an empty trace over the given stores |
| Protocol.ProtocolProcess.ProcessConnect | zer0MQTTServer/src/com/syxy/protocol/mqttImp/process/ProtocolProcess.java:96-179 | the request's id becomes the effective id; the trace grows by exactly the CONNECT effects (checks, credentials, wipe, CONNACK, removals); a null id without clean session raises and changes no registry or attribute; otherwise the registries, session attributes, subscription, session and message stores take their specified new values |
| Protocol.ProtocolProcess.ValidateConnect | zer0MQTTServer/src/com/syxy/protocol/mqttImp/process/ProtocolProcess.java:98-117 | the three checks append their writes and closes in order and the id is replaced only for a null or empty id of a clean session |
| Protocol.ProtocolProcess.RegisterConnection | zer0MQTTServer/src/com/syxy/protocol/mqttImp/process/ProtocolProcess.java:119-140 | the connection and will registries take their registered values and the client id, clean-session and keep-alive attributes are set |
| Protocol.ProtocolProcess.CheckCredentials | zer0MQTTServer/src/com/syxy/protocol/mqttImp/process/ProtocolProcess.java:142-153 | the trace grows by exactly the credentials gate's effects |
| Protocol.ProtocolProcess.ProcessPublic | zer0MQTTServer/src/com/syxy/protocol/mqttImp/process/ProtocolProcess.java:190-200 | dispatches the publish with the session's client-id attribute as sender and its topic, level, payload, retain and packet id |
| Protocol.ProtocolProcess.Dispatched | zer0MQTTServer/src/com/syxy/protocol/mqttImp/process/ProtocolProcess.java:215-237 | a dispatch only appends to the trace, and changes the message store exactly for an at-least-once publish |
| Protocol.ProtocolProcess.DispatchPublic | zer0MQTTServer/src/com/syxy/protocol/mqttImp/process/ProtocolProcess.java:215-237 | at-most-once only fans out; at-least-once files a fresh event with the publish fields under the sender, records the store call, fans out and, if the fan-out completed, acknowledges; exactly-once changes nothing |
| Protocol.ProtocolProcess.SendPublicMessage | zer0MQTTServer/src/com/syxy/protocol/mqttImp/process/ProtocolProcess.java:251-289 | the trace grows by exactly the fan-out writes and the outcome is the fan-out outcome |
| Protocol.ProtocolProcess.SendPubAck | zer0MQTTServer/src/com/syxy/protocol/mqttImp/process/ProtocolProcess.java:300-323 | the trace grows by exactly the PUBACK effects: one write to a registered sender, none otherwise |
| Protocol.ProtocolProcess.CleanSession | zer0MQTTServer/src/com/syxy/protocol/mqttImp/process/ProtocolProcess.java:333-337 | the id's subscriptions and session are removed and the two store calls are recorded in order |
| Protocol.ProtocolProcess.RepublishMessage | zer0MQTTServer/src/com/syxy/protocol/mqttImp/process/ProtocolProcess.java:347-361 | the id's entries leave the message store, one removal per listed event is recorded in list order, nothing is written, and with nothing listed nothing changes |

## Left out

- Logging (`Log.*`): it has no behaviour.
- Thread safety of the concurrent maps: the registries are sequential maps.
- Socket I/O in `writeMsgToReqClient` and `close`: these are entries appended to the trace.
- The `ByteBuffer` copy of the will payload and the charset conversion of the will text: the payload is the byte sequence of the parsed CONNECT.
- The body of `StringTool.getRandomString`: the generated id is an argument of length 23.
- The authenticator's policy and the internals of the session, subscription and message stores: they are not part of this model.
- Topic and wildcard matching: this is an uninterpreted predicate.
- `init` and the store fields: the collaborators are assumed attached. `init` (lines 83-85) supplies the authenticator. The three store fields (lines 71-73) are never assigned in this file, so they are assumed to be set elsewhere; without that, the code would dereference null on every CONNECT. The constructor takes all four collaborators as arguments.
- The idle-timeout line (line 129) is commented out.
- The `clients == null` guards in the fan-out and in the PUBACK: the field is initialised at declaration, so the guards cannot fire.
- The unused CORBA `ByteBuffer` import in `PublishEvent`: it has no behaviour.
- The `PublishMessage`, `ConnAckMessage`, `ConnectMessage`, `ClientSession` and `ConnectionDescriptor` classes are not part of this model. Only the fields the engine reads or sets are modelled.
- Packet ids and the keep-alive are unbounded integers: the 32-bit range of Java `int` is not modelled, because the engine only copies these values.
- Protocol.ProtocolProcess.ProcessPublic: an inbound PUBLISH whose packet id was never set is read as 0, the default of the Java field.
- Byte-array aliasing: the payload is a value, so a later change to the caller's array is not propagated to stored events.
- Unchecked exceptions other than the null registry key and the unknown subscriber are not modelled, such as a null topic, a null payload or a null will text.
