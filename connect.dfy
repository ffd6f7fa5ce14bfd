/** CONNECT admission as functions of the request and the engine's state:
    what is written and closed, in order, and what the registries become. */
module Connect {
  import opened Wrappers
  import opened QosLevels
  import opened PublishEvents
  import opened ProtocolTypes
  import opened Stores
  import opened FanOut

  /** The length of the identifier generated for an anonymous clean session. */
  const GeneratedIdLength: nat := 23

  /** The client-id test of the admission checks: null or of length zero. */
  predicate IsNullOrEmpty(id: Option<string>) {
    id.None? || |id.value| == 0
  }

  /** The client id once the checks are through: a null or empty id of a clean
      session is replaced by the generated one; any other id stays, even a
      rejected one. */
  function EffectiveClientId(id: Option<string>, cleanSession: bool, generated: string): (r: Option<string>)
    ensures r.None? <==> id.None? && !cleanSession
    ensures r != id ==> r == Some(generated) && IsNullOrEmpty(id) && cleanSession
    ensures IsNullOrEmpty(id) && cleanSession ==> r == Some(generated)
    // an empty id without clean session is kept, and registered under ""
    ensures id == Some("") && !cleanSession ==> r == Some("")
  {
    if IsNullOrEmpty(id) && cleanSession then Some(generated) else id
  }

  /** The three admission checks. None of them ends the processing: each
      only writes its effects and the next check runs. */
  function CheckEffects(c: ClientSession, msg: ConnectMessage, id: Option<string>): (r: seq<Effect>)
    ensures |r| <= 5
    ensures r == [] <==> msg.reservedIsZero && msg.protocolName == "MQTT" && msg.protocolVersionNumber == 4
                         && !(IsNullOrEmpty(id) && !msg.cleanSession)
  {
    (if !msg.reservedIsZero then [Close(c)] else [])
    + (if msg.protocolName != "MQTT" || msg.protocolVersionNumber != 4
       then [Write(c, ConnAck(UnacceptableProtocolVersion, 0)), Close(c)] else [])
    + (if IsNullOrEmpty(id) && !msg.cleanSession
       then [Write(c, ConnAck(IdentifierRejected, 0)), Close(c)] else [])
  }

  /** The credentials gate: a rejected user name and password only adds a
      negative CONNACK; the connection stays open. The password passed is
      null without the password flag. */
  function AuthEffects(c: ClientSession, msg: ConnectMessage, auth: (string, Option<string>) -> bool): (r: seq<Effect>)
    ensures |r| <= 1
    ensures forall j :: 0 <= j < |r| ==> r[j] == Write(c, ConnAck(BadUsernameOrPassword, 0))
  {
    var pwd := if msg.hasPassword then Some(msg.password) else None;
    if msg.hasUsername && !auth(msg.username, pwd)
    then [Write(c, ConnAck(BadUsernameOrPassword, 0))] else []
  }

  /** The two store calls of the clean-session wipe: nothing is written. */
  function CleanEffects(cleanSession: bool, id: string): (r: seq<Effect>)
    ensures !cleanSession ==> r == []
    ensures forall j :: 0 <= j < |r| ==> r[j].Store? && (r[j].op == RemoveForClient(id) || r[j].op == WipeSubscriptions(id))
    ensures cleanSession ==> |r| == 2 && r[0].op.RemoveForClient? && r[1].op.WipeSubscriptions?
  {
    if cleanSession then [Store(RemoveForClient(id)), Store(WipeSubscriptions(id))] else []
  }

  /** The session-present flag of the accepting CONNACK. */
  function SessionPresent(cleanSession: bool, sessions: set<string>, id: string): (r: int)
    ensures r == 0 || r == 1
    ensures r == 1 <==> !cleanSession && id in sessions
  {
    if !cleanSession && id in sessions then 1 else 0
  }

  /** Every effect of one CONNECT, in order. A null id without clean session
      stops at the registry's null-key exception, after the checks. */
  function ConnectEffects(c: ClientSession, msg: ConnectMessage, id0: Option<string>, generated: string,
                          auth: (string, Option<string>) -> bool, sessions: set<string>,
                          messages: seq<StoredEvent>): (r: seq<Effect>)
    ensures var checks := CheckEffects(c, msg, id0);
            |checks| <= |r| && r[..|checks|] == checks
    ensures EffectiveClientId(id0, msg.cleanSession, generated).None? ==> r == CheckEffects(c, msg, id0)
    ensures var id := EffectiveClientId(id0, msg.cleanSession, generated);
            id.Some? ==>
              |r| == |CheckEffects(c, msg, id0)| + |AuthEffects(c, msg, auth)| + |CleanEffects(msg.cleanSession, id.value)| + 1
                     + (if msg.cleanSession then 0 else |ListFor(messages, id.value)|)
  {
    var checks := CheckEffects(c, msg, id0);
    var id := EffectiveClientId(id0, msg.cleanSession, generated);
    if id.None? then checks
    else
      checks + AuthEffects(c, msg, auth) + CleanEffects(msg.cleanSession, id.value)
      + [Write(c, ConnAck(Accepted, SessionPresent(msg.cleanSession, sessions, id.value)))]
      + (if msg.cleanSession then [] else RemovalEffects(ListFor(messages, id.value)))
  }

  /** The connection registry after registering `id`: the new descriptor
      replaces any earlier one for the same id. */
  function RegisteredClients(clients: map<string, ConnectionDescriptor>, id: string, c: ClientSession, cleanSession: bool)
    : (r: map<string, ConnectionDescriptor>)
    ensures r.Keys == clients.Keys + {id}
    ensures r[id] == ConnectionDescriptor(id, c, cleanSession)
    ensures forall k :: k in clients && k != id ==> r[k] == clients[k]
  {
    clients[id := ConnectionDescriptor(id, c, cleanSession)]
  }

  /** The will registry after a CONNECT for `id`. */
  function StoredWills(wills: map<string, WillMessage>, id: string, msg: ConnectMessage): (r: map<string, WillMessage>)
    ensures msg.hasWill ==> r.Keys == wills.Keys + {id}
    ensures msg.hasWill ==> r[id] == WillMessage(msg.willTopic, msg.willMessage, msg.willRetain, msg.willQos)
    ensures msg.hasWill ==> forall k :: k in wills && k != id ==> r[k] == wills[k]
    ensures !msg.hasWill ==> r == wills
  {
    if msg.hasWill then wills[id := WillMessage(msg.willTopic, msg.willMessage, msg.willRetain, msg.willQos)] else wills
  }

  /** A non-zero reserved bit closes the connection before anything else is
      written, and no CONNACK precedes that close. */
  lemma ReservedBitClosesFirst(c: ClientSession, msg: ConnectMessage, id0: Option<string>, generated: string,
                               auth: (string, Option<string>) -> bool, sessions: set<string>, messages: seq<StoredEvent>)
    requires !msg.reservedIsZero
    ensures var e := ConnectEffects(c, msg, id0, generated, auth, sessions, messages);
            |e| > 0 && e[0] == Close(c)
  {
  }

  /** A wrong protocol name or level writes CONNACK(unacceptable version, 0)
      immediately followed by a close. */
  lemma ProtocolMismatchRejects(c: ClientSession, msg: ConnectMessage, id0: Option<string>, generated: string,
                                auth: (string, Option<string>) -> bool, sessions: set<string>, messages: seq<StoredEvent>)
    requires msg.protocolName != "MQTT" || msg.protocolVersionNumber != 4
    ensures var e := ConnectEffects(c, msg, id0, generated, auth, sessions, messages);
            var i := if msg.reservedIsZero then 0 else 1;
            i + 1 < |e| && e[i] == Write(c, ConnAck(UnacceptableProtocolVersion, 0)) && e[i + 1] == Close(c)
  {
  }

  /** A null or empty id without clean session writes CONNACK(identifier
      rejected, 0) immediately followed by a close, as the last check. */
  lemma EmptyIdentifierRejected(c: ClientSession, msg: ConnectMessage, id0: Option<string>, generated: string,
                                auth: (string, Option<string>) -> bool, sessions: set<string>, messages: seq<StoredEvent>)
    requires IsNullOrEmpty(id0) && !msg.cleanSession
    ensures var e := ConnectEffects(c, msg, id0, generated, auth, sessions, messages);
            var n := |CheckEffects(c, msg, id0)|;
            2 <= n <= |e| && e[n - 2] == Write(c, ConnAck(IdentifierRejected, 0)) && e[n - 1] == Close(c)
  {
  }

  /** The checks do not return: whenever an id is available the accepting
      CONNACK follows them, whatever the checks found, and after it only
      store calls happen. */
  lemma ChecksDoNotStop(c: ClientSession, msg: ConnectMessage, id0: Option<string>, generated: string,
                        auth: (string, Option<string>) -> bool, sessions: set<string>, messages: seq<StoredEvent>)
    requires EffectiveClientId(id0, msg.cleanSession, generated).Some?
    ensures var e := ConnectEffects(c, msg, id0, generated, auth, sessions, messages);
            var id := EffectiveClientId(id0, msg.cleanSession, generated).value;
            var a := |CheckEffects(c, msg, id0)| + |AuthEffects(c, msg, auth)| + |CleanEffects(msg.cleanSession, id)|;
            a < |e| && e[a] == Write(c, ConnAck(Accepted, SessionPresent(msg.cleanSession, sessions, id)))
            && forall j :: a < j < |e| ==> e[j].Store?
  {
    var e := ConnectEffects(c, msg, id0, generated, auth, sessions, messages);
    var id := EffectiveClientId(id0, msg.cleanSession, generated).value;
    var pre := CheckEffects(c, msg, id0) + AuthEffects(c, msg, auth) + CleanEffects(msg.cleanSession, id);
    var acc := Write(c, ConnAck(Accepted, SessionPresent(msg.cleanSession, sessions, id)));
    var rest := if msg.cleanSession then [] else RemovalEffects(ListFor(messages, id));
    assert e == pre + [acc] + rest;
    forall j | |pre| < j < |e| ensures e[j].Store? {
      assert e[j] == rest[j - |pre| - 1];
      RemovalEffectsAt(ListFor(messages, id), j - |pre| - 1);
    }
  }

  /** The authenticator is consulted only with the user-name flag, and a
      rejection writes exactly one negative CONNACK and no close. */
  lemma AuthenticationGate(c: ClientSession, msg: ConnectMessage, auth: (string, Option<string>) -> bool)
    ensures AuthEffects(c, msg, auth) == []
            <==> !msg.hasUsername || auth(msg.username, if msg.hasPassword then Some(msg.password) else None)
    ensures AuthEffects(c, msg, auth) != [] ==> AuthEffects(c, msg, auth) == [Write(c, ConnAck(BadUsernameOrPassword, 0))]
  {
  }

  /** A rejected login is followed, with no close in between or after, by the
      accepting CONNACK. */
  lemma RejectedLoginStillAccepted(c: ClientSession, msg: ConnectMessage, id0: Option<string>, generated: string,
                                   auth: (string, Option<string>) -> bool, sessions: set<string>, messages: seq<StoredEvent>)
    requires EffectiveClientId(id0, msg.cleanSession, generated).Some?
    requires msg.hasUsername && !auth(msg.username, if msg.hasPassword then Some(msg.password) else None)
    ensures var e := ConnectEffects(c, msg, id0, generated, auth, sessions, messages);
            var id := EffectiveClientId(id0, msg.cleanSession, generated).value;
            var b := |CheckEffects(c, msg, id0)|;
            var a := b + 1 + |CleanEffects(msg.cleanSession, id)|;
            a < |e| && e[b] == Write(c, ConnAck(BadUsernameOrPassword, 0))
            && e[a] == Write(c, ConnAck(Accepted, SessionPresent(msg.cleanSession, sessions, id)))
            && forall j :: b <= j < |e| ==> !e[j].Close?
  {
    var e := ConnectEffects(c, msg, id0, generated, auth, sessions, messages);
    var id := EffectiveClientId(id0, msg.cleanSession, generated).value;
    var checks := CheckEffects(c, msg, id0);
    var tail := AuthEffects(c, msg, auth) + CleanEffects(msg.cleanSession, id)
      + [Write(c, ConnAck(Accepted, SessionPresent(msg.cleanSession, sessions, id)))];
    var rest := if msg.cleanSession then [] else RemovalEffects(ListFor(messages, id));
    assert e == checks + tail + rest;
    forall j | |checks| <= j < |e| ensures !e[j].Close? {
      if j < |checks| + |tail| {
        assert e[j] == tail[j - |checks|];
      } else {
        assert e[j] == rest[j - |checks| - |tail|];
        RemovalEffectsAt(ListFor(messages, id), j - |checks| - |tail|);
      }
    }
  }

  /** With clean session, the subscription wipe and the session wipe for the
      id come, in that order, right before CONNACK(accepted, 0). */
  lemma CleanSessionBeforeAccept(c: ClientSession, msg: ConnectMessage, id0: Option<string>, generated: string,
                                 auth: (string, Option<string>) -> bool, sessions: set<string>, messages: seq<StoredEvent>)
    requires msg.cleanSession
    ensures var e := ConnectEffects(c, msg, id0, generated, auth, sessions, messages);
            var id := EffectiveClientId(id0, true, generated).value;
            var b := |CheckEffects(c, msg, id0)| + |AuthEffects(c, msg, auth)|;
            |e| == b + 3 && e[b] == Store(RemoveForClient(id)) && e[b + 1] == Store(WipeSubscriptions(id))
            && e[b + 2] == Write(c, ConnAck(Accepted, 0))
  {
  }

  /** Without clean session, everything after the accepting CONNACK is the
      removal of the events listed for the id, in list order; none of them is
      resent. */
  lemma RepublishOnlyRemoves(c: ClientSession, msg: ConnectMessage, id0: Option<string>, generated: string,
                             auth: (string, Option<string>) -> bool, sessions: set<string>, messages: seq<StoredEvent>)
    requires !msg.cleanSession && id0.Some?
    ensures var e := ConnectEffects(c, msg, id0, generated, auth, sessions, messages);
            var listed := ListFor(messages, id0.value);
            var a := |CheckEffects(c, msg, id0)| + |AuthEffects(c, msg, auth)|;
            |e| == a + 1 + |listed|
            && e[a] == Write(c, ConnAck(Accepted, SessionPresent(false, sessions, id0.value)))
            && forall i :: 0 <= i < |listed| ==> e[a + 1 + i] == Store(RemoveMessage(listed[i]))
  {
    var e := ConnectEffects(c, msg, id0, generated, auth, sessions, messages);
    var listed := ListFor(messages, id0.value);
    var pre := CheckEffects(c, msg, id0) + AuthEffects(c, msg, auth)
      + [Write(c, ConnAck(Accepted, SessionPresent(false, sessions, id0.value)))];
    assert e == pre + RemovalEffects(listed);
    forall i | 0 <= i < |listed| ensures e[|pre| + i] == Store(RemoveMessage(listed[i])) {
      RemovalEffectsAt(listed, i);
    }
  }

  /** A second CONNECT with the same id supersedes the first connection: the
      registry holds the second handle, and every fan-out write addressed to
      that id goes to it. */
  lemma ReconnectSupersedes(clients: map<string, ConnectionDescriptor>, id: string,
                            first: ClientSession, clean1: bool, second: ClientSession, clean2: bool,
                            subs: seq<Subscription>, a: PublishArgs)
    ensures var r := RegisteredClients(RegisteredClients(clients, id, first, clean1), id, second, clean2);
            r[id] == ConnectionDescriptor(id, second, clean2)
            && (forall k :: k in clients && k != id ==> r[k] == clients[k])
            && forall j :: 0 <= j < |FanOutEffects(r, subs, a)| && subs[j].clientID == id
                 ==> FanOutEffects(r, subs, a)[j].Write? && FanOutEffects(r, subs, a)[j].to == second
  {
    var r := RegisteredClients(RegisteredClients(clients, id, first, clean1), id, second, clean2);
    forall j | 0 <= j < |FanOutEffects(r, subs, a)| && subs[j].clientID == id
      ensures FanOutEffects(r, subs, a)[j].Write? && FanOutEffects(r, subs, a)[j].to == second
    {
      FanOutDelivers(r, subs, a, j);
    }
  }

  /** Two clean-session CONNECTs in a row leave no subscription of the id,
      and the second wipe changes nothing the first did not. */
  lemma CleanSessionTwice(subs: seq<Subscription>, id: string)
    ensures WithoutClient(WithoutClient(subs, id), id) == WithoutClient(subs, id)
    ensures forall s :: s in WithoutClient(WithoutClient(subs, id), id) ==> s.clientID != id
  {
    WithoutClientIdempotent(subs, id);
    WithoutClientMembers(WithoutClient(subs, id), id);
  }

  /** Every write of the checks is a rejecting CONNACK with session-present
      0, immediately followed by a close on the same connection; every
      effect of the checks is on the requesting connection. */
  lemma CheckEffectsShape(c: ClientSession, msg: ConnectMessage, id: Option<string>)
    ensures var r := CheckEffects(c, msg, id);
            forall j :: 0 <= j < |r| ==> (r[j] == Close(c) || r[j].Write?) && r[j].to == c
    ensures var r := CheckEffects(c, msg, id);
            forall j :: 0 <= j < |r| && r[j].Write? ==>
              j + 1 < |r| && r[j + 1] == Close(c)
              && r[j].packet.ConnAck? && r[j].packet.status != Accepted && r[j].packet.sessionPresent == 0
  {
  }

  /** A declared will stays retrievable under its id, with the declared
      topic, payload, retain flag and level, across later CONNECTs of other
      ids and across a later CONNECT of the same id that declares no will:
      the will registry is only ever overwritten, never cleared. */
  lemma WillRetrievable(wills: map<string, WillMessage>, id: string, msg: ConnectMessage, id2: string, msg2: ConnectMessage)
    requires msg.hasWill
    requires id2 != id || !msg2.hasWill
    ensures var w := StoredWills(StoredWills(wills, id, msg), id2, msg2);
            id in w && w[id] == WillMessage(msg.willTopic, msg.willMessage, msg.willRetain, msg.willQos)
  {
  }
}
