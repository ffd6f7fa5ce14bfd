/** The values and handles the protocol engine works with, and the trace of
    its outward effects. */
module ProtocolTypes {
  import opened Wrappers
  import opened QosLevels
  import opened PublishEvents

  /** A last-will registration: immutable once built. */
  datatype WillMessage = WillMessage(topic: string, payload: seq<bv8>, retained: bool, qos: QoS)

  /** One entry of the subscription store: who asked for which filter at which level. */
  datatype Subscription = Subscription(clientID: string, topicFilter: string, requestedQos: QoS)

  /** The CONNACK return codes the engine writes. */
  datatype ConnectionStatus = Accepted | UnacceptableProtocolVersion | IdentifierRejected | BadUsernameOrPassword

  /** A PUBLISH packet; `packgeID` is None when it was never set. */
  datatype PublishMessage = PublishMessage(topic: string, qos: QoS, data: seq<bv8>, retain: bool, packgeID: Option<int>)

  /** The packets the engine writes to a connection. */
  datatype Packet =
    | ConnAck(status: ConnectionStatus, sessionPresent: int)
    | Publish(message: PublishMessage)
    | PubAck(packgeID: int)

  /** The transport-side session of one connection: only the attributes the
      engine sets are modelled. */
  class ClientSession {
    var clientIdAttr: Option<string>
    var cleanSessionAttr: Option<bool>
    var keepAliveAttr: Option<int>

    constructor ()
      ensures clientIdAttr == None && cleanSessionAttr == None && keepAliveAttr == None
    {
      clientIdAttr := None;
      cleanSessionAttr := None;
      keepAliveAttr := None;
    }
  }

  /** The connection-registry entry for one client id. */
  datatype ConnectionDescriptor = ConnectionDescriptor(clientID: string, client: ClientSession, cleanSession: bool)

  /** A parsed CONNECT packet. The engine only ever rewrites its client id;
      `willMessage` holds the bytes of the will text. */
  class ConnectMessage {
    const reservedIsZero: bool
    const protocolName: string
    const protocolVersionNumber: int
    var clientId: Option<string>
    const cleanSession: bool
    const keepAlive: int
    const hasWill: bool
    const willQos: QoS
    const willTopic: string
    const willMessage: seq<bv8>
    const willRetain: bool
    const hasUsername: bool
    const username: string
    const hasPassword: bool
    const password: string

    constructor (reservedIsZero: bool, protocolName: string, protocolVersionNumber: int,
                 clientId: Option<string>, cleanSession: bool, keepAlive: int,
                 hasWill: bool, willQos: QoS, willTopic: string, willMessage: seq<bv8>, willRetain: bool,
                 hasUsername: bool, username: string, hasPassword: bool, password: string)
      ensures this.reservedIsZero == reservedIsZero && this.protocolName == protocolName
      ensures this.protocolVersionNumber == protocolVersionNumber && this.clientId == clientId
      ensures this.cleanSession == cleanSession && this.keepAlive == keepAlive
      ensures this.hasWill == hasWill && this.willQos == willQos && this.willTopic == willTopic
      ensures this.willMessage == willMessage && this.willRetain == willRetain
      ensures this.hasUsername == hasUsername && this.username == username
      ensures this.hasPassword == hasPassword && this.password == password
    {
      this.reservedIsZero := reservedIsZero;
      this.protocolName := protocolName;
      this.protocolVersionNumber := protocolVersionNumber;
      this.clientId := clientId;
      this.cleanSession := cleanSession;
      this.keepAlive := keepAlive;
      this.hasWill := hasWill;
      this.willQos := willQos;
      this.willTopic := willTopic;
      this.willMessage := willMessage;
      this.willRetain := willRetain;
      this.hasUsername := hasUsername;
      this.username := username;
      this.hasPassword := hasPassword;
      this.password := password;
    }
  }

  /** A call that changes the subscription, session or message store. */
  datatype StoreOp =
    | RemoveForClient(clientID: string)
    | WipeSubscriptions(clientID: string)
    | StoreMessage(event: PublishEvent)
    | RemoveMessage(event: PublishEvent)

  /** One outward effect, in the order the engine performs them. */
  datatype Effect =
    | Write(to: ClientSession, packet: Packet)
    | Close(to: ClientSession)
    | Store(op: StoreOp)

  /** The exceptions that escape the engine. */
  datatype Fault =
    | NullClientId              // a null key handed to the connection registry
    | UnknownClient(clientID: string)  // a subscriber with no registered connection

  datatype Outcome = Completed | Thrown(fault: Fault)

  /** The arguments of one publish as the delivery engine receives them. */
  datatype PublishArgs = PublishArgs(topic: string, qos: QoS, message: seq<bv8>, retain: bool, packgeID: int)
}
