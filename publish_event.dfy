/** The publish event the broker stores for QoS 1 deliveries: a mutable record. */
module PublishEvents {
  import opened Wrappers
  import opened QosLevels

  class PublishEvent {
    var topic: string
    var qos: QoS
    var message: seq<bv8>
    var retain: bool
    /** The publisher's client id; null (None) when the session carried none. */
    var clientID: Option<string>
    /** Meaningful for QoS 1 and 2 only; stays at its default 0 otherwise. */
    var packgeID: int

    /** Copies every argument, except that the packet id is taken only when
        the level is above at-most-once. */
    constructor (topic: string, qos: QoS, message: seq<bv8>, retain: bool,
                 clientID: Option<string>, pkgID: int)
      ensures this.topic == topic && this.qos == qos && this.message == message
      ensures this.retain == retain && this.clientID == clientID
      ensures qos != AtMostOnce ==> packgeID == pkgID
      ensures qos == AtMostOnce ==> packgeID == 0
    {
      this.topic := topic;
      this.qos := qos;
      this.message := message;
      this.retain := retain;
      this.clientID := clientID;
      this.packgeID := 0;
      new;
      if qos != AtMostOnce {
        this.packgeID := pkgID;
      }
    }

    method GetTopic() returns (r: string)
      ensures r == topic
    {
      r := topic;
    }

    method SetTopic(topic: string)
      modifies this
      ensures this.topic == topic
      ensures qos == old(qos) && message == old(message) && retain == old(retain)
      ensures clientID == old(clientID) && packgeID == old(packgeID)
    {
      this.topic := topic;
    }

    method GetQos() returns (r: QoS)
      ensures r == qos
    {
      r := qos;
    }

    /** Changes the level only: the packet id is left as it was. */
    method SetQos(qos: QoS)
      modifies this
      ensures this.qos == qos
      ensures topic == old(topic) && message == old(message) && retain == old(retain)
      ensures clientID == old(clientID) && packgeID == old(packgeID)
    {
      this.qos := qos;
    }

    method GetMessage() returns (r: seq<bv8>)
      ensures r == message
    {
      r := message;
    }

    method SetMessage(message: seq<bv8>)
      modifies this
      ensures this.message == message
      ensures topic == old(topic) && qos == old(qos) && retain == old(retain)
      ensures clientID == old(clientID) && packgeID == old(packgeID)
    {
      this.message := message;
    }

    method IsRetain() returns (r: bool)
      ensures r == retain
    {
      r := retain;
    }

    method SetRetain(retain: bool)
      modifies this
      ensures this.retain == retain
      ensures topic == old(topic) && qos == old(qos) && message == old(message)
      ensures clientID == old(clientID) && packgeID == old(packgeID)
    {
      this.retain := retain;
    }

    method GetClientID() returns (r: Option<string>)
      ensures r == clientID
    {
      r := clientID;
    }

    method SetClientID(clientID: Option<string>)
      modifies this
      ensures this.clientID == clientID
      ensures topic == old(topic) && qos == old(qos) && message == old(message)
      ensures retain == old(retain) && packgeID == old(packgeID)
    {
      this.clientID := clientID;
    }

    method GetPackgeID() returns (r: int)
      ensures r == packgeID
    {
      r := packgeID;
    }

    /** Sets the packet id whatever the level, at-most-once included. */
    method SetPackgeID(packgeID: int)
      modifies this
      ensures this.packgeID == packgeID
      ensures topic == old(topic) && qos == old(qos) && message == old(message)
      ensures retain == old(retain) && clientID == old(clientID)
    {
      this.packgeID := packgeID;
    }
  }
}
