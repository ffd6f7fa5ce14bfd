/** The three MQTT delivery levels (the `QoS` enumeration of the broker). */
module QosLevels {

  datatype QoS = AtMostOnce | AtLeastOnce | ExactlyOnce {

    /** The enumeration's ordinal: 0, 1 or 2. */
    function Ordinal(): (n: nat)
      ensures n <= 2
      ensures n == 0 <==> this == AtMostOnce
      ensures n == 2 <==> this == ExactlyOnce
    {
      match this
      case AtMostOnce => 0
      case AtLeastOnce => 1
      case ExactlyOnce => 2
    }
  }

  /** `a` is no higher a delivery level than `b`. */
  predicate AtMost(a: QoS, b: QoS) {
    a.Ordinal() <= b.Ordinal()
  }

  /** One step of the subscriber fan-out: the level currently carried is kept
      unless the subscriber requested a lower one, which then replaces it. */
  function Downgrade(q: QoS, requested: QoS): (r: QoS)
    ensures AtMost(r, q) && AtMost(r, requested)
    ensures r == q || r == requested
  {
    if q.Ordinal() > requested.Ordinal() then requested else q
  }
}
