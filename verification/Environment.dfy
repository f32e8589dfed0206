/** What a session meets outside itself: the clock, and the packets in and out of its socket. */
module Environment {
  import opened Octets
  import opened Packets

  datatype Tick = Tick(now: int, received: Option<(bytes, Address)>)

  datatype Traffic =
    | In(packet: bytes, from: Address)
    | Out(packet: bytes, to: Address)

  lemma Onwards(before: seq<Traffic>, t: seq<Traffic>, outs: seq<Traffic>)
    ensures before + t + outs == before + (t + outs)
  {
  }

  /** The same packet once to each target, in an order the set chooses. */
  predicate SentToAll(outs: seq<Traffic>, packet: bytes, targets: set<Address>) {
    && |outs| == |targets|
    && (forall i | 0 <= i < |outs| :: outs[i].Out? && outs[i].packet == packet && outs[i].to in targets)
    && (forall t | t in targets :: Out(packet, t) in outs)
  }
}
