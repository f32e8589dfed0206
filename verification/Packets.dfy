/**
 The layouts of CS2 packets: the four-octet head, data and acknowledgement bodies, network
 addresses, relay lists and relay requests.
 */
module Packets {
  import opened Octets
  import opened Channel

  /** An IPv4 address as `inet_aton` yields it, and a port. */
  datatype Address = Address(host: bytes, port: nat)

  const CHANNELS: nat := 8

  function Kind(packet: bytes): (k: bytes) {
    if |packet| < 2 then packet else packet[..2]
  }

  const HELLO: bytes := [0xF1, 0x00]
  const RELAY_PACKET: bytes := [0xF1, 0x02]
  const LOOKUP: bytes := [0xF1, 0x20]
  const LOOKUP_ANSWER: bytes := [0xF1, 0x40]
  const PUNCH: bytes := [0xF1, 0x41]
  const READY: bytes := [0xF1, 0x42]
  const READY_ACK: bytes := [0xF1, 0x43]
  const RELAY_LIST: bytes := [0xF1, 0x69]
  const RELAY_HELLO_ANSWER: bytes := [0xF1, 0x71]
  const RELAY_PORT_ASK: bytes := [0xF1, 0x72]
  const RELAY_PORT: bytes := [0xF1, 0x73]
  const RELAY_REQUEST: bytes := [0xF1, 0x80]
  const RELAY_TARGET: bytes := [0xF1, 0x82]
  const RELAY_READY: bytes := [0xF1, 0x84]
  const DATA: bytes := [0xF1, 0xD0]
  const ACK: bytes := [0xF1, 0xD1]
  const ALIVE: bytes := [0xF1, 0xE0]
  const ALIVE_ACK: bytes := [0xF1, 0xE1]
  const CLOSE: bytes := [0xF1, 0xF0]

  /** A packet with no body. */
  function Bare(kind: bytes): bytes {
    kind + [0x00, 0x00]
  }

  // ---------------------------------------------------------------------------------
  // Data and acknowledgements

  function DataPacket(channel: nat, sequence: nat, chunk: bytes): bytes
    requires channel < CHANNELS && sequence < 0x1_0000 && |chunk| <= CHUNK_BYTES
  {
    DATA + PutBig16(4 + |chunk|) + [0xD1, channel] + PutBig16(sequence) + chunk
  }

  datatype Frame = Frame(channel: nat, sequence: nat, body: bytes)

  function ParseData(packet: bytes): (f: Option<Frame>)
    ensures f.Some? ==> f.value.channel < CHANNELS && f.value.sequence < 0x1_0000
  {
    if |packet| < 8 || Big16(packet[2], packet[3]) != |packet| - 4 || packet[4] != 0xD1
       || packet[5] >= CHANNELS
    then None
    else Some(Frame(packet[5], Big16(packet[6], packet[7]), packet[8..]))
  }

  lemma DataRoundTrip(channel: nat, sequence: nat, chunk: bytes)
    requires channel < CHANNELS && sequence < 0x1_0000 && |chunk| <= CHUNK_BYTES
    ensures ParseData(DataPacket(channel, sequence, chunk)) == Some(Frame(channel, sequence, chunk))
  {
    var p := DataPacket(channel, sequence, chunk);
    var head := DATA + PutBig16(4 + |chunk|) + [0xD1, channel] + PutBig16(sequence);
    assert p == head + chunk && |head| == 8;
    assert [p[2], p[3]] == PutBig16(4 + |chunk|) && [p[6], p[7]] == PutBig16(sequence);
    assert p[8..] == chunk;
  }

  function AckPacket(channel: byte, high: byte, low: byte): bytes {
    ACK + [0x00, 0x06] + [0xD1, channel, 0x00, 0x01, high, low]
  }

  /** The number of sequence numbers an acknowledgement carries, or none if it is malformed. */
  function AckCount(packet: bytes): (n: Option<nat>)
    ensures n.Some? ==> |packet| == 8 + 2 * n.value && n.value <= 512
  {
    if |packet| < 8 || packet[4] != 0xD1 || packet[5] >= CHANNELS then None
    else
      var count := Big16(packet[6], packet[7]);
      if count > 512 || |packet| != 8 + 2 * count then None else Some(count)
  }

  /** The keys among the first `n` entries of a well-formed acknowledgement. */
  function AckedAmong(packet: bytes, n: nat): set<(nat, nat)>
    requires |packet| >= 8 + 2 * n
  {
    if n == 0 then {}
    else AckedAmong(packet, n - 1) + {(packet[5], Big16(packet[6 + 2 * n], packet[7 + 2 * n]))}
  }

  function AckedKeys(packet: bytes): set<(nat, nat)> {
    match AckCount(packet)
    case None => {}
    case Some(n) => AckedAmong(packet, n)
  }

  /** The acknowledgement of a data packet removes exactly that packet's key. */
  lemma AckRoundTrip(channel: nat, sequence: nat, chunk: bytes)
    requires channel < CHANNELS && sequence < 0x1_0000 && |chunk| <= CHUNK_BYTES
    ensures var d := DataPacket(channel, sequence, chunk);
            |d| >= 8 && AckedKeys(AckPacket(d[5], d[6], d[7])) == {(channel, sequence)}
  {
    var d := DataPacket(channel, sequence, chunk);
    DataRoundTrip(channel, sequence, chunk);
    var a := AckPacket(d[5], d[6], d[7]);
    assert a[5] == d[5] && a[6] == 0x00 && a[7] == 0x01 && a[8] == d[6] && a[9] == d[7];
    assert AckCount(a) == Some(1);
    assert AckedAmong(a, 0) == {};
    assert AckedAmong(a, 1) == {} + {(a[5], Big16(a[8], a[9]))};
  }

  // ---------------------------------------------------------------------------------
  // The chunks of one write

  function ChunkCount(payload: bytes): nat {
    (|payload| + 1023) / 1024
  }

  /** `payload[i * 1024 : (i + 1) * 1024]`, with slice bounds clipped to the payload. */
  function ChunkOf(payload: bytes, i: nat): (chunk: bytes)
    ensures |chunk| <= CHUNK_BYTES
    ensures i < ChunkCount(payload) ==> chunk != []
  {
    var from := i * 1024;
    if |payload| <= from then []
    else if |payload| <= from + 1024 then payload[from..]
    else payload[from..from + 1024]
  }

  function ChunksUpTo(payload: bytes, n: nat): seq<bytes> {
    if n == 0 then [] else ChunksUpTo(payload, n - 1) + [ChunkOf(payload, n - 1)]
  }

  function Chunks(payload: bytes): seq<bytes> {
    ChunksUpTo(payload, ChunkCount(payload))
  }

  lemma {:induction false} ChunksUpToCover(payload: bytes, n: nat)
    requires n <= ChunkCount(payload)
    ensures |ChunksUpTo(payload, n)| == n
    ensures Concat(ChunksUpTo(payload, n)) == payload[..if |payload| <= n * 1024 then |payload| else n * 1024]
  {
    if n > 0 {
      ChunksUpToCover(payload, n - 1);
      ConcatSnoc(ChunksUpTo(payload, n - 1), ChunkOf(payload, n - 1));
    }
  }

  /** Nothing is lost, repeated or reordered by cutting a payload into chunks. */
  lemma ChunksCover(payload: bytes)
    ensures Concat(Chunks(payload)) == payload && |Chunks(payload)| == ChunkCount(payload)
  {
    ChunksUpToCover(payload, ChunkCount(payload));
  }

  // ---------------------------------------------------------------------------------
  // Addresses

  function Reversed4(host: bytes): bytes
    requires |host| == 4
  {
    [host[3], host[2], host[1], host[0]]
  }

  predicate Usable(a: Address) {
    |a.host| == 4 && 0 < a.port < 0x1_0000 && a.host != [0, 0, 0, 0]
  }

  function EncodeAddress(host: bytes, port: nat): Option<bytes>
    requires |host| == 4
  {
    if 0 < port < 0x1_0000
    then Some([0x00, 0x02] + PutLittle16(port) + Reversed4(host) + [0, 0, 0, 0, 0, 0, 0, 0])
    else None
  }

  function DecodeAddress(payload: bytes): (a: Option<Address>)
    ensures a.Some? ==> Usable(a.value)
  {
    if |payload| < 16 || payload[..2] != [0x00, 0x02] then None
    else
      var port, host := Little16(payload[2], payload[3]), Reversed4(payload[4..8]);
      if port == 0 || host == [0, 0, 0, 0] then None else Some(Address(host, port))
  }

  lemma AddressRoundTrip(a: Address)
    requires Usable(a)
    ensures EncodeAddress(a.host, a.port).Some?
    ensures DecodeAddress(EncodeAddress(a.host, a.port).value) == Some(a)
  {
    var p := EncodeAddress(a.host, a.port).value;
    assert p[..2] == [0x00, 0x02];
    assert [p[2], p[3]] == PutLittle16(a.port);
    assert p[4..8] == Reversed4(a.host);
    assert Reversed4(p[4..8]) == a.host;
  }

  /** The usable addresses among the first `n` entries of a relay list. */
  function ListedAmong(packet: bytes, n: nat): set<Address>
    requires |packet| >= 8 + 16 * n
  {
    if n == 0 then {}
    else
      var entry := DecodeAddress(packet[8 + 16 * (n - 1)..8 + 16 * n]);
      ListedAmong(packet, n - 1) + (if entry.Some? then {entry.value} else {})
  }

  function RelayList(packet: bytes): set<Address> {
    if |packet| < 8 || packet[..2] != RELAY_LIST || packet[4] > 32
       || |packet| != 8 + 16 * (packet[4] as int)
    then {}
    else ListedAmong(packet, packet[4] as int)
  }

  function RelayRequest(uid: bytes, address: bytes, token: bytes): bytes {
    RELAY_REQUEST + [0x00, 0x28] + uid + address + token
  }

  function RelayPunch(uid: bytes, token: bytes): bytes {
    [0xF1, 0x83, 0x00, 0x1C] + token + uid + [0, 0, 0, 0]
  }

  /** The rendezvous request built from a relay's 12-octet answer. */
  function RequestFromAck(uid: bytes, relay: Address, packet: bytes): Option<bytes>
    requires |relay.host| == 4
  {
    if |packet| != 12 || packet[..2] != RELAY_PORT then None
    else
      var address := EncodeAddress(relay.host, Big16(packet[8], packet[9]));
      if address.None? then None else Some(RelayRequest(uid, address.value, packet[4..8]))
  }
}
