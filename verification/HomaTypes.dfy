/** Parameters, keys and actions shared by the two Homa-lite cores. */
module HomaTypes {
  import opened Bytes
  import opened HomaPacket

  type Addr = nat

  /** Instants and durations, in any unit. */
  type Time = nat

  /** `now.duration_since(t)`, which saturates at zero. */
  function Since(now: Time, t: Time): Time {
    if now >= t then now - t else 0
  }

  datatype ConfigFields = ConfigFields(
    packetSize: nat,
    unscheduledBytes: nat,
    grantIncrement: nat,
    resendTimeout: Time,
    grantTimeout: Time,
    pokeTimeout: Time,
    retransmitTimeout: Time,
    linger: Time,
    maxIncoming: nat,
    overcommit: nat,
    starveThreshold: Time)

  /** Both cores divide by the packet size. */
  type Config = c: ConfigFields | c.packetSize > 0
    witness ConfigFields(1200, 10240, 262144, 20, 40, 50, 500, 5000, 1024, 2, 200)

  /** A message as one end names it: the other end's address and the message id. */
  datatype Key = Key(peer: Addr, id: nat)

  datatype Action =
    | Send(dest: Addr, dgram: Datagram)
    | Deliver(src: Addr, msgId: nat, data: seq<Byte>)

  /** Longest message a receiver allocates a buffer for. */
  const MAX_MSG_LEN := 0x100_0000

  function PriorityForLen(len: nat): (p: nat)
    ensures p < 8
  {
    if len <= 100 then 0
    else if len <= 1_000 then 1
    else if len <= 10_000 then 2
    else if len <= 100_000 then 3
    else if len <= 1_000_000 then 4
    else if len <= 10_000_000 then 5
    else if len <= 100_000_000 then 6
    else 7
  }

  /** 100 times 10 to the p-th power. */
  function Decade(p: nat): nat {
    if p == 0 then 100 else 10 * Decade(p - 1)
  }

  /** Priorities go by decades: p is the first whose bound the length does not exceed, or the last. */
  lemma PriorityIsDecade(len: nat)
    ensures var p := PriorityForLen(len); (p < 7 ==> len <= Decade(p)) && (p > 0 ==> len > Decade(p - 1))
  {
    assert Decade(1) == 1_000 && Decade(2) == 10 * Decade(1) && Decade(3) == 10 * Decade(2);
    assert Decade(4) == 10 * Decade(3) && Decade(5) == 10 * Decade(4) && Decade(6) == 10 * Decade(5);
  }

  /** The datagram that carries data[start..end]. */
  function DataDatagram(data: seq<Byte>, id: nat, start: nat, end: nat): Datagram
    requires start <= end <= |data|
  {
    Datagram(
      Packet(Data, PriorityForLen(|data|), id, AsU32(|data|), AsU32(start), AsU32(end - start)),
      data[start..end])
  }

  /** A hash map's iteration order: some duplicate-free listing of its keys
      (keys listed but absent from the map are passed over). */
  ghost predicate Lists(order: seq<Key>, keys: set<Key>) {
    && (forall i, j :: 0 <= i < j < |order| ==> order[i] != order[j])
    && (forall k :: k in keys ==> k in order)
  }
}
