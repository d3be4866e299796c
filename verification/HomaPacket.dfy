/** The Homa-lite datagram: a 22-octet little-endian header and a payload. */
module HomaPacket {
  import opened Bytes

  const HEADER_LEN := 22

  datatype PacketType = Data | Grant | Resend | Busy

  /** Which field means what depends on the type:
      Data   - msgLen: message length, offset/length: position and size of the payload;
      Grant  - offset: the sender may send up to here, length: newly granted;
      Resend - offset/length: the range asked for again. */
  datatype Packet = Packet(typ: PacketType, priority: nat, msgId: nat, msgLen: nat, offset: nat, length: nat)

  datatype Datagram = Datagram(pkt: Packet, payload: seq<Byte>)

  function TypeCode(t: PacketType): Byte {
    match t case Data => 0 case Grant => 1 case Resend => 2 case Busy => 3
  }

  function TypeOf(b: Byte): Option<PacketType> {
    if b == 0 then Some(Data)
    else if b == 1 then Some(Grant)
    else if b == 2 then Some(Resend)
    else if b == 3 then Some(Busy)
    else None
  }

  /** The header fields fit their widths, and a Data header tells its payload's length. */
  predicate Representable(d: Datagram) {
    && d.pkt.priority < 256
    && d.pkt.msgId < TWO64
    && d.pkt.msgLen < TWO32
    && d.pkt.offset < TWO32
    && d.pkt.length < TWO32
    && (d.pkt.typ == Data ==> d.pkt.length == |d.payload|)
  }

  function Encode(d: Datagram): (bytes: seq<Byte>)
    requires Representable(d)
    ensures |bytes| == HEADER_LEN + |d.payload|
  {
    [TypeCode(d.pkt.typ), d.pkt.priority]
    + LittleEndian(d.pkt.msgId, 8)
    + LittleEndian(d.pkt.msgLen, 4)
    + LittleEndian(d.pkt.offset, 4)
    + LittleEndian(d.pkt.length, 4)
    + d.payload
  }

  function Decode(bytes: seq<Byte>): (r: Option<Datagram>)
    ensures r.Some? ==> Representable(r.value)
  {
    if |bytes| < HEADER_LEN || TypeOf(bytes[0]).None? then None else
    RadixValues();
    var pkt := Packet(
      TypeOf(bytes[0]).value,
      bytes[1],
      FromLittleEndian(bytes[2..10]),
      FromLittleEndian(bytes[10..14]),
      FromLittleEndian(bytes[14..18]),
      FromLittleEndian(bytes[18..22]));
    var payload := bytes[HEADER_LEN..];
    if pkt.typ == Data && |payload| != pkt.length then None else Some(Datagram(pkt, payload))
  }

  /** Every datagram the cores build survives the wire unchanged. */
  lemma DecodeEncode(d: Datagram)
    requires Representable(d)
    ensures Decode(Encode(d)) == Some(d)
  {
    RadixValues();
    var b := Encode(d);
    assert b[2..10] == LittleEndian(d.pkt.msgId, 8);
    assert b[10..14] == LittleEndian(d.pkt.msgLen, 4);
    assert b[14..18] == LittleEndian(d.pkt.offset, 4);
    assert b[18..22] == LittleEndian(d.pkt.length, 4);
    assert b[22..] == d.payload;
    LittleEndianInverse(d.pkt.msgId, 8);
    LittleEndianInverse(d.pkt.msgLen, 4);
    LittleEndianInverse(d.pkt.offset, 4);
    LittleEndianInverse(d.pkt.length, 4);
  }

  /** The format is canonical: octets that decode are the encoding of what they decode to,
      and the only octets refused are too short, of unknown type, or Data of the wrong length. */
  lemma EncodeDecode(b: seq<Byte>)
    ensures Decode(b).Some? ==> Encode(Decode(b).value) == b
    ensures Decode(b).None? <==>
      || |b| < HEADER_LEN
      || b[0] > 3
      || (b[0] == 0 && FromLittleEndian(b[18..22]) != |b| - HEADER_LEN)
  {
    if Decode(b).Some? {
      LittleEndianCanonical(b[2..10]);
      LittleEndianCanonical(b[10..14]);
      LittleEndianCanonical(b[14..18]);
      LittleEndianCanonical(b[18..22]);
      assert b == [b[0], b[1]] + b[2..10] + b[10..14] + b[14..18] + b[18..22] + b[22..];
    }
  }

  /** The header: type, priority, message id, message length, offset and length, each least significant octet
      first, then the payload. */
  lemma Layout(d: Datagram)
    requires Representable(d)
    ensures var b := Encode(d);
      && b[0] == (match d.pkt.typ case Data => 0 case Grant => 1 case Resend => 2 case Busy => 3)
      && b[1] == d.pkt.priority
      && (forall i: nat :: i < 8 ==> b[2 + i] == d.pkt.msgId / Radix(i) % 256)
      && (forall i: nat :: i < 4 ==> b[10 + i] == d.pkt.msgLen / Radix(i) % 256)
      && (forall i: nat :: i < 4 ==> b[14 + i] == d.pkt.offset / Radix(i) % 256)
      && (forall i: nat :: i < 4 ==> b[18 + i] == d.pkt.length / Radix(i) % 256)
      && b[HEADER_LEN..] == d.payload
  {
    hide LittleEndian, Radix;
    var b := Encode(d);
    forall i: nat | i < 8 ensures b[2 + i] == d.pkt.msgId / Radix(i) % 256 {
      LittleEndianAt(d.pkt.msgId, 8, i);
    }
    forall i: nat | i < 4 ensures b[10 + i] == d.pkt.msgLen / Radix(i) % 256 {
      LittleEndianAt(d.pkt.msgLen, 4, i);
    }
    forall i: nat | i < 4 ensures b[14 + i] == d.pkt.offset / Radix(i) % 256 {
      LittleEndianAt(d.pkt.offset, 4, i);
    }
    forall i: nat | i < 4 ensures b[18 + i] == d.pkt.length / Radix(i) % 256 {
      LittleEndianAt(d.pkt.length, 4, i);
    }
  }
}
