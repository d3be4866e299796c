/** The receiver's record of one message: what its bitmap, its byte count, its buffer and its credit
    have to do with the bytes the sender started and with what has been on the network. */
module HomaReassembly {
  import opened Bytes
  import opened Chunks
  import opened HomaPacket
  import opened HomaTypes
  import opened HomaReceiver
  import opened HomaCredit
  import opened HomaFlow

  /** How many bytes of a message of len bytes the i-th chunk holds. */
  function ChunkLen(ps: nat, len: nat, i: nat): nat {
    var c := ChunkStart(ps, i);
    if c >= len then 0 else Min(ps, len - c)
  }

  /** The bytes of those of the first n chunks that are marked as received. */
  function MarkedBytes(ps: nat, len: nat, received: seq<bool>, n: nat): nat
    requires n <= |received|
  {
    if n == 0 then 0
    else MarkedBytes(ps, len, received, n - 1) + if received[n - 1] then ChunkLen(ps, len, n - 1) else 0
  }

  lemma ChunkCountBounds(ps: nat, len: nat)
    requires ps > 0 && len > 0
    ensures var n := ChunkCount(len, ps);
      && ChunkStart(ps, n - 1) == FloorTo(len - 1, ps)
      && ChunkStart(ps, n - 1) < len <= ChunkStart(ps, n)
  {
    ChunkOf(len - 1, ps);
  }

  lemma {:induction false} MarkingOne(ps: nat, len: nat, received: seq<bool>, idx: nat, n: nat)
    requires n <= |received| && idx < |received| && !received[idx]
    ensures MarkedBytes(ps, len, received[idx := true], n)
         == MarkedBytes(ps, len, received, n) + if idx < n then ChunkLen(ps, len, idx) else 0
  {
    if n > 0 { MarkingOne(ps, len, received, idx, n - 1); }
  }

  /** The count never passes the bytes of the chunks counted, and reaches them only if all are in. */
  lemma {:induction false} MarkedBounds(ps: nat, len: nat, received: seq<bool>, n: nat)
    requires ps > 0 && n <= |received| && (n > 0 ==> ChunkStart(ps, n - 1) < len)
    ensures MarkedBytes(ps, len, received, n) <= Min(ChunkStart(ps, n), len)
    ensures MarkedBytes(ps, len, received, n) == Min(ChunkStart(ps, n), len) ==> forall i: nat :: i < n ==> received[i]
  {
    if n > 0 {
      MarkedBounds(ps, len, received, n - 1);
    }
  }

  /** While the last chunk is missing the count is a whole number of packets. */
  lemma {:induction false} MarkedAligned(ps: nat, len: nat, received: seq<bool>, n: nat)
    requires ps > 0 && n <= |received|
    requires ChunkStart(ps, n) <= len || (n > 0 && ChunkStart(ps, n - 1) <= len && !received[n - 1])
    ensures Multiple(MarkedBytes(ps, len, received, n), ps)
  {
    if n > 0 {
      MarkedAligned(ps, len, received, n - 1);
    }
  }

  lemma {:induction false} NothingMarked(ps: nat, len: nat, received: seq<bool>, n: nat)
    requires n <= |received| && forall i: nat :: i < n ==> !received[i]
    ensures MarkedBytes(ps, len, received, n) == 0
  {
    if n > 0 { NothingMarked(ps, len, received, n - 1); }
  }

  lemma OnlyChunk(ps: nat, len: nat, received: seq<bool>)
    requires 0 < len <= ps && |received| == ChunkCount(len, ps) && received[|received| - 1]
    ensures MarkedBytes(ps, len, received, |received|) == len
  {
    ChunkCountBounds(ps, len);
    ChunkStartGap(ps, 0, |received| - 1);
    assert |received| == 1;
    assert MarkedBytes(ps, len, received, 0) == 0;
  }

  /** The i-th chunk is in the buffer, and was on the network. */
  ghost predicate ChunkIn(ps: nat, net: Net, f: Flow, data: seq<Byte>, buf: seq<Byte>, i: nat)
    requires |buf| == |data|
  {
    var c := ChunkStart(ps, i);
    && c < |data|
    && ChunkWire(ps, f, data, c) in net
    && buf[c..Min(c + ps, |data|)] == data[c..Min(c + ps, |data|)]
  }

  /** Length, buffer and bitmap have the sizes of the data. */
  ghost predicate SizesOk(ps: nat, data: seq<Byte>, m: InMsg)
    requires ps > 0
  {
    && m.totalLen == |data|
    && 0 < |data| < TWO32
    && |m.buf| == |data|
    && |m.received| == ChunkCount(|data|, ps)
  }

  /** Bitmap, count and buffer agree with the data. */
  ghost predicate BytesOk(ps: nat, net: Net, f: Flow, data: seq<Byte>, m: InMsg)
    requires ps > 0
  {
    && SizesOk(ps, data, m)
    && (forall i: nat :: i < |m.received| && m.received[i] ==> ChunkIn(ps, net, f, data, m.buf, i))
    && m.receivedBytes == MarkedBytes(ps, |data|, m.received, |m.received|)
  }

  /** The credit is within the message, within an increment of what arrived, and ends where a resend
      request may end. */
  ghost predicate CreditOk(cfg: Config, net: Net, f: Flow, data: seq<Byte>, m: InMsg) {
    && m.grantedTo <= |data|
    && m.grantedTo <= Max(cfg.unscheduledBytes, m.receivedBytes + cfg.grantIncrement)
    && SafeEnd(cfg, net, f, data, m.grantedTo)
  }

  ghost predicate InOk(cfg: Config, net: Net, f: Flow, data: seq<Byte>, m: InMsg) {
    && BytesOk(cfg.packetSize, net, f, data, m)
    && CreditOk(cfg, net, f, data, m)
    && !m.Complete()
  }

  lemma InOkMonotone(cfg: Config, net: Net, net': Net, f: Flow, data: seq<Byte>, m: InMsg)
    requires InOk(cfg, net, f, data, m) && net <= net'
    ensures InOk(cfg, net', f, data, m)
  {
    forall i: nat | i < |m.received| && m.received[i]
      ensures ChunkIn(cfg.packetSize, net', f, data, m.buf, i)
    {
      assert ChunkIn(cfg.packetSize, net, f, data, m.buf, i);
    }
  }

  lemma NewMsgOk(cfg: Config, net: Net, f: Flow, data: seq<Byte>, now: Time)
    requires 0 < |data| < TWO32
    ensures var m := NewMsg(cfg, |data|, now);
      BytesOk(cfg.packetSize, net, f, data, m) && CreditOk(cfg, net, f, data, m)
  {
    var m := NewMsg(cfg, |data|, now);
    NothingMarked(cfg.packetSize, |data|, m.received, |m.received|);
  }

  /** Taking in a chunk keeps the record right, marks the chunk, and never runs off the buffer. */
  lemma StoreBytesOk(cfg: Config, net: Net, f: Flow, data: seq<Byte>, m: InMsg, c: nat, d: Datagram, now: Time)
    requires BytesOk(cfg.packetSize, net, f, data, m) && f.id < TWO64
    requires Multiple(c, cfg.packetSize) && c < |data| && d == ChunkDatagram(cfg.packetSize, data, f.id, c)
    requires ChunkWire(cfg.packetSize, f, data, c) in net
    ensures Fits(cfg, m, d) && Quot(c, cfg.packetSize) < |m.received|
    ensures var m' := Store(cfg, m, d, now);
      && BytesOk(cfg.packetSize, net, f, data, m')
      && m'.grantedTo == m.grantedTo && m'.receivedBytes >= m.receivedBytes
      && (forall i: nat :: i < |m.received| && m.received[i] ==> m'.received[i])
      && m'.received[Quot(c, cfg.packetSize)]
  {
    var ps, idx := cfg.packetSize, Quot(c, cfg.packetSize);
    ChunkWireFields(ps, f, data, c);
    ChunkOf(c, ps);
    ChunkCountBounds(ps, |data|);
    ChunkStartGap(ps, |m.received| - 1, idx);
    if !m.received[idx] {
      StoreFills(cfg, net, f, data, m, ChunkWire(ps, f, data, c), idx, now);
      MarkedOk(ps, net, f, data, m, Store(cfg, m, d, now), idx, c);
    }
  }

  lemma StoreOk(cfg: Config, net: Net, f: Flow, data: seq<Byte>, m: InMsg, x: Wire, now: Time)
    requires BytesOk(cfg.packetSize, net, f, data, m) && CreditOk(cfg, net, f, data, m) && f.id < TWO64
    requires x in net && DataOk(cfg, f, data, x)
    ensures Fits(cfg, m, x.dgram)
    ensures var m' := Store(cfg, m, x.dgram, now);
      BytesOk(cfg.packetSize, net, f, data, m') && CreditOk(cfg, net, f, data, m')
  {
    hide Store, Fits, BytesOk, SafeEnd;
    assert |data| > 0 by { NonEmpty(cfg, net, f, data, m); }
    StoreBytesOk(cfg, net, f, data, m, x.dgram.pkt.offset, x.dgram, now);
  }

  lemma NonEmpty(cfg: Config, net: Net, f: Flow, data: seq<Byte>, m: InMsg)
    requires BytesOk(cfg.packetSize, net, f, data, m)
    ensures |data| > 0
  {
  }

  /** What a chunk not seen before does to the record. */
  lemma StoreFills(cfg: Config, net: Net, f: Flow, data: seq<Byte>, m: InMsg, x: Wire, idx: nat, now: Time)
    requires BytesOk(cfg.packetSize, net, f, data, m) && f.id < TWO64
    requires idx < |m.received| && !m.received[idx]
    requires var c := ChunkStart(cfg.packetSize, idx); c < |data| && x == ChunkWire(cfg.packetSize, f, data, c)
    ensures Fills(cfg, m, x.dgram) && Fits(cfg, m, x.dgram)
    ensures var m', c := Store(cfg, m, x.dgram, now), ChunkStart(cfg.packetSize, idx);
      && m'.totalLen == m.totalLen && m'.grantedTo == m.grantedTo
      && m'.received == m.received[idx := true]
      && m'.buf == Overwrite(m.buf, c, data[c..Min(c + cfg.packetSize, |data|)])
      && m'.receivedBytes == m.receivedBytes + ChunkLen(cfg.packetSize, |data|, idx)
  {
    ChunkWireFields(cfg.packetSize, f, data, ChunkStart(cfg.packetSize, idx));
    ChunkStartDivides(cfg.packetSize, idx);
    hide ChunkWire, ChunkIn, ChunkCount;
  }

  /** Writing, marking and counting one more chunk keeps bitmap, count and buffer in step. */
  lemma MarkedOk(ps: nat, net: Net, f: Flow, data: seq<Byte>, m: InMsg, m': InMsg, idx: nat, c: nat)
    requires ps > 0 && BytesOk(ps, net, f, data, m) && idx < |m.received| && !m.received[idx]
    requires c == ChunkStart(ps, idx) < |data| && ChunkWire(ps, f, data, c) in net
    requires m'.totalLen == m.totalLen && m'.received == m.received[idx := true]
    requires m'.buf == Overwrite(m.buf, c, data[c..Min(c + ps, |data|)])
    requires m'.receivedBytes == m.receivedBytes + ChunkLen(ps, |data|, idx)
    ensures BytesOk(ps, net, f, data, m')
  {
    hide ChunkWire, ChunkIn, ChunkCount, ChunkLen, Overwrite;
    MarkingOne(ps, |data|, m.received, idx, |m.received|);
    forall i: nat | i < |m'.received| && m'.received[i] ensures ChunkIn(ps, net, f, data, m'.buf, i) {
      OverwriteKeeps(ps, net, f, data, m.buf, idx, i);
    }
  }

  /** Writing one chunk puts it in and leaves the others. */
  lemma OverwriteKeeps(ps: nat, net: Net, f: Flow, data: seq<Byte>, buf: seq<Byte>, idx: nat, i: nat)
    requires |buf| == |data|
    requires var c := ChunkStart(ps, idx); c < |data| && ChunkWire(ps, f, data, c) in net
    requires i == idx || ChunkIn(ps, net, f, data, buf, i)
    ensures var c := ChunkStart(ps, idx);
      ChunkIn(ps, net, f, data, Overwrite(buf, c, data[c..Min(c + ps, |data|)]), i)
  {
    hide ChunkWire;
    if i != idx {
      ChunkStartGap(ps, i, idx);
      ChunkStartGap(ps, idx, i);
    }
  }

  lemma ByteIn(ps: nat, net: Net, f: Flow, data: seq<Byte>, buf: seq<Byte>, j: nat)
    requires ps > 0 && j < |data| == |buf| && ChunkIn(ps, net, f, data, buf, Quot(j, ps))
    ensures buf[j] == data[j]
  {
    ChunkOf(j, ps);
    var c := ChunkStart(ps, Quot(j, ps));
    var e := Min(c + ps, |data|);
    assert buf[c..e][j - c] == data[c..e][j - c];
  }

  /** A complete record holds exactly the sender's bytes. */
  lemma CompleteIsData(ps: nat, net: Net, f: Flow, data: seq<Byte>, m: InMsg)
    requires ps > 0 && BytesOk(ps, net, f, data, m) && m.Complete()
    ensures m.buf == data
  {
    ChunkCountBounds(ps, |data|);
    MarkedBounds(ps, |data|, m.received, |m.received|);
    forall j: nat | j < |data| ensures m.buf[j] == data[j] {
      ChunkOf(j, ps);
      ChunkStartGap(ps, |m.received|, Quot(j, ps));
      assert Quot(j, ps) < |m.received|;
      ByteIn(ps, net, f, data, m.buf, j);
    }
  }

  /** The credit target is a safe place for credit to end. */
  lemma TargetSafe(cfg: Config, net: Net, f: Flow, data: seq<Byte>, m: InMsg)
    requires Aligned(cfg) && InOk(cfg, net, f, data, m)
    ensures Target(cfg, m) <= |data| && SafeEnd(cfg, net, f, data, Target(cfg, m))
  {
    var ps, n := cfg.packetSize, |m.received|;
    ChunkCountBounds(ps, |data|);
    if m.received[n - 1] {
      assert ChunkIn(ps, net, f, data, m.buf, n - 1);
      if |data| <= ps { OnlyChunk(ps, |data|, m.received); }
    } else {
      MarkedAligned(ps, |data|, m.received, n);
      SumOfMultiples(m.receivedBytes, cfg.grantIncrement, ps);
    }
  }

  /** Credit that is backed ends where credit may end. */
  lemma BackedOk(cfg: Config, net: Net, f: Flow, data: seq<Byte>, m: InMsg, acts: seq<Action>, credit: nat)
    requires Aligned(cfg) && InOk(cfg, net, f, data, m) && Backed(cfg, acts, Key(f.src, f.id), m, credit)
    ensures SafeEnd(cfg, net, f, data, credit) && credit <= |data|
  {
    TargetSafe(cfg, net, f, data, m);
  }

  /** Extending the credit keeps the record right. */
  lemma RegrantedOk(cfg: Config, net: Net, f: Flow, data: seq<Byte>, m: InMsg, acts: seq<Action>, m': InMsg)
    requires Aligned(cfg) && InOk(cfg, net, f, data, m) && Regranted(cfg, acts, Key(f.src, f.id), m, m')
    ensures InOk(cfg, net, f, data, m')
  {
    BackedOk(cfg, net, f, data, m, acts, m'.grantedTo);
  }

  /** Everything before the first gap has been on the network. */
  lemma GapAllSent(ps: nat, net: Net, f: Flow, data: seq<Byte>, m: InMsg, gap: nat)
    requires ps > 0 && BytesOk(ps, net, f, data, m) && FirstMissing(m.received, 0) == Some(gap)
    ensures var off := ChunkStart(ps, gap); off < |data| && Multiple(off, ps) && AllSent(ps, net, f, data, off)
  {
    hide ChunkWire, MarkedBytes, Multiple;
    ChunkStartDivides(ps, gap);
    ChunkCountBounds(ps, |data|);
    ChunkStartGap(ps, gap, |m.received| - 1);
    forall c: nat | c < ChunkStart(ps, gap) && c < |data| && Multiple(c, ps) ensures ChunkWire(ps, f, data, c) in net {
      BeforeGap(ps, gap, c);
      assert ChunkIn(ps, net, f, data, m.buf, Quot(c, ps));
    }
  }

  lemma BeforeGap(ps: nat, gap: nat, c: nat)
    requires ps > 0 && c < ChunkStart(ps, gap) && Multiple(c, ps)
    ensures Quot(c, ps) < gap && ChunkStart(ps, Quot(c, ps)) == c
  {
    ChunkOf(c, ps);
    ChunkStartGap(ps, gap, Quot(c, ps));
  }

  /** A resend request asks for a range the sender can answer without leaving chunk boundaries. */
  lemma IsResendOk(cfg: Config, net: Net, f: Flow, data: seq<Byte>, m: InMsg, acts: seq<Action>, pkt: Packet)
    requires Aligned(cfg) && InOk(cfg, net, f, data, m) && IsResend(cfg, acts, Key(f.src, f.id), m, pkt)
    ensures ResendOk(cfg, net, f, data, pkt)
  {
    hide CreditOk, AllSent, SafeEnd, Backed;
    var gap := FirstMissing(m.received, 0).value;
    var off := ChunkStart(cfg.packetSize, gap);
    var credit: nat :| Backed(cfg, acts, Key(f.src, f.id), m, credit) && ResendWithin(cfg, off, credit, pkt.length);
    BackedOk(cfg, net, f, data, m, acts, credit);
    GapAllSent(cfg.packetSize, net, f, data, m, gap);
    RangeOk(cfg, net, f, data, off, credit);
    assert pkt.offset == off && pkt.length == Min(credit - off, cfg.grantIncrement);
  }

  lemma RangeOk(cfg: Config, net: Net, f: Flow, data: seq<Byte>, off: nat, credit: nat)
    requires Aligned(cfg) && off < credit <= |data| && Multiple(off, cfg.packetSize)
    requires SafeEnd(cfg, net, f, data, credit)
    ensures var end := off + Min(credit - off, cfg.grantIncrement); end <= |data| && SafeEnd(cfg, net, f, data, end)
  {
    SumOfMultiples(off, cfg.grantIncrement, cfg.packetSize);
  }
}
