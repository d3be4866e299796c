/** One message between two hosts, seen from all three places at once: the sender's record of it,
    the datagrams about it that were ever put on the network, and the receiver's record of it. */
module HomaFlow {
  import opened Bytes
  import opened Chunks
  import opened HomaPacket
  import opened HomaTypes
  import opened HomaSender
  import R = HomaReceiver

  /** A message: who sends it, to whom, under which id. */
  datatype Flow = Flow(src: Addr, dst: Addr, id: nat)

  /** A datagram on the network. */
  datatype Wire = Wire(src: Addr, dst: Addr, dgram: Datagram)

  type Net = set<Wire>

  /** The one condition on the configuration: credit grows by whole packets. */
  ghost predicate Aligned(cfg: Config) {
    Multiple(cfg.grantIncrement, cfg.packetSize)
  }

  /** c is where a chunk of data starts (an empty message has one, empty, chunk). */
  ghost predicate ChunkAt(ps: nat, data: seq<Byte>, c: nat)
    requires ps > 0
  {
    Multiple(c, ps) && (c < |data| || (c == 0 && data == []))
  }

  function ChunkDatagram(ps: nat, data: seq<Byte>, id: nat, c: nat): Datagram
    requires c <= |data|
  {
    DataDatagram(data, id, c, Min(c + ps, |data|))
  }

  function ChunkWire(ps: nat, f: Flow, data: seq<Byte>, c: nat): Wire
    requires c <= |data|
  {
    Wire(f.src, f.dst, ChunkDatagram(ps, data, f.id, c))
  }

  /** Every chunk that starts before upTo has been put on the network. */
  ghost predicate AllSent(ps: nat, net: Net, f: Flow, data: seq<Byte>, upTo: nat)
    requires ps > 0
  {
    forall c: nat :: c < upTo && c < |data| && Multiple(c, ps) ==> ChunkWire(ps, f, data, c) in net
  }

  /** The message has several chunks and its last one has been put on the network. */
  ghost predicate LastSent(ps: nat, net: Net, f: Flow, data: seq<Byte>)
    requires ps > 0
  {
    |data| > ps && ChunkWire(ps, f, data, FloorTo(|data| - 1, ps)) in net
  }

  /** An offset credit may end at: on a chunk boundary, at the end, in the unscheduled window, or
      anywhere once the last chunk is out. */
  ghost predicate SafeEnd(cfg: Config, net: Net, f: Flow, data: seq<Byte>, e: nat) {
    || Multiple(e, cfg.packetSize)
    || e == |data|
    || e <= cfg.unscheduledBytes
    || LastSent(cfg.packetSize, net, f, data)
  }

  /** Octets before x lie in the unscheduled window or under a grant the receiver sent. */
  ghost predicate Credited(cfg: Config, net: Net, f: Flow, x: nat) {
    x <= cfg.unscheduledBytes || exists g :: g in net && GrantsUpTo(f, g, x)
  }

  ghost predicate GrantsUpTo(f: Flow, g: Wire, x: nat) {
    && g.src == f.dst && g.dst == f.src
    && g.dgram.pkt.typ == Grant && g.dgram.pkt.msgId == f.id && g.dgram.pkt.offset >= x
  }

  // ----- the network -----

  ghost predicate DataOk(cfg: Config, f: Flow, data: seq<Byte>, x: Wire) {
    var c := x.dgram.pkt.offset;
    ChunkAt(cfg.packetSize, data, c) && x == ChunkWire(cfg.packetSize, f, data, c)
  }

  ghost predicate ResendOk(cfg: Config, net: Net, f: Flow, data: seq<Byte>, pkt: Packet) {
    && Multiple(pkt.offset, cfg.packetSize)
    && pkt.offset < |data|
    && AllSent(cfg.packetSize, net, f, data, pkt.offset)
    && pkt.offset + pkt.length <= |data|
    && SafeEnd(cfg, net, f, data, pkt.offset + pkt.length)
  }

  // ----- the sender -----

  ghost predicate OutOk(cfg: Config, net: Net, f: Flow, data: seq<Byte>, m: OutMsg) {
    && m.data == data
    && (Multiple(m.nextSend, cfg.packetSize) || m.nextSend == |data|)
    && Min(cfg.unscheduledBytes, |data|) <= m.nextSend
    && AllSent(cfg.packetSize, net, f, data, m.nextSend)
    && (LastSent(cfg.packetSize, net, f, data) ==> m.nextSend == |data|)
    && (m.doneAt.Some? ==> m.nextSend == |data|)
  }

  /** Datagrams that are not the last chunk of f leave f's sender record consistent. */
  lemma OutOkFrame(cfg: Config, net: Net, net': Net, f: Flow, data: seq<Byte>, m: OutMsg)
    requires OutOk(cfg, net, f, data, m) && net <= net'
    requires LastSent(cfg.packetSize, net', f, data) ==> LastSent(cfg.packetSize, net, f, data)
    ensures OutOk(cfg, net', f, data, m)
  {
  }

  lemma CreditedMonotone(cfg: Config, net: Net, net': Net, f: Flow, x: nat, y: nat)
    requires Credited(cfg, net, f, x) && net <= net' && y <= x
    ensures Credited(cfg, net', f, y)
  {
    if y > cfg.unscheduledBytes {
      var g :| g in net && GrantsUpTo(f, g, x);
      assert GrantsUpTo(f, g, y);
    }
  }

  lemma AllSentMonotone(ps: nat, net: Net, net': Net, f: Flow, data: seq<Byte>, upTo: nat)
    requires ps > 0 && AllSent(ps, net, f, data, upTo) && net <= net'
    ensures AllSent(ps, net', f, data, upTo)
  {
  }

  lemma ResendOkMonotone(cfg: Config, net: Net, net': Net, f: Flow, data: seq<Byte>, pkt: Packet)
    requires ResendOk(cfg, net, f, data, pkt) && net <= net'
    ensures ResendOk(cfg, net', f, data, pkt)
  {
  }

  // ----- what the sender's loops put out -----

  function ChunkAct(ps: nat, key: Key, data: seq<Byte>, c: nat): Action
    requires c <= |data|
  {
    Send(key.peer, ChunkDatagram(ps, data, key.id, c))
  }

  /** The chunk at c overlaps [lo, hi). */
  ghost predicate Overlaps(ps: nat, data: seq<Byte>, lo: nat, hi: nat, c: nat)
    requires ps > 0
  {
    Multiple(c, ps) && lo < hi && lo < c + ps && c < hi && c < |data|
  }

  ghost predicate IsChunkIn(ps: nat, key: Key, data: seq<Byte>, lo: nat, hi: nat, a: Action, c: nat)
    requires ps > 0
  {
    Overlaps(ps, data, lo, hi, c) && a == ChunkAct(ps, key, data, c)
  }

  /** The actions are the chunks that overlap [lo, hi): all of them, and nothing else. */
  ghost predicate AreChunksIn(ps: nat, key: Key, data: seq<Byte>, lo: nat, hi: nat, acts: seq<Action>)
    requires ps > 0
  {
    && (forall a :: a in acts ==> exists c: nat :: IsChunkIn(ps, key, data, lo, hi, a, c))
    && (forall c: nat :: Overlaps(ps, data, lo, hi, c) ==> ChunkAct(ps, key, data, c) in acts)
  }

  lemma AreChunksCons(ps: nat, key: Key, data: seq<Byte>, lo: nat, hi: nat, rest: seq<Action>)
    requires ps > 0 && lo < hi <= |data|
    requires AreChunksIn(ps, key, data, Min(FloorTo(lo, ps) + ps, |data|), hi, rest)
    ensures AreChunksIn(ps, key, data, lo, hi, [ChunkAct(ps, key, data, FloorTo(lo, ps))] + rest)
  {
    var s := FloorTo(lo, ps);
    var e := Min(s + ps, |data|);
    var acts := [ChunkAct(ps, key, data, s)] + rest;
    assert IsChunkIn(ps, key, data, lo, hi, acts[0], s);
    forall a | a in rest ensures exists c: nat :: IsChunkIn(ps, key, data, lo, hi, a, c) {
      var c: nat :| IsChunkIn(ps, key, data, e, hi, a, c);
      assert IsChunkIn(ps, key, data, lo, hi, a, c);
    }
    forall c: nat | Overlaps(ps, data, lo, hi, c) ensures ChunkAct(ps, key, data, c) in acts {
      if c != s {
        MultipleGap(s, c, ps);
        MultipleGap(c, s, ps);
        assert Overlaps(ps, data, e, hi, c);
      }
    }
  }

  lemma {:induction false} ResendSendsChunks(ps: nat, key: Key, data: seq<Byte>, off: nat, end: nat)
    requires ps > 0 && end <= |data|
    ensures AreChunksIn(ps, key, data, off, end, ResendSends(key, data, off, end, ps))
    decreases end - off
  {
    if off < end {
      var e := ChunkRange(data, off, ps).1;
      ResendSendsChunks(ps, key, data, e, end);
      AreChunksCons(ps, key, data, off, end, ResendSends(key, data, e, end, ps));
    }
  }

  lemma {:induction false} PumpSendsChunks(ps: nat, key: Key, data: seq<Byte>, next: nat, limit: nat)
    requires ps > 0 && limit <= |data|
    requires Multiple(next, ps) || next == |data|
    ensures AreChunksIn(ps, key, data, next, limit, PumpSends(key, data, next, limit, ps))
    decreases limit - next
  {
    if next < limit {
      hide AreChunksIn, DataDatagram;
      var e := Min(next + ps, |data|);
      assert FloorTo(next, ps) == next;
      PumpSendsChunks(ps, key, data, e, limit);
      AreChunksCons(ps, key, data, next, limit, PumpSends(key, data, e, limit, ps));
    }
  }

  /** Pumping stops on a chunk boundary or at the end, having passed no chunk from limit on. */
  lemma {:induction false} PumpEndAligned(ps: nat, len: nat, next: nat, limit: nat, c: nat)
    requires ps > 0 && limit <= len && next <= len
    requires Multiple(next, ps) || next == len
    ensures var e := PumpEnd(next, limit, ps, len);
      && (Multiple(e, ps) || e == len)
      && (Multiple(c, ps) && c < e ==> c < limit || c < next)
    decreases limit - next
  {
    if next < limit {
      PumpEndAligned(ps, len, Min(next + ps, len), limit, c);
      if Multiple(c, ps) { MultipleGap(next, c, ps); }
    }
  }

  // ----- the sender's steps -----

  function Emitted(h: Addr, acts: seq<Action>): Net {
    set a | a in acts && a.Send? :: Wire(h, a.dest, a.dgram)
  }

  /** The last chunk is the only one that ends the message: an offset past its start that is on a
      chunk boundary is past its end. */
  lemma PastLast(ps: nat, len: nat, e: nat)
    requires ps > 0 && len > 0 && FloorTo(len - 1, ps) < e <= len
    requires Multiple(e, ps) || e == len
    ensures e == len
  {
    if Multiple(e, ps) { MultipleGap(FloorTo(len - 1, ps), e, ps); }
  }

  /** OutOk but for the unscheduled window, which a message not yet started has not sent. */
  ghost predicate OutCore(cfg: Config, net: Net, f: Flow, data: seq<Byte>, m: OutMsg) {
    && m.data == data
    && (Multiple(m.nextSend, cfg.packetSize) || m.nextSend == |data|)
    && AllSent(cfg.packetSize, net, f, data, m.nextSend)
    && (LastSent(cfg.packetSize, net, f, data) ==> m.nextSend == |data|)
    && (m.doneAt.Some? ==> m.nextSend == |data|)
  }

  lemma ChunkFields(ps: nat, data: seq<Byte>, id: nat, c: nat)
    requires c <= |data| < TWO32 && id < TWO64
    ensures var d := ChunkDatagram(ps, data, id, c);
      && Representable(d)
      && d.pkt.typ == Data && d.pkt.msgId == id && d.pkt.msgLen == |data| && d.pkt.offset == c
      && d.payload == data[c..Min(c + ps, |data|)]
  {
  }

  lemma ChunkWireFields(ps: nat, f: Flow, data: seq<Byte>, c: nat)
    requires c <= |data| < TWO32 && f.id < TWO64
    ensures var x := ChunkWire(ps, f, data, c);
      && x.src == f.src && x.dst == f.dst
      && Representable(x.dgram)
      && x.dgram.pkt.typ == Data && x.dgram.pkt.msgId == f.id
      && x.dgram.pkt.msgLen == |data| && x.dgram.pkt.offset == c
      && x.dgram.payload == data[c..Min(c + ps, |data|)]
  {
    ChunkFields(ps, data, f.id, c);
  }

  /** Chunks overlapping a range are good datagrams to send. */
  lemma ChunksOk(cfg: Config, f: Flow, data: seq<Byte>, lo: nat, hi: nat, acts: seq<Action>, x: Wire)
    requires |data| < TWO32 && f.id < TWO64
    requires AreChunksIn(cfg.packetSize, Key(f.dst, f.id), data, lo, hi, acts)
    requires x in Emitted(f.src, acts)
    ensures Representable(x.dgram) && x.dgram.pkt.typ == Data && x.dgram.pkt.msgId == f.id
    ensures x.src == f.src && x.dst == f.dst
    ensures DataOk(cfg, f, data, x) && Overlaps(cfg.packetSize, data, lo, hi, x.dgram.pkt.offset)
  {
    var a :| a in acts && a.Send? && x == Wire(f.src, a.dest, a.dgram);
    var c: nat :| IsChunkIn(cfg.packetSize, Key(f.dst, f.id), data, lo, hi, a, c);
    ChunkFields(cfg.packetSize, data, f.id, c);
    assert x == ChunkWire(cfg.packetSize, f, data, c);
  }

  /** Sending the chunks overlapping [lo, hi) and no others. */
  lemma SentChunks(cfg: Config, net: Net, f: Flow, data: seq<Byte>, lo: nat, hi: nat, acts: seq<Action>)
    requires |data| < TWO32 && f.id < TWO64
    requires AreChunksIn(cfg.packetSize, Key(f.dst, f.id), data, lo, hi, acts)
    ensures var net' := net + Emitted(f.src, acts);
      && (AllSent(cfg.packetSize, net, f, data, lo) ==> AllSent(cfg.packetSize, net', f, data, hi))
      && (LastSent(cfg.packetSize, net', f, data) ==>
            LastSent(cfg.packetSize, net, f, data) || FloorTo(|data| - 1, cfg.packetSize) < hi)
  {
    var ps := cfg.packetSize;
    var net' := net + Emitted(f.src, acts);
    if AllSent(ps, net, f, data, lo) {
      forall c: nat | c < hi && c < |data| && Multiple(c, ps) ensures ChunkWire(ps, f, data, c) in net' {
        if c >= lo {
          assert Overlaps(ps, data, lo, hi, c);
          assert ChunkAct(ps, Key(f.dst, f.id), data, c) in acts;
        }
      }
    }
    if LastSent(ps, net', f, data) && !LastSent(ps, net, f, data) {
      ChunksOk(cfg, f, data, lo, hi, acts, ChunkWire(ps, f, data, FloorTo(|data| - 1, ps)));
    }
  }

  /** What is out once pumping has stopped. */
  lemma PumpedAllSent(ps: nat, net: Net, f: Flow, data: seq<Byte>, from: nat, limit: nat)
    requires ps > 0 && limit <= |data| && from <= |data| && (Multiple(from, ps) || from == |data|)
    requires AllSent(ps, net, f, data, from) && AllSent(ps, net, f, data, limit)
    ensures AllSent(ps, net, f, data, PumpEnd(from, limit, ps, |data|))
  {
    var next := PumpEnd(from, limit, ps, |data|);
    forall c: nat | c < next && c < |data| && Multiple(c, ps) ensures ChunkWire(ps, f, data, c) in net {
      PumpEndAligned(ps, |data|, from, limit, c);
    }
  }

  /** Sending [from, limit): how far it gets and what is out then. */
  lemma PumpingOk(cfg: Config, net: Net, f: Flow, data: seq<Byte>, from: nat, limit: nat)
    requires |data| < TWO32 && f.id < TWO64 && limit <= |data| && from <= |data|
    requires Multiple(from, cfg.packetSize) || from == |data|
    requires AllSent(cfg.packetSize, net, f, data, from)
    requires LastSent(cfg.packetSize, net, f, data) ==> from == |data|
    ensures var net' := net + Emitted(f.src, PumpSends(Key(f.dst, f.id), data, from, limit, cfg.packetSize));
      var next := PumpEnd(from, limit, cfg.packetSize, |data|);
      && (Multiple(next, cfg.packetSize) || next == |data|)
      && AllSent(cfg.packetSize, net', f, data, next)
      && (LastSent(cfg.packetSize, net', f, data) ==> next == |data|)
  {
    hide AreChunksIn, AllSent, LastSent, Emitted, Multiple, PumpSends, PumpEnd;
    var ps, acts := cfg.packetSize, PumpSends(Key(f.dst, f.id), data, from, limit, cfg.packetSize);
    var net' := net + Emitted(f.src, acts);
    PumpSendsChunks(ps, Key(f.dst, f.id), data, from, limit);
    SentChunks(cfg, net, f, data, from, limit, acts);
    PumpEndAligned(ps, |data|, from, limit, 0);
    AllSentMonotone(ps, net, net', f, data, from);
    PumpedAllSent(ps, net', f, data, from, limit);
    if LastSent(ps, net', f, data) && !LastSent(ps, net, f, data) {
      PastLast(ps, |data|, PumpEnd(from, limit, ps, |data|));
    }
  }

  lemma PumpedOk(cfg: Config, net: Net, f: Flow, data: seq<Byte>, m: OutMsg, upTo: nat, now: Time)
    requires |data| < TWO32 && f.id < TWO64
    requires OutCore(cfg, net, f, data, m)
    ensures var net' := net + Emitted(f.src, PumpedSends(cfg, Key(f.dst, f.id), m, upTo));
      OutCore(cfg, net', f, data, Pumped(cfg, m, upTo, now))
    ensures var next := Pumped(cfg, m, upTo, now).nextSend; m.nextSend <= next && Min(upTo, |data|) <= next
  {
    assert net + Emitted(f.src, []) == net;
    hide AllSent, LastSent, Emitted, Multiple, PumpSends, PumpEnd;
    if m.doneAt.None? {
      PumpingOk(cfg, net, f, data, m.nextSend, Min(upTo, |data|));
    }
  }

  /** Answering moves the send position, if at all, to a place chunks can be sent from. */
  lemma AnsweredNext(cfg: Config, net: Net, f: Flow, data: seq<Byte>, m: OutMsg, pkt: Packet, now: Time)
    requires OutOk(cfg, net, f, data, m) && ResendOk(cfg, net, f, data, pkt)
    ensures var m' := Answered(m, pkt, now);
      && m'.data == data
      && m'.nextSend == Max(m.nextSend, pkt.offset + pkt.length)
      && (Multiple(m'.nextSend, cfg.packetSize) || m'.nextSend == |data|)
      && (m'.doneAt.Some? ==> m'.nextSend == |data|)
  {
    assert ResendEnd(|m.data|, pkt) == pkt.offset + pkt.length;
  }

  lemma AnswerSendsChunks(cfg: Config, net: Net, f: Flow, data: seq<Byte>, m: OutMsg, pkt: Packet)
    requires m.data == data && ResendOk(cfg, net, f, data, pkt)
    ensures AreChunksIn(cfg.packetSize, Key(f.dst, f.id), data, pkt.offset, pkt.offset + pkt.length,
                        AnswerSends(cfg, Key(f.dst, f.id), m, pkt))
  {
    ResendSendsChunks(cfg.packetSize, Key(f.dst, f.id), data, pkt.offset, pkt.offset + pkt.length);
  }

  lemma AnsweredOk(cfg: Config, net: Net, f: Flow, data: seq<Byte>, m: OutMsg, pkt: Packet, now: Time)
    requires |data| < TWO32 && f.id < TWO64
    requires OutOk(cfg, net, f, data, m) && ResendOk(cfg, net, f, data, pkt)
    ensures var net' := net + Emitted(f.src, AnswerSends(cfg, Key(f.dst, f.id), m, pkt));
      OutOk(cfg, net', f, data, Answered(m, pkt, now))
  {
    hide Answered, AnswerSends, AreChunksIn, AllSent, LastSent, SafeEnd, Emitted, Multiple;
    var ps, end := cfg.packetSize, pkt.offset + pkt.length;
    var acts := AnswerSends(cfg, Key(f.dst, f.id), m, pkt);
    var net' := net + Emitted(f.src, acts);
    AnswerSendsChunks(cfg, net, f, data, m, pkt);
    SentChunks(cfg, net, f, data, pkt.offset, end, acts);
    AnsweredNext(cfg, net, f, data, m, pkt, now);
    AllSentMonotone(ps, net, net', f, data, m.nextSend);
    if LastSent(ps, net', f, data) && !LastSent(ps, net, f, data) {
      PastLast(ps, |data|, Answered(m, pkt, now).nextSend);
    }
  }
}
