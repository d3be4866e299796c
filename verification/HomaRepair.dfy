/** A resend request that is answered repairs the whole range it asks for. */
module HomaRepair {
  import opened Bytes
  import opened Chunks
  import opened HomaPacket
  import opened HomaTypes
  import S = HomaSender
  import opened HomaReceiver
  import opened HomaCredit
  import opened HomaFlow
  import opened HomaReassembly
  import opened HomaLedger

  /** A datagram arriving, with the map order and the time it arrives at. */
  datatype Feed = Feed(d: Datagram, order: seq<Key>, now: Time)

  /** Handling the datagrams from position i on, all from src. (A datagram that would overrun the
      buffer stops the program; FedMarks shows that none does.) */
  function FeedFrom(cfg: Config, s: ReceiverState, src: Addr, feeds: seq<Feed>, i: nat): (ReceiverState, seq<Action>)
    decreases |feeds| - i
  {
    if i >= |feeds| || !Admissible(cfg, s, src, feeds[i].d, feeds[i].now) then (s, [])
    else
      var (s', acts) := HandleData(cfg, s, src, feeds[i].d, feeds[i].order, feeds[i].now);
      var (s'', rest) := FeedFrom(cfg, s', src, feeds, i + 1);
      (s'', acts + rest)
  }

  /** d is a chunk of f's data. */
  ghost predicate IsChunk(ps: nat, f: Flow, data: seq<Byte>, d: Datagram)
    requires ps > 0
  {
    var c := d.pkt.offset;
    Multiple(c, ps) && c < |data| && d == ChunkDatagram(ps, data, f.id, c)
  }

  /** The message is being received, in a record of its size. */
  ghost predicate Receiving(ps: nat, f: Flow, data: seq<Byte>, s: ReceiverState)
    requires ps > 0
  {
    var k := Key(f.src, f.id);
    k !in s.completed && k in s.incoming && SizesOk(ps, data, s.incoming[k])
  }

  /** Chunks marked stay marked. */
  ghost predicate StillMarked(k: Key, s: ReceiverState, s': ReceiverState) {
    k in s.incoming && k in s'.incoming &&
    |s.incoming[k].received| == |s'.incoming[k].received| &&
    forall i: nat :: i < |s.incoming[k].received| && s.incoming[k].received[i] ==> s'.incoming[k].received[i]
  }

  /** The chunk that d carries is marked. */
  ghost predicate IsMarked(ps: nat, k: Key, s: ReceiverState, d: Datagram)
    requires ps > 0
  {
    && k in s.incoming
    && var idx := Quot(d.pkt.offset, ps);
       idx < |s.incoming[k].received| && s.incoming[k].received[idx]
  }

  lemma StillMarkedLater(ps: nat, k: Key, s: ReceiverState, s': ReceiverState, s'': ReceiverState, d: Datagram)
    requires ps > 0 && StillMarked(k, s, s') && StillMarked(k, s', s'')
    ensures StillMarked(k, s, s'')
    ensures IsMarked(ps, k, s', d) ==> IsMarked(ps, k, s'', d)
  {
  }

  lemma EvolvesReceiving(cfg: Config, f: Flow, data: seq<Byte>, s: ReceiverState, s': ReceiverState, acts: seq<Action>)
    requires Receiving(cfg.packetSize, f, data, s) && Evolves(cfg, s, s', acts) && Key(f.src, f.id) in s'.incoming
    ensures Receiving(cfg.packetSize, f, data, s') && StillMarked(Key(f.src, f.id), s, s')
    ensures s'.incoming[Key(f.src, f.id)].received == s.incoming[Key(f.src, f.id)].received
  {
    assert Regranted(cfg, acts, Key(f.src, f.id), s.incoming[Key(f.src, f.id)], s'.incoming[Key(f.src, f.id)]);
  }

  /** Taking in a chunk marks it, and never runs off the buffer. */
  lemma StoreMarks(cfg: Config, f: Flow, data: seq<Byte>, m: InMsg, c: nat, d: Datagram, now: Time)
    requires SizesOk(cfg.packetSize, data, m) && f.id < TWO64
    requires Multiple(c, cfg.packetSize) && c < |data| && d == ChunkDatagram(cfg.packetSize, data, f.id, c)
    ensures Fits(cfg, m, d) && Quot(c, cfg.packetSize) < |m.received|
    ensures var m' := Store(cfg, m, d, now);
      && SizesOk(cfg.packetSize, data, m')
      && (forall i: nat :: i < |m.received| && m.received[i] ==> m'.received[i])
      && m'.received[Quot(c, cfg.packetSize)]
  {
    var ps, idx := cfg.packetSize, Quot(c, cfg.packetSize);
    ChunkFields(ps, data, f.id, c);
    ChunkOf(c, ps);
    ChunkCountBounds(ps, |data|);
    ChunkStartGap(ps, |m.received| - 1, idx);
    hide ChunkDatagram, ChunkCount;
  }

  /** One datagram: the message is handed out, or the datagram's chunk is marked. */
  lemma FedOne(cfg: Config, f: Flow, data: seq<Byte>, s: ReceiverState, d: Datagram, order: seq<Key>, now: Time)
    requires Receiving(cfg.packetSize, f, data, s) && IsChunk(cfg.packetSize, f, data, d)
    requires |data| <= MAX_MSG_LEN && f.id < TWO64
    ensures Admissible(cfg, s, f.src, d, now)
    ensures var (s', acts) := HandleData(cfg, s, f.src, d, order, now);
      || Key(f.src, f.id) in Handed(acts)
      || (&& Receiving(cfg.packetSize, f, data, s') && StillMarked(Key(f.src, f.id), s, s')
          && IsMarked(cfg.packetSize, Key(f.src, f.id), s', d))
  {
    var k, c := Key(f.src, f.id), d.pkt.offset;
    ChunkFields(cfg.packetSize, data, f.id, c);
    StoreMarks(cfg, f, data, s.incoming[k], c, d, now);
    hide Continue, DeliverTo, Schedule, Store, Push, SizesOk, ChunkDatagram;
    var s1 := Accept(cfg, s, k, d, now);
    if Finished(s1, k, d) {
      var rest := Schedule(cfg, DeliverTo(s1, k), order, now).1;
      assert HandleData(cfg, s, f.src, d, order, now).1 == [Deliver(f.src, k.id, s1.incoming[k].buf)] + rest;
      HandedFirst(Deliver(f.src, k.id, s1.incoming[k].buf), rest);
    } else {
      ContinueEvolves(cfg, s1, k, false, order, now);
      var (s2, acts) := Continue(cfg, s1, k, false, order, now);
      EvolvesReceiving(cfg, f, data, s1, s2, acts);
    }
  }

  lemma HandedFirst(a: Action, rest: seq<Action>)
    requires a.Deliver?
    ensures Key(a.src, a.msgId) in Handed([a] + rest)
  {
    assert ([a] + rest)[1..] == rest;
  }

  lemma {:induction false} HandedConcat(a: seq<Action>, b: seq<Action>)
    ensures Handed(a + b) == Handed(a) + Handed(b)
  {
    hide HandedBy;
    if a == [] {
      assert a + b == b && [] + Handed(b) == Handed(b);
    } else {
      HandedConcat(a[1..], b);
      assert (a + b)[1..] == a[1..] + b;
      ConcatAssoc(HandedBy(a[0]), Handed(a[1..]), Handed(b));
    }
  }

  /** Any number of the message's chunks, in any order, with repeats: the message is handed out, or
      every chunk fed is marked. */
  lemma {:induction false} FedMarks(cfg: Config, f: Flow, data: seq<Byte>, s: ReceiverState, feeds: seq<Feed>, i: nat)
    requires Receiving(cfg.packetSize, f, data, s) && |data| <= MAX_MSG_LEN && f.id < TWO64 && i <= |feeds|
    requires forall j :: i <= j < |feeds| ==> IsChunk(cfg.packetSize, f, data, feeds[j].d)
    ensures var (s', acts) := FeedFrom(cfg, s, f.src, feeds, i);
      var k := Key(f.src, f.id);
      || k in Handed(acts)
      || (&& Receiving(cfg.packetSize, f, data, s') && StillMarked(k, s, s')
          && forall j :: i <= j < |feeds| ==> IsMarked(cfg.packetSize, k, s', feeds[j].d))
    decreases |feeds| - i
  {
    hide HandleData, Admissible, IsChunk, SizesOk;
    if i < |feeds| {
      FedOne(cfg, f, data, s, feeds[i].d, feeds[i].order, feeds[i].now);
      hide IsMarked, StillMarked, Receiving;
      var k := Key(f.src, f.id);
      var (s', acts) := HandleData(cfg, s, f.src, feeds[i].d, feeds[i].order, feeds[i].now);
      var (s'', rest) := FeedFrom(cfg, s', f.src, feeds, i + 1);
      HandedConcat(acts, rest);
      if k !in Handed(acts) {
        FedMarks(cfg, f, data, s', feeds, i + 1);
        if k !in Handed(rest) {
          StillMarkedLater(cfg.packetSize, k, s, s', s'', feeds[i].d);
        }
      }
    }
  }

  /** The datagrams fed are those of the wires, all of them, each any number of times. */
  ghost predicate Carries(feeds: seq<Feed>, f: Flow, wires: Net) {
    && (forall x :: x in wires ==> exists j :: 0 <= j < |feeds| && feeds[j].d == x.dgram)
    && (forall j :: 0 <= j < |feeds| ==> Wire(f.src, f.dst, feeds[j].d) in wires)
  }

  /** The sender's answer consists of the chunks that overlap the range, all of them. */
  lemma AnswerChunks(cfg: Config, f: Flow, data: seq<Byte>, out: S.OutMsg, pkt: Packet, feeds: seq<Feed>, c: nat)
    requires |data| < TWO32 && f.id < TWO64 && out.data == data && pkt.offset < |data|
    requires Carries(feeds, f, Emitted(f.src, S.AnswerSends(cfg, Key(f.dst, f.id), out, pkt)))
    requires Overlaps(cfg.packetSize, data, pkt.offset, pkt.offset + pkt.length, c)
    ensures forall j :: 0 <= j < |feeds| ==> IsChunk(cfg.packetSize, f, data, feeds[j].d)
    ensures exists j :: 0 <= j < |feeds| && feeds[j].d == ChunkDatagram(cfg.packetSize, data, f.id, c)
  {
    var ps, key := cfg.packetSize, Key(f.dst, f.id);
    var answer := S.AnswerSends(cfg, key, out, pkt);
    var lo, hi := pkt.offset, S.ResendEnd(|data|, pkt);
    ResendSendsChunks(ps, key, data, lo, hi);
    assert AreChunksIn(ps, key, data, lo, hi, answer) && Overlaps(ps, data, lo, hi, c);
    assert ChunkAct(ps, key, data, c) in answer;
    var x := Wire(f.src, f.dst, ChunkDatagram(ps, data, f.id, c));
    assert x in Emitted(f.src, answer);
    hide S.AnswerSends, AreChunksIn, Overlaps, Emitted;
    forall j | 0 <= j < |feeds| ensures IsChunk(ps, f, data, feeds[j].d) {
      AnswerIsChunk(ps, f, data, lo, hi, answer, feeds[j].d);
    }
  }

  lemma AnswerIsChunk(ps: nat, f: Flow, data: seq<Byte>, lo: nat, hi: nat, answer: seq<Action>, d: Datagram)
    requires ps > 0 && |data| < TWO32 && f.id < TWO64
    requires AreChunksIn(ps, Key(f.dst, f.id), data, lo, hi, answer)
    requires Wire(f.src, f.dst, d) in Emitted(f.src, answer)
    ensures IsChunk(ps, f, data, d)
  {
    var b :| b in answer && b.Send? && Wire(f.src, f.dst, d) == Wire(f.src, b.dest, b.dgram);
    var c: nat :| IsChunkIn(ps, Key(f.dst, f.id), data, lo, hi, b, c);
    ChunkFields(ps, data, f.id, c);
  }

  /** What a receiver asks for starts inside the message. */
  lemma AsksInside(cfg: Config, f: Flow, data: seq<Byte>, s: ReceiverState, acts: seq<Action>, a: Action)
    requires Receiving(cfg.packetSize, f, data, s) && IsCreditAct(cfg, s.incoming, acts, a)
    requires KeyOf(a) == Key(f.src, f.id) && a.dgram.pkt.typ == PacketType.Resend
    ensures a.dgram.pkt.offset < |data|
  {
    var m := s.incoming[KeyOf(a)];
    ChunkCountBounds(cfg.packetSize, |data|);
    ChunkStartGap(cfg.packetSize, FirstMissing(m.received, 0).value, |m.received| - 1);
  }

  /** RESEND repairs its whole range. Suppose a receiver's tick asks for a range of a message that it
      does not give up, and the sender still holds the message. Then feeding the sender's answer back,
      in any order and with any repeats, hands the message out or marks every chunk that overlaps the
      range. */
  lemma ResendRepairs(cfg: Config, f: Flow, data: seq<Byte>, s: ReceiverState, order: seq<Key>, now: Time,
                      a: Action, out: S.OutMsg, feeds: seq<Feed>, c: nat)
    requires |data| <= MAX_MSG_LEN && f.id < TWO64 && Receiving(cfg.packetSize, f, data, s)
    requires
      && a in HomaReceiver.Tick(cfg, s, order, now).1
      && a.Send? && KeyOf(a) == Key(f.src, f.id) && a.dgram.pkt.typ == PacketType.Resend
      && Key(f.src, f.id) in HomaReceiver.Tick(cfg, s, order, now).0.incoming
    requires out.data == data
    requires Carries(feeds, f, Emitted(f.src, S.AnswerSends(cfg, Key(f.dst, f.id), out, a.dgram.pkt)))
    requires Overlaps(cfg.packetSize, data, a.dgram.pkt.offset, a.dgram.pkt.offset + a.dgram.pkt.length, c)
    ensures var (s', acts) := FeedFrom(cfg, HomaReceiver.Tick(cfg, s, order, now).0, f.src, feeds, 0);
      || Key(f.src, f.id) in Handed(acts)
      || IsMarked(cfg.packetSize, Key(f.src, f.id), s', ChunkDatagram(cfg.packetSize, data, f.id, c))
  {
    hide HomaReceiver.Tick, FeedFrom, ChunkDatagram, S.AnswerSends, Emitted, Overlaps, Receiving, IsMarked,
         IsCreditAct, IsChunk, Carries;
    TickEvolves(cfg, s, order, now);
    var (s1, acts) := HomaReceiver.Tick(cfg, s, order, now);
    EvolvesReceiving(cfg, f, data, s, s1, acts);
    AsksInside(cfg, f, data, s, acts, a);
    AnswerChunks(cfg, f, data, out, a.dgram.pkt, feeds, c);
    FedMarks(cfg, f, data, s1, feeds, 0);
  }
}
