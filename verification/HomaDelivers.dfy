/** A message whose chunks all arrive is taken in and handed out, whole. */
module HomaDelivers {
  import opened Bytes
  import opened Chunks
  import opened HomaPacket
  import opened HomaTypes
  import opened HomaReceiver
  import opened HomaCredit
  import opened HomaFlow
  import opened HomaReassembly
  import opened HomaLedger
  import opened HomaRepair

  /** d is a chunk of f's data (the one, empty, chunk if there is no data). */
  ghost predicate Piece(ps: nat, f: Flow, data: seq<Byte>, d: Datagram)
    requires ps > 0
  {
    ChunkAt(ps, data, d.pkt.offset) && d == ChunkDatagram(ps, data, f.id, d.pkt.offset)
  }

  ghost function AllChunks(ps: nat, f: Flow, data: seq<Byte>): Net
    requires ps > 0
  {
    set c: nat | c <= |data| && ChunkAt(ps, data, c) :: ChunkWire(ps, f, data, c)
  }

  /** The message is neither being received nor remembered as delivered. */
  ghost predicate Unknown(f: Flow, s: ReceiverState) {
    Key(f.src, f.id) !in s.completed && Key(f.src, f.id) !in s.incoming
  }

  /** The message is being received: what is marked is there, and something is missing. */
  ghost predicate Partial(ps: nat, f: Flow, data: seq<Byte>, s: ReceiverState)
    requires ps > 0
  {
    var k := Key(f.src, f.id);
    && k !in s.completed && k in s.incoming
    && BytesOk(ps, AllChunks(ps, f, data), f, data, s.incoming[k]) && !s.incoming[k].Complete()
  }

  // ----- who is refused -----

  /** Why a packet is refused: its message was delivered and is remembered, it claims to be too long, or
      it is unknown while as many messages as allowed are being received. */
  ghost predicate TurnedAway(cfg: Config, s: ReceiverState, src: Addr, d: Datagram) {
    || Key(src, d.pkt.msgId) in s.completed
    || d.pkt.msgLen > MAX_MSG_LEN
    || (Key(src, d.pkt.msgId) !in s.incoming && |s.incoming| >= cfg.maxIncoming)
  }

  /** The packet's message is handed out, or its chunk is marked. */
  ghost predicate TakenIn(cfg: Config, src: Addr, d: Datagram, s': ReceiverState, acts: seq<Action>) {
    Key(src, d.pkt.msgId) in Handed(acts) || IsMarked(cfg.packetSize, Key(src, d.pkt.msgId), s', d)
  }

  lemma StoreMarksIts(cfg: Config, m: InMsg, d: Datagram, now: Time)
    requires Fits(cfg, m, d) && Quot(d.pkt.offset, cfg.packetSize) < |m.received| && d.pkt.offset + |d.payload| <= d.pkt.msgLen
    ensures var m' := Store(cfg, m, d, now);
      |m'.received| == |m.received| && m'.received[Quot(d.pkt.offset, cfg.packetSize)]
  {
    hide Quot;
  }

  /** The chunk a packet fills exists, in the record its message has or would get. */
  ghost predicate InRange(cfg: Config, s: ReceiverState, src: Addr, d: Datagram) {
    var k := Key(src, d.pkt.msgId);
    && d.pkt.offset + |d.payload| <= d.pkt.msgLen
    && Quot(d.pkt.offset, cfg.packetSize)
       < if k in s.incoming then |s.incoming[k].received| else ChunkCount(d.pkt.msgLen, cfg.packetSize)
  }

  lemma AcceptedIsTaken(cfg: Config, s: ReceiverState, src: Addr, d: Datagram, order: seq<Key>, now: Time)
    requires Admissible(cfg, s, src, d, now) && InRange(cfg, s, src, d) && !Refused(cfg, s, Key(src, d.pkt.msgId), d.pkt)
    ensures var (s', acts) := HandleData(cfg, s, src, d, order, now); TakenIn(cfg, src, d, s', acts)
  {
    hide Quot, ChunkCount, Continue, Schedule, DeliverTo, Push, Fits, Store;
    var k := Key(src, d.pkt.msgId);
    var s1 := Accept(cfg, s, k, d, now);
    if Finished(s1, k, d) {
      var a := Deliver(src, k.id, if d.pkt.msgLen == 0 then [] else s1.incoming[k].buf);
      var rest := Schedule(cfg, DeliverTo(s1, k), order, now).1;
      assert HandleData(cfg, s, src, d, order, now).1 == [a] + rest;
      HandedFirst(a, rest);
    } else {
      StoreMarksIts(cfg, MsgFor(cfg, s, k, d.pkt, now), d, now);
      ContinueEvolves(cfg, s1, k, k !in s.incoming, order, now);
      var (s2, acts) := Continue(cfg, s1, k, k !in s.incoming, order, now);
      assert Regranted(cfg, acts, k, s1.incoming[k], s2.incoming[k]);
    }
  }

  /** A packet that carries something new is taken in if and only if it is not turned away; one turned away
      changes nothing, and hears that the receiver is busy exactly when only room was missing. */
  lemma TakenIffNotTurnedAway(cfg: Config, s: ReceiverState, src: Addr, d: Datagram, order: seq<Key>, now: Time)
    requires Admissible(cfg, s, src, d, now) && InRange(cfg, s, src, d) && !IsMarked(cfg.packetSize, Key(src, d.pkt.msgId), s, d)
    ensures var (s', acts) := HandleData(cfg, s, src, d, order, now);
      && (TakenIn(cfg, src, d, s', acts) <==> !TurnedAway(cfg, s, src, d))
      && (TurnedAway(cfg, s, src, d) ==>
            && s' == s
            && acts == if Key(src, d.pkt.msgId) in s.completed || d.pkt.msgLen > MAX_MSG_LEN then []
                       else [Send(src, Datagram(Packet(Busy, 0, d.pkt.msgId, 0, 0, 0), []))])
  {
    hide IsMarked, Admissible, InRange, Accept, Continue, Schedule;
    var k := Key(src, d.pkt.msgId);
    if TurnedAway(cfg, s, src, d) {
      SendsHandNothing(RefusalSends(cfg, s, k, d.pkt));
    } else {
      AcceptedIsTaken(cfg, s, src, d, order, now);
    }
  }

  // ----- one packet of the message -----

  lemma PieceFields(ps: nat, f: Flow, data: seq<Byte>, d: Datagram)
    requires ps > 0 && Piece(ps, f, data, d) && |data| < TWO32 && f.id < TWO64
    ensures d.pkt.typ == Data && d.pkt.msgId == f.id && d.pkt.msgLen == |data|
    ensures data != [] ==> IsChunk(ps, f, data, d) && ChunkWire(ps, f, data, d.pkt.offset) in AllChunks(ps, f, data)
  {
    ChunkFields(ps, data, f.id, d.pkt.offset);
    hide ChunkDatagram;
  }

  /** The record before the packet: what is there, or a new one. */
  lemma RecordOk(cfg: Config, f: Flow, data: seq<Byte>, s: ReceiverState, d: Datagram, now: Time)
    requires Unknown(f, s) || Partial(cfg.packetSize, f, data, s)
    requires 0 < |data| < TWO32 && d.pkt.msgLen == |data|
    ensures BytesOk(cfg.packetSize, AllChunks(cfg.packetSize, f, data), f, data, MsgFor(cfg, s, Key(f.src, f.id), d.pkt, now))
  {
    hide BytesOk, NewMsg, AllChunks;
    NewMsgOk(cfg, AllChunks(cfg.packetSize, f, data), f, data, now);
  }

  /** The record after the packet. */
  lemma RecordAfter(cfg: Config, f: Flow, data: seq<Byte>, s: ReceiverState, d: Datagram, now: Time)
    requires Unknown(f, s) || Partial(cfg.packetSize, f, data, s)
    requires 0 < |data| < TWO32 && f.id < TWO64 && Piece(cfg.packetSize, f, data, d)
    ensures var k := Key(f.src, f.id); var m := MsgFor(cfg, s, k, d.pkt, now);
      && Fits(cfg, m, d)
      && var m' := Store(cfg, m, d, now);
         && BytesOk(cfg.packetSize, AllChunks(cfg.packetSize, f, data), f, data, m')
         && (m'.Complete() ==> m'.buf == data)
         && |m'.received| == |m.received|
         && (forall i: nat :: i < |m.received| && m.received[i] ==> m'.received[i])
         && Quot(d.pkt.offset, cfg.packetSize) < |m'.received| && m'.received[Quot(d.pkt.offset, cfg.packetSize)]
  {
    var ps, net := cfg.packetSize, AllChunks(cfg.packetSize, f, data);
    PieceFields(ps, f, data, d);
    RecordOk(cfg, f, data, s, d, now);
    hide Piece, AllChunks, BytesOk, Store, Fits, ChunkDatagram, Quot, MsgFor, Partial;
    var m := MsgFor(cfg, s, Key(f.src, f.id), d.pkt, now);
    StoreBytesOk(cfg, net, f, data, m, d.pkt.offset, d, now);
    var m' := Store(cfg, m, d, now);
    StoreLength(cfg, m, d, now);
    if m'.Complete() { CompleteIsData(ps, net, f, data, m'); }
  }

  lemma StoreLength(cfg: Config, m: InMsg, d: Datagram, now: Time)
    requires Fits(cfg, m, d)
    ensures |Store(cfg, m, d, now).received| == |m.received|
  {
  }

  /** The packet's own message is handed out, or is still being received with the packet's chunk marked. */
  ghost predicate Advanced(cfg: Config, f: Flow, data: seq<Byte>, s: ReceiverState, d: Datagram, s': ReceiverState, acts: seq<Action>) {
    var k := Key(f.src, f.id);
    || Deliver(f.src, f.id, data) in acts
    || (&& Partial(cfg.packetSize, f, data, s')
        && IsMarked(cfg.packetSize, k, s', d)
        && (k in s.incoming ==> StillMarked(k, s, s')))
  }

  lemma OnePiece(cfg: Config, f: Flow, data: seq<Byte>, s: ReceiverState, d: Datagram, order: seq<Key>, now: Time)
    requires (Unknown(f, s) && |s.incoming| < cfg.maxIncoming) || Partial(cfg.packetSize, f, data, s)
    requires |data| <= MAX_MSG_LEN && f.id < TWO64 && Piece(cfg.packetSize, f, data, d)
    ensures Admissible(cfg, s, f.src, d, now)
    ensures var (s', acts) := HandleData(cfg, s, f.src, d, order, now); Advanced(cfg, f, data, s, d, s', acts)
  {
    hide Store, Fits, BytesOk, Piece, AllChunks, Continue, Schedule, DeliverTo, Push, NewMsg, Quot, StillMarked, IsMarked, Partial, MsgFor;
    PieceFields(cfg.packetSize, f, data, d);
    var k := Key(f.src, f.id);
    PieceWanted(cfg, f, data, s);
    AcceptPiece(cfg, f, data, s, d, now);
    var s1 := Accept(cfg, s, k, d, now);
    if Finished(s1, k, d) {
      var acts := HandleData(cfg, s, f.src, d, order, now).1;
      assert acts[0] == Deliver(f.src, f.id, data);
    } else {
      ContinueEvolves(cfg, s1, k, k !in s.incoming, order, now);
      var (s2, acts) := Continue(cfg, s1, k, k !in s.incoming, order, now);
      PieceStays(cfg, f, data, s, d, s1, s2, acts);
    }
  }

  lemma PieceWanted(cfg: Config, f: Flow, data: seq<Byte>, s: ReceiverState)
    requires (Unknown(f, s) && |s.incoming| < cfg.maxIncoming) || Partial(cfg.packetSize, f, data, s)
    ensures var k := Key(f.src, f.id); k !in s.completed && (k in s.incoming || |s.incoming| < cfg.maxIncoming)
    ensures Unknown(f, s) || Partial(cfg.packetSize, f, data, s)
  {
    hide BytesOk;
  }

  /** The state once the packet's bytes are in. */
  lemma AcceptPiece(cfg: Config, f: Flow, data: seq<Byte>, s: ReceiverState, d: Datagram, now: Time)
    requires Unknown(f, s) || Partial(cfg.packetSize, f, data, s)
    requires |data| <= MAX_MSG_LEN && f.id < TWO64 && Piece(cfg.packetSize, f, data, d) && d.pkt.msgLen == |data|
    ensures var k := Key(f.src, f.id);
      && Fits(cfg, MsgFor(cfg, s, k, d.pkt, now), d)
      && var s1 := Accept(cfg, s, k, d, now);
         && k in s1.incoming
         && (data != [] && s1.incoming[k].Complete() ==> s1.incoming[k].buf == data)
         && (data != [] ==>
               && BytesOk(cfg.packetSize, AllChunks(cfg.packetSize, f, data), f, data, s1.incoming[k])
               && IsMarked(cfg.packetSize, k, s1, d) && (k in s.incoming ==> StillMarked(k, s, s1)))
  {
    hide Store, Fits, BytesOk, Piece, AllChunks, Push, NewMsg, Quot;
    var k := Key(f.src, f.id);
    if data == [] {
      EmptyFits(cfg, MsgFor(cfg, s, k, d.pkt, now), d);
    } else {
      RecordAfter(cfg, f, data, s, d, now);
    }
  }

  /** Scheduling leaves the message where it is. */
  lemma PieceStays(cfg: Config, f: Flow, data: seq<Byte>, s: ReceiverState, d: Datagram, s1: ReceiverState, s2: ReceiverState, acts: seq<Action>)
    requires var k := Key(f.src, f.id);
      && k !in s1.completed && k in s1.incoming && !s1.incoming[k].Complete()
      && BytesOk(cfg.packetSize, AllChunks(cfg.packetSize, f, data), f, data, s1.incoming[k])
      && IsMarked(cfg.packetSize, k, s1, d) && (k in s.incoming ==> StillMarked(k, s, s1))
      && Evolves(cfg, s1, s2, acts) && k in s2.incoming
    ensures Advanced(cfg, f, data, s, d, s2, acts)
  {
    var k := Key(f.src, f.id);
    hide BytesOk, AllChunks, Quot;
    assert Regranted(cfg, acts, k, s1.incoming[k], s2.incoming[k]);
    RegrantedBytes(cfg.packetSize, AllChunks(cfg.packetSize, f, data), f, data, s1.incoming[k], s2.incoming[k]);
  }

  lemma EmptyFits(cfg: Config, m: InMsg, d: Datagram)
    ensures d.pkt.msgLen == 0 ==> Fits(cfg, m, d)
  {
  }

  ghost predicate SameBytes(m: InMsg, m': InMsg) {
    m'.totalLen == m.totalLen && m'.buf == m.buf && m'.received == m.received && m'.receivedBytes == m.receivedBytes
  }

  lemma RegrantedBytes(ps: nat, net: Net, f: Flow, data: seq<Byte>, m: InMsg, m': InMsg)
    requires ps > 0 && BytesOk(ps, net, f, data, m) && SameBytes(m, m')
    ensures BytesOk(ps, net, f, data, m')
  {
  }

  // ----- all of its packets -----

  /** With all chunks marked the count is the length. */
  lemma {:induction false} AllMarked(ps: nat, len: nat, received: seq<bool>, n: nat)
    requires ps > 0 && n <= |received| && (n > 0 ==> ChunkStart(ps, n - 1) < len)
    requires forall i: nat :: i < n ==> received[i]
    ensures MarkedBytes(ps, len, received, n) == Min(ChunkStart(ps, n), len)
  {
    if n > 0 { AllMarked(ps, len, received, n - 1); }
  }

  /** A record that is not complete lacks a chunk. */
  lemma MissingChunk(ps: nat, net: Net, f: Flow, data: seq<Byte>, m: InMsg) returns (c: nat)
    requires ps > 0 && BytesOk(ps, net, f, data, m) && !m.Complete()
    ensures Multiple(c, ps) && c < |data| && Quot(c, ps) < |m.received| && !m.received[Quot(c, ps)]
  {
    ChunkCountBounds(ps, |data|);
    if forall i: nat :: i < |m.received| ==> m.received[i] {
      AllMarked(ps, |data|, m.received, |m.received|);
    }
    var i: nat :| i < |m.received| && !m.received[i];
    c := ChunkStart(ps, i);
    ChunkStartGap(ps, i, |m.received| - 1);
    ChunkStartDivides(ps, i);
  }

  lemma SomeChunkMissing(ps: nat, f: Flow, data: seq<Byte>, s: ReceiverState) returns (c: nat)
    requires ps > 0 && Partial(ps, f, data, s)
    ensures ChunkAt(ps, data, c) && !IsMarked(ps, Key(f.src, f.id), s, ChunkDatagram(ps, data, f.id, c))
  {
    c := MissingChunk(ps, AllChunks(ps, f, data), f, data, s.incoming[Key(f.src, f.id)]);
    ChunkOffset(ps, data, f.id, c);
  }

  lemma ChunkOffset(ps: nat, data: seq<Byte>, id: nat, c: nat)
    requires c <= |data| < TWO32
    ensures ChunkDatagram(ps, data, id, c).pkt.offset == c
  {
  }

  /** Feeding chunks only: the message is handed out, or all that were fed are marked. */
  lemma {:induction false} FedAdvances(cfg: Config, f: Flow, data: seq<Byte>, s: ReceiverState, feeds: seq<Feed>, i: nat)
    requires (Unknown(f, s) && |s.incoming| < cfg.maxIncoming && i < |feeds|) || Partial(cfg.packetSize, f, data, s)
    requires |data| <= MAX_MSG_LEN && f.id < TWO64 && i <= |feeds|
    requires forall j: nat :: i <= j < |feeds| ==> Piece(cfg.packetSize, f, data, feeds[j].d)
    ensures var (s', acts) := FeedFrom(cfg, s, f.src, feeds, i);
      var k := Key(f.src, f.id);
      || Deliver(f.src, f.id, data) in acts
      || (&& Partial(cfg.packetSize, f, data, s')
          && (k in s.incoming ==> StillMarked(k, s, s'))
          && forall j: nat :: i <= j < |feeds| ==> IsMarked(cfg.packetSize, k, s', feeds[j].d))
    decreases |feeds| - i
  {
    hide HandleData, Admissible, Piece, Partial, IsMarked, StillMarked, Unknown;
    var k := Key(f.src, f.id);
    if i < |feeds| {
      OnePiece(cfg, f, data, s, feeds[i].d, feeds[i].order, feeds[i].now);
      var (s', acts) := HandleData(cfg, s, f.src, feeds[i].d, feeds[i].order, feeds[i].now);
      if Deliver(f.src, f.id, data) !in acts {
        PartialHeld(cfg.packetSize, f, data, s');
        FedAdvances(cfg, f, data, s', feeds, i + 1);
        var (s'', rest) := FeedFrom(cfg, s', f.src, feeds, i + 1);
        if Deliver(f.src, f.id, data) !in rest {
          MarkKept(cfg.packetSize, k, s', s'', feeds[i].d);
          if k in s.incoming { StillMarkedLater(cfg.packetSize, k, s, s', s'', feeds[i].d); }
        }
      }
    } else {
      PartialHeld(cfg.packetSize, f, data, s);
      NothingMoved(k, s);
    }
  }

  lemma PartialHeld(ps: nat, f: Flow, data: seq<Byte>, s: ReceiverState)
    requires ps > 0 && Partial(ps, f, data, s)
    ensures Key(f.src, f.id) in s.incoming
  {
  }

  lemma NothingMoved(k: Key, s: ReceiverState)
    requires k in s.incoming
    ensures StillMarked(k, s, s)
  {
  }

  lemma MarkKept(ps: nat, k: Key, s: ReceiverState, s': ReceiverState, d: Datagram)
    requires ps > 0 && IsMarked(ps, k, s, d) && StillMarked(k, s, s')
    ensures IsMarked(ps, k, s', d)
  {
  }

  /** A receiver with room that does not remember the message takes it in and hands it out: fed all its
      chunks, in any order and with any repeats, it delivers exactly the data. */
  lemma FedIsDelivered(cfg: Config, f: Flow, data: seq<Byte>, s: ReceiverState, feeds: seq<Feed>)
    requires Unknown(f, s) && |s.incoming| < cfg.maxIncoming && |data| <= MAX_MSG_LEN && f.id < TWO64
    requires forall j: nat :: j < |feeds| ==> Piece(cfg.packetSize, f, data, feeds[j].d)
    requires forall c: nat :: ChunkAt(cfg.packetSize, data, c) ==> exists j: nat :: j < |feeds| && feeds[j].d.pkt.offset == c
    ensures Deliver(f.src, f.id, data) in FeedFrom(cfg, s, f.src, feeds, 0).1
  {
    var ps := cfg.packetSize;
    assert ChunkAt(ps, data, 0);
    hide FeedFrom, Partial, Unknown, IsMarked, ChunkDatagram;
    FedAdvances(cfg, f, data, s, feeds, 0);
    var (s', acts) := FeedFrom(cfg, s, f.src, feeds, 0);
    if Deliver(f.src, f.id, data) !in acts {
      var c := SomeChunkMissing(ps, f, data, s');
    }
  }

  // ----- with anything else in between -----

  /** Anything that does not drop the message and leaves its bytes alone leaves it where it was. */
  ghost predicate Spared(k: Key, s: ReceiverState, s': ReceiverState) {
    && (k in s.incoming <==> k in s'.incoming)
    && (k in s.incoming ==> SameBytes(s.incoming[k], s'.incoming[k]))
    && (k !in s.completed ==> k !in s'.completed)
  }

  lemma SparedThrough(k: Key, s: ReceiverState, s': ReceiverState, s'': ReceiverState)
    requires Spared(k, s, s') && Spared(k, s', s'')
    ensures Spared(k, s, s'')
  {
  }

  lemma SparedStays(ps: nat, f: Flow, data: seq<Byte>, s: ReceiverState, s': ReceiverState)
    requires ps > 0 && Spared(Key(f.src, f.id), s, s')
    ensures Unknown(f, s) ==> Unknown(f, s')
    ensures Partial(ps, f, data, s) ==> Partial(ps, f, data, s') && StillMarked(Key(f.src, f.id), s, s')
  {
    if Partial(ps, f, data, s) {
      RegrantedBytes(ps, AllChunks(ps, f, data), f, data, s.incoming[Key(f.src, f.id)], s'.incoming[Key(f.src, f.id)]);
      hide BytesOk;
    }
  }

  lemma EvolvesSpares(cfg: Config, s: ReceiverState, s': ReceiverState, acts: seq<Action>, k: Key)
    requires Evolves(cfg, s, s', acts) && (k in s.incoming ==> k in s'.incoming)
    ensures Spared(k, s, s')
  {
    if k in s'.incoming { assert Regranted(cfg, acts, k, s.incoming[k], s'.incoming[k]); }
  }

  lemma DeliverSpares(s: ReceiverState, key: Key, k: Key)
    requires k != key
    ensures Spared(k, s, DeliverTo(s, key))
  {
  }

  lemma AcceptSpares(cfg: Config, s: ReceiverState, key: Key, d: Datagram, now: Time, k: Key)
    requires Fits(cfg, MsgFor(cfg, s, key, d.pkt, now), d) && k != key
    ensures Spared(k, s, Accept(cfg, s, key, d, now))
  {
    hide Store, Fits, NewMsg, Push;
  }

  /** A packet of another message. */
  lemma OtherData(cfg: Config, s: ReceiverState, src: Addr, d: Datagram, order: seq<Key>, now: Time, k: Key)
    requires Admissible(cfg, s, src, d, now) && Key(src, d.pkt.msgId) != k
    ensures Spared(k, s, HandleData(cfg, s, src, d, order, now).0)
  {
    hide Fits, Accept, Schedule, Continue, DeliverTo, Evolves, Spared;
    var key := Key(src, d.pkt.msgId);
    if Refused(cfg, s, key, d.pkt) {
      assert Spared(k, s, s) by { SparedSelf(k, s); }
    } else {
      AcceptSpares(cfg, s, key, d, now, k);
      var s1 := Accept(cfg, s, key, d, now);
      AcceptHolds(cfg, s, key, d, now);
      if Finished(s1, key, d) {
        DeliverSpares(s1, key, k);
        var s2 := DeliverTo(s1, key);
        ScheduleEvolves(cfg, s2, order, now);
        EvolvesSpares(cfg, s2, Schedule(cfg, s2, order, now).0, Schedule(cfg, s2, order, now).1, k);
        SparedThrough(k, s1, s2, Schedule(cfg, s2, order, now).0);
        SparedThrough(k, s, s1, Schedule(cfg, s2, order, now).0);
      } else {
        ContinueEvolves(cfg, s1, key, key !in s.incoming, order, now);
        var (s2, acts) := Continue(cfg, s1, key, key !in s.incoming, order, now);
        EvolvesSpares(cfg, s1, s2, acts, k);
        SparedThrough(k, s, s1, s2);
      }
    }
  }

  lemma SparedSelf(k: Key, s: ReceiverState)
    ensures Spared(k, s, s)
  {
  }

  lemma AcceptHolds(cfg: Config, s: ReceiverState, key: Key, d: Datagram, now: Time)
    requires Fits(cfg, MsgFor(cfg, s, key, d.pkt, now), d)
    ensures key in Accept(cfg, s, key, d, now).incoming
  {
  }

  /** The states a receiver passes through, from any state. */
  ghost predicate Steps(cfg: Config, ss: seq<ReceiverState>, inputs: seq<Input>) {
    && |ss| == |inputs| + 1
    && forall i: nat :: i < |inputs| ==> Allowed(cfg, ss[i], inputs[i]) && ss[i + 1] == Step(cfg, ss[i], inputs[i]).0
  }

  /** The input is a packet of the message. */
  predicate Its(f: Flow, i: Input) {
    i.Arrival? && i.src == f.src && i.dgram.pkt.msgId == f.id
  }

  /** What the surroundings grant: the message's packets are its chunks, they find room if the message is not
      being received yet, and no tick gives the message up. */
  ghost predicate Fair(cfg: Config, f: Flow, data: seq<Byte>, s: ReceiverState, i: Input, s': ReceiverState) {
    var k := Key(f.src, f.id);
    && (Its(f, i) ==> Piece(cfg.packetSize, f, data, i.dgram) && (k !in s.incoming ==> |s.incoming| < cfg.maxIncoming))
    && (i.Tick? && k in s.incoming ==> k in s'.incoming)
  }

  ghost predicate AllFair(cfg: Config, f: Flow, data: seq<Byte>, ss: seq<ReceiverState>, inputs: seq<Input>) {
    |ss| == |inputs| + 1 && forall i: nat :: i < |inputs| ==> Fair(cfg, f, data, ss[i], inputs[i], ss[i + 1])
  }

  /** Step j delivers the data. */
  ghost predicate HandsOut(cfg: Config, f: Flow, data: seq<Byte>, s: ReceiverState, i: Input) {
    Allowed(cfg, s, i) && Deliver(f.src, f.id, data) in Step(cfg, s, i).1
  }

  lemma StepAdvances(cfg: Config, f: Flow, data: seq<Byte>, s: ReceiverState, i: Input)
    requires Allowed(cfg, s, i) && Fair(cfg, f, data, s, i, Step(cfg, s, i).0) && |data| <= MAX_MSG_LEN && f.id < TWO64
    requires (Unknown(f, s) || Partial(cfg.packetSize, f, data, s)) && !HandsOut(cfg, f, data, s, i)
    ensures var s', k := Step(cfg, s, i).0, Key(f.src, f.id);
      && (Unknown(f, s) && !Its(f, i) ==> Unknown(f, s'))
      && (Its(f, i) ==> Partial(cfg.packetSize, f, data, s') && IsMarked(cfg.packetSize, k, s', i.dgram))
      && (Partial(cfg.packetSize, f, data, s) ==> Partial(cfg.packetSize, f, data, s') && StillMarked(k, s, s'))
  {
    hide Partial, Admissible, Piece, IsMarked, StillMarked, Spared, HandleData, HomaReceiver.Tick;
    var k := Key(f.src, f.id);
    match i
    case Tick(order, now) =>
      TickEvolves(cfg, s, order, now);
      EvolvesSpares(cfg, s, HomaReceiver.Tick(cfg, s, order, now).0, HomaReceiver.Tick(cfg, s, order, now).1, k);
      SparedStays(cfg.packetSize, f, data, s, HomaReceiver.Tick(cfg, s, order, now).0);
    case Arrival(src, d, order, now) =>
      if Its(f, i) {
        if k in s.incoming { assert Partial(cfg.packetSize, f, data, s); }
        OnePiece(cfg, f, data, s, d, order, now);
        if Partial(cfg.packetSize, f, data, s) { PartialHeld(cfg.packetSize, f, data, s); }
      } else {
        OtherData(cfg, s, src, d, order, now, k);
        SparedStays(cfg.packetSize, f, data, s, HandleData(cfg, s, src, d, order, now).0);
      }
  }

  lemma {:induction false} StepsAdvance(cfg: Config, f: Flow, data: seq<Byte>, ss: seq<ReceiverState>, inputs: seq<Input>, n: nat)
    requires Steps(cfg, ss, inputs) && AllFair(cfg, f, data, ss, inputs) && n < |ss|
    requires Unknown(f, ss[0]) && |data| <= MAX_MSG_LEN && f.id < TWO64
    requires forall i: nat :: i < n ==> !HandsOut(cfg, f, data, ss[i], inputs[i])
    ensures
      || (Unknown(f, ss[n]) && forall i: nat :: i < n ==> !Its(f, inputs[i]))
      || (&& Partial(cfg.packetSize, f, data, ss[n])
          && forall i: nat :: i < n && Its(f, inputs[i]) ==> IsMarked(cfg.packetSize, Key(f.src, f.id), ss[n], inputs[i].dgram))
  {
    hide Step, Allowed, Fair, HandsOut, Unknown, Partial, IsMarked, StillMarked;
    if n > 0 {
      StepsAdvance(cfg, f, data, ss, inputs, n - 1);
      assert Fair(cfg, f, data, ss[n - 1], inputs[n - 1], ss[n - 1 + 1]) && Allowed(cfg, ss[n - 1], inputs[n - 1]);
      StepAdvances(cfg, f, data, ss[n - 1], inputs[n - 1]);
      if Partial(cfg.packetSize, f, data, ss[n - 1]) {
        forall i: nat | i < n && Its(f, inputs[i]) ensures IsMarked(cfg.packetSize, Key(f.src, f.id), ss[n], inputs[i].dgram) {
          if i < n - 1 { MarkKept(cfg.packetSize, Key(f.src, f.id), ss[n - 1], ss[n], inputs[i].dgram); }
        }
      }
    }
  }

  /** The same among any other packets and ticks: a message that is not remembered, finds room when it first
      comes and is not given up, is delivered, whole, once all its chunks have arrived. */
  lemma ArrivedIsDelivered(cfg: Config, f: Flow, data: seq<Byte>, ss: seq<ReceiverState>, inputs: seq<Input>)
    requires Steps(cfg, ss, inputs) && AllFair(cfg, f, data, ss, inputs)
    requires Unknown(f, ss[0]) && |data| <= MAX_MSG_LEN && f.id < TWO64
    requires forall c: nat :: ChunkAt(cfg.packetSize, data, c) ==>
      exists i: nat :: i < |inputs| && Its(f, inputs[i]) && inputs[i].dgram.pkt.offset == c
    ensures exists i: nat :: i < |inputs| && HandsOut(cfg, f, data, ss[i], inputs[i])
  {
    var ps, n := cfg.packetSize, |inputs|;
    assert ChunkAt(ps, data, 0);
    if forall i: nat :: i < n ==> !HandsOut(cfg, f, data, ss[i], inputs[i]) {
      hide Step, Allowed, HandsOut, Unknown, Partial, IsMarked, ChunkDatagram, Piece;
      StepsAdvance(cfg, f, data, ss, inputs, n);
      var c := SomeChunkMissing(ps, f, data, ss[n]);
      var i: nat :| i < n && Its(f, inputs[i]) && inputs[i].dgram.pkt.offset == c;
      assert Fair(cfg, f, data, ss[i], inputs[i], ss[i + 1]);
      PieceIs(ps, f, data, inputs[i].dgram);
    }
  }

  lemma PieceIs(ps: nat, f: Flow, data: seq<Byte>, d: Datagram)
    requires ps > 0 && Piece(ps, f, data, d)
    ensures d.pkt.offset <= |data| && d == ChunkDatagram(ps, data, f.id, d.pkt.offset)
  {
  }
}
