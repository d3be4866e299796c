/** What holds of one message in every run, whatever the sizes: every data packet is a slice of the
    message, both records have its length, and every packet starts under credit. Credit ends and send
    positions need not lie on the chunk grid, but until the end of the message is out they can leave it
    by one distance only, that of the grant increment; this is what keeps pokes under credit. */
module HomaBase {
  import opened Bytes
  import opened Chunks
  import opened HomaPacket
  import opened HomaTypes
  import opened HomaSender
  import R = HomaReceiver
  import opened HomaCredit
  import opened HomaFlow
  import opened HomaReassembly

  // ----- packets -----

  /** d carries a slice of data: a whole packet's worth, or up to the end. */
  ghost predicate IsSlice(ps: nat, data: seq<Byte>, id: nat, d: Datagram) {
    var s, e := d.pkt.offset, d.pkt.offset + |d.payload|;
    && Representable(d)
    && d.pkt.typ == Data && d.pkt.msgId == id && d.pkt.msgLen == |data|
    && e <= |data| && d.payload == data[s..e]
    && |d.payload| <= ps && (|d.payload| == ps || e == |data|)
  }

  lemma SliceOf(ps: nat, data: seq<Byte>, id: nat, s: nat)
    requires s <= |data| < TWO32 && id < TWO64
    ensures IsSlice(ps, data, id, DataDatagram(data, id, s, Min(s + ps, |data|)))
    ensures var d := DataDatagram(data, id, s, Min(s + ps, |data|));
      d.pkt.offset == s && s + |d.payload| == Min(s + ps, |data|)
  {
  }

  /** x is a packet of f's that reaches the end of its message. */
  ghost predicate Ends(f: Flow, len: nat, x: Wire) {
    && x.src == f.src && x.dst == f.dst
    && x.dgram.pkt.typ == Data && x.dgram.pkt.msgId == f.id
    && x.dgram.pkt.offset + |x.dgram.payload| == len
  }

  /** The end of the message has been put on the network, or the message is one packet. */
  ghost predicate Loose(ps: nat, net: Net, f: Flow, len: nat) {
    len <= ps || exists x :: x in net && Ends(f, len, x)
  }

  /** Off the grid by as much as the grant increment is. */
  predicate Shifted(cfg: Config, e: nat) {
    Rem(e, cfg.packetSize) == Rem(cfg.grantIncrement, cfg.packetSize)
  }

  /** Where credit can end. */
  ghost predicate EndFit(cfg: Config, net: Net, f: Flow, len: nat, e: nat) {
    e <= len && (Shifted(cfg, e) || e <= cfg.unscheduledBytes || e == len || Loose(cfg.packetSize, net, f, len))
  }

  lemma LooseMonotone(ps: nat, net: Net, net': Net, f: Flow, len: nat)
    requires Loose(ps, net, f, len) && net <= net'
    ensures Loose(ps, net', f, len)
  {
  }

  lemma EndFitMonotone(cfg: Config, net: Net, net': Net, f: Flow, len: nat, e: nat)
    requires EndFit(cfg, net, f, len, e) && net <= net'
    ensures EndFit(cfg, net', f, len, e)
  {
    if Loose(cfg.packetSize, net, f, len) { LooseMonotone(cfg.packetSize, net, net', f, len); }
  }

  ghost predicate DataFit(cfg: Config, net: Net, f: Flow, data: seq<Byte>, d: Datagram) {
    && IsSlice(cfg.packetSize, data, f.id, d)
    && (d.pkt.offset == 0 || Credited(cfg, net, f, d.pkt.offset + 1))
  }

  ghost predicate ResendFit(cfg: Config, net: Net, f: Flow, len: nat, pkt: Packet) {
    && pkt.offset < len
    && EndFit(cfg, net, f, len, pkt.offset + pkt.length)
    && Credited(cfg, net, f, pkt.offset + pkt.length)
  }

  // ----- the sender -----

  /** The send position of a message of several packets that is not all sent. */
  ghost predicate PositionFit(cfg: Config, net: Net, f: Flow, len: nat, n: nat)
    requires len > 0
  {
    var last := FloorTo(len - 1, cfg.packetSize);
    && (Multiple(n, cfg.packetSize) || Shifted(cfg, n) || n > last)
    && (Loose(cfg.packetSize, net, f, len) ==> n > last)
    && (n == 0 || Credited(cfg, net, f, FloorTo(n - 1, cfg.packetSize) + 1))
  }

  /** The sender's record, but for the unscheduled window. */
  ghost predicate OutShape(cfg: Config, net: Net, f: Flow, data: seq<Byte>, m: OutMsg) {
    && m.data == data
    && (m.doneAt.Some? ==> m.nextSend == |data|)
    && (|data| > cfg.packetSize && m.nextSend < |data| ==> PositionFit(cfg, net, f, |data|, m.nextSend))
  }

  ghost predicate OutFit(cfg: Config, net: Net, f: Flow, data: seq<Byte>, m: OutMsg) {
    && OutShape(cfg, net, f, data, m)
    && Min(cfg.unscheduledBytes, |data|) <= m.nextSend
    && (m.nextSend == |data| ==> m.doneAt.Some?)
  }

  // ----- the receiver -----

  ghost predicate InFit(cfg: Config, net: Net, f: Flow, data: seq<Byte>, m: R.InMsg) {
    && SizesOk(cfg.packetSize, data, m)
    && m.receivedBytes <= MarkedBytes(cfg.packetSize, |data|, m.received, |m.received|)
    && (Multiple(m.receivedBytes, cfg.packetSize) || Loose(cfg.packetSize, net, f, |data|))
    && EndFit(cfg, net, f, |data|, m.grantedTo)
    && Credited(cfg, net, f, m.grantedTo)
  }

  // ----- pumping -----

  /** How far pumping gets: nowhere, or to the end of a packet that starts below the limit, a whole
      number of packets on. */
  lemma {:induction false} PumpStops(next: nat, limit: nat, ps: nat, len: nat) returns (c: nat)
    requires ps > 0 && next < limit <= len
    ensures next <= c < limit && PumpEnd(next, limit, ps, len) == Min(c + ps, len)
    ensures Rem(c, ps) == Rem(next, ps)
    decreases limit - next
  {
    var e := Min(next + ps, len);
    if e < limit {
      RemSum(ps, next, ps);
      c := PumpStops(e, limit, ps, len);
    } else {
      c := next;
    }
  }

  /** The packets are slices that start below the limit and end no later than pumping stops. */
  lemma {:induction false} PumpSlices(key: Key, data: seq<Byte>, next: nat, limit: nat, ps: nat, a: Action)
    requires ps > 0 && next <= |data| && limit <= |data| < TWO32 && key.id < TWO64
    requires a in PumpSends(key, data, next, limit, ps)
    ensures a.Send? && a.dest == key.peer && IsSlice(ps, data, key.id, a.dgram)
    ensures a.dgram.pkt.offset < limit
    ensures a.dgram.pkt.offset + |a.dgram.payload| <= PumpEnd(next, limit, ps, |data|)
    decreases limit - next
  {
    hide IsSlice;
    SliceOf(ps, data, key.id, next);
    var e := Min(next + ps, |data|);
    if a != Send(key.peer, DataDatagram(data, key.id, next, e)) {
      PumpSlices(key, data, e, limit, ps, a);
    }
  }

  /** Pumping takes a position that fits to the end or to one that fits. */
  lemma PumpFits(cfg: Config, net: Net, f: Flow, len: nat, n: nat, limit: nat)
    requires cfg.packetSize < len && n < len && PositionFit(cfg, net, f, len, n)
    requires EndFit(cfg, net, f, len, limit) && Credited(cfg, net, f, limit)
    requires limit <= cfg.unscheduledBytes ==> n == 0 || limit <= n
    ensures var e := PumpEnd(n, limit, cfg.packetSize, len);
      e == len || PositionFit(cfg, net, f, len, e)
  {
    if n < limit {
      var ps, last := cfg.packetSize, FloorTo(len - 1, cfg.packetSize);
      var c := PumpStops(n, limit, ps, len);
      if c + ps < len {
        RemSum(ps, c, ps);
        PumpFitsAt(cfg, net, f, len, n, limit, c);
      }
    }
  }

  lemma PumpFitsAt(cfg: Config, net: Net, f: Flow, len: nat, n: nat, limit: nat, c: nat)
    requires cfg.packetSize < len && n < len && PositionFit(cfg, net, f, len, n)
    requires EndFit(cfg, net, f, len, limit) && Credited(cfg, net, f, limit)
    requires limit <= cfg.unscheduledBytes ==> n == 0 || limit <= n
    requires n <= c < limit && c + cfg.packetSize < len && Rem(c, cfg.packetSize) == Rem(n, cfg.packetSize)
    requires Rem(c + cfg.packetSize, cfg.packetSize) == Rem(c, cfg.packetSize)
    requires c + cfg.packetSize >= limit
    ensures PositionFit(cfg, net, f, len, c + cfg.packetSize)
  {
    var ps, last := cfg.packetSize, FloorTo(len - 1, cfg.packetSize);
    assert n <= last && !Loose(ps, net, f, len);
    if Multiple(n, ps) {
      FloorIs(c, c + ps - 1, ps);
      CreditedMonotone(cfg, net, net, f, limit, c + 1);
    } else {
      RemGap(c, limit, ps);
      CreditedMonotone(cfg, net, net, f, limit, FloorTo(c + ps - 1, ps) + 1);
    }
  }

  /** Positions that fit still do once packets are added of which none ends the message unless the
      position is in the last chunk. */
  lemma PositionFitMore(cfg: Config, net: Net, net': Net, f: Flow, len: nat, n: nat)
    requires len > 0 && PositionFit(cfg, net, f, len, n) && net <= net'
    requires forall x :: x in net' && x !in net ==> (Ends(f, len, x) ==> n > FloorTo(len - 1, cfg.packetSize))
    ensures PositionFit(cfg, net', f, len, n)
  {
    if n > 0 { CreditedMonotone(cfg, net, net', f, FloorTo(n - 1, cfg.packetSize) + 1, FloorTo(n - 1, cfg.packetSize) + 1); }
  }

  lemma DataFitMonotone(cfg: Config, net: Net, net': Net, f: Flow, data: seq<Byte>, d: Datagram)
    requires DataFit(cfg, net, f, data, d) && net <= net'
    ensures DataFit(cfg, net', f, data, d)
  {
    if d.pkt.offset != 0 { CreditedMonotone(cfg, net, net', f, d.pkt.offset + 1, d.pkt.offset + 1); }
  }

  /** The packets of one message are the sender's, and fit. */
  ghost predicate SendsFit(cfg: Config, net: Net, f: Flow, data: seq<Byte>, acts: seq<Action>) {
    forall a :: a in acts ==> a.Send? && a.dest == f.dst && DataFit(cfg, net, f, data, a.dgram)
  }

  lemma PumpSendsFit(cfg: Config, net: Net, f: Flow, data: seq<Byte>, n: nat, limit: nat)
    requires |data| < TWO32 && f.id < TWO64 && n <= |data| && limit <= |data| && Credited(cfg, net, f, limit)
    ensures SendsFit(cfg, net, f, data, PumpSends(Key(f.dst, f.id), data, n, limit, cfg.packetSize))
  {
    hide PumpSends, PumpEnd, Credited, IsSlice;
    forall a | a in PumpSends(Key(f.dst, f.id), data, n, limit, cfg.packetSize)
      ensures a.Send? && a.dest == f.dst && DataFit(cfg, net, f, data, a.dgram)
    {
      PumpSlices(Key(f.dst, f.id), data, n, limit, cfg.packetSize, a);
      CreditedMonotone(cfg, net, net, f, limit, a.dgram.pkt.offset + 1);
    }
  }

  /** What pumping adds to the network does not end the message unless pumping reaches its end. */
  lemma PumpEnds(cfg: Config, net: Net, f: Flow, data: seq<Byte>, n: nat, limit: nat, x: Wire)
    requires |data| < TWO32 && f.id < TWO64 && n <= |data| && limit <= |data|
    requires x in Emitted(f.src, PumpSends(Key(f.dst, f.id), data, n, limit, cfg.packetSize))
    ensures Ends(f, |data|, x) ==> PumpEnd(n, limit, cfg.packetSize, |data|) == |data|
  {
    var a :| a in PumpSends(Key(f.dst, f.id), data, n, limit, cfg.packetSize) && a.Send? && x == Wire(f.src, a.dest, a.dgram);
    hide PumpSends, PumpEnd;
    PumpSlices(Key(f.dst, f.id), data, n, limit, cfg.packetSize, a);
  }

  /** Where pumping stops fits, once the packets are out. */
  lemma PumpedPosition(cfg: Config, net: Net, f: Flow, data: seq<Byte>, n: nat, limit: nat)
    requires cfg.packetSize < |data| < TWO32 && f.id < TWO64 && n < |data| && PositionFit(cfg, net, f, |data|, n)
    requires EndFit(cfg, net, f, |data|, limit) && Credited(cfg, net, f, limit)
    requires limit <= cfg.unscheduledBytes ==> n == 0 || limit <= n
    ensures var e := PumpEnd(n, limit, cfg.packetSize, |data|);
      var net' := net + Emitted(f.src, PumpSends(Key(f.dst, f.id), data, n, limit, cfg.packetSize));
      e < |data| ==> PositionFit(cfg, net', f, |data|, e)
  {
    hide PumpEnd, PumpSends, PositionFit, Credited, Loose, Ends;
    var acts := PumpSends(Key(f.dst, f.id), data, n, limit, cfg.packetSize);
    var e, net' := PumpEnd(n, limit, cfg.packetSize, |data|), net + Emitted(f.src, acts);
    PumpFits(cfg, net, f, |data|, n, limit);
    forall x | x in net' && x !in net ensures Ends(f, |data|, x) ==> e == |data| {
      PumpEnds(cfg, net, f, data, n, limit, x);
    }
    if e < |data| { PositionFitMore(cfg, net, net', f, |data|, e); }
  }

  lemma PumpedFit(cfg: Config, net: Net, f: Flow, data: seq<Byte>, m: OutMsg, upTo: nat, now: Time)
    requires |data| < TWO32 && f.id < TWO64 && OutShape(cfg, net, f, data, m)
    requires EndFit(cfg, net, f, |data|, Min(upTo, |data|)) && Credited(cfg, net, f, Min(upTo, |data|))
    requires Min(upTo, |data|) <= cfg.unscheduledBytes ==> m.nextSend == 0 || Min(upTo, |data|) <= m.nextSend
    ensures var acts := PumpedSends(cfg, Key(f.dst, f.id), m, upTo);
      && SendsFit(cfg, net, f, data, acts)
      && OutShape(cfg, net + Emitted(f.src, acts), f, data, Pumped(cfg, m, upTo, now))
    ensures var m' := Pumped(cfg, m, upTo, now);
      Min(upTo, |data|) <= m'.nextSend && m.nextSend <= m'.nextSend && (m'.nextSend == |data| ==> m'.doneAt.Some?)
  {
    hide PumpEnd, PumpSends, PositionFit, SendsFit, Credited, EndFit, Emitted;
    if m.doneAt.None? {
      PumpSendsFit(cfg, net, f, data, m.nextSend, Min(upTo, |data|));
      if |data| > cfg.packetSize && m.nextSend < |data| {
        PumpedPosition(cfg, net, f, data, m.nextSend, Min(upTo, |data|));
      }
    } else {
      NoSendsFit(cfg, net, f, data);
    }
  }

  lemma NoSendsFit(cfg: Config, net: Net, f: Flow, data: seq<Byte>)
    ensures SendsFit(cfg, net, f, data, []) && net + Emitted(f.src, []) == net
  {
  }

  // ----- answering -----

  lemma {:induction false} ResendSlices(key: Key, data: seq<Byte>, off: nat, end: nat, ps: nat, a: Action)
    requires ps > 0 && end <= |data| < TWO32 && key.id < TWO64
    requires a in ResendSends(key, data, off, end, ps)
    ensures a.Send? && a.dest == key.peer && IsSlice(ps, data, key.id, a.dgram)
    ensures a.dgram.pkt.offset < end && Multiple(a.dgram.pkt.offset, ps)
    decreases end - off
  {
    hide IsSlice;
    SliceOf(ps, data, key.id, FloorTo(off, ps));
    if a != ChunkSend(key, data, off, ps) {
      ResendSlices(key, data, ChunkRange(data, off, ps).1, end, ps, a);
    }
  }

  /** A slice that starts on the grid and ends the message is its last chunk. */
  lemma LastSlice(ps: nat, data: seq<Byte>, id: nat, d: Datagram)
    requires ps > 0 && IsSlice(ps, data, id, d) && data != []
    requires Multiple(d.pkt.offset, ps) && d.pkt.offset + |d.payload| == |data| && d.pkt.offset < |data|
    ensures d.pkt.offset == FloorTo(|data| - 1, ps)
  {
    FloorIs(d.pkt.offset, |data| - 1, ps);
  }

  lemma AnswerSendsFit(cfg: Config, net: Net, f: Flow, data: seq<Byte>, m: OutMsg, pkt: Packet)
    requires |data| < TWO32 && f.id < TWO64 && m.data == data && ResendFit(cfg, net, f, |data|, pkt)
    ensures SendsFit(cfg, net, f, data, AnswerSends(cfg, Key(f.dst, f.id), m, pkt))
  {
    hide ResendSends, Credited, IsSlice, EndFit;
    forall a | a in AnswerSends(cfg, Key(f.dst, f.id), m, pkt)
      ensures a.Send? && a.dest == f.dst && DataFit(cfg, net, f, data, a.dgram)
    {
      ResendSlices(Key(f.dst, f.id), data, Min(pkt.offset, |data|), ResendEnd(|data|, pkt), cfg.packetSize, a);
      CreditedMonotone(cfg, net, net, f, pkt.offset + pkt.length, a.dgram.pkt.offset + 1);
    }
  }

  /** Only an answer that reaches into the last chunk ends the message. */
  lemma AnswerEnds(cfg: Config, f: Flow, data: seq<Byte>, m: OutMsg, pkt: Packet, x: Wire)
    requires 0 < |data| < TWO32 && f.id < TWO64 && m.data == data
    requires x in Emitted(f.src, AnswerSends(cfg, Key(f.dst, f.id), m, pkt))
    ensures Ends(f, |data|, x) ==> FloorTo(|data| - 1, cfg.packetSize) < ResendEnd(|data|, pkt)
  {
    var a :| a in AnswerSends(cfg, Key(f.dst, f.id), m, pkt) && a.Send? && x == Wire(f.src, a.dest, a.dgram);
    hide ResendSends;
    ResendSlices(Key(f.dst, f.id), data, Min(pkt.offset, |data|), ResendEnd(|data|, pkt), cfg.packetSize, a);
    if Ends(f, |data|, x) { LastSlice(cfg.packetSize, data, f.id, a.dgram); }
  }

  /** A position moved to a credit end fits, once the answer is out. */
  lemma MovedFits(cfg: Config, net: Net, f: Flow, len: nat, n: nat, end: nat)
    requires cfg.packetSize < len && n < len && PositionFit(cfg, net, f, len, n)
    requires EndFit(cfg, net, f, len, end) && Credited(cfg, net, f, end) && Min(cfg.unscheduledBytes, len) <= n
    requires n < end < len
    ensures PositionFit(cfg, net, f, len, end)
  {
    CreditedMonotone(cfg, net, net, f, end, FloorTo(end - 1, cfg.packetSize) + 1);
  }

  /** Where answering leaves the position fits, once the answer is out. */
  lemma AnsweredPosition(cfg: Config, net: Net, f: Flow, data: seq<Byte>, m: OutMsg, pkt: Packet)
    requires cfg.packetSize < |data| < TWO32 && f.id < TWO64 && m.data == data && m.nextSend < |data|
    requires PositionFit(cfg, net, f, |data|, m.nextSend) && ResendFit(cfg, net, f, |data|, pkt)
    requires Min(cfg.unscheduledBytes, |data|) <= m.nextSend
    ensures var n := Max(m.nextSend, pkt.offset + pkt.length);
      var net' := net + Emitted(f.src, AnswerSends(cfg, Key(f.dst, f.id), m, pkt));
      n < |data| ==> PositionFit(cfg, net', f, |data|, n)
  {
    hide AnswerSends, PositionFit, Credited, Loose, Ends;
    var acts, end := AnswerSends(cfg, Key(f.dst, f.id), m, pkt), pkt.offset + pkt.length;
    var net', n := net + Emitted(f.src, acts), Max(m.nextSend, end);
    if n < |data| {
      if m.nextSend < end { MovedFits(cfg, net, f, |data|, m.nextSend, end); }
      forall x | x in net' && x !in net ensures Ends(f, |data|, x) ==> n > FloorTo(|data| - 1, cfg.packetSize) {
        AnswerEnds(cfg, f, data, m, pkt, x);
      }
      PositionFitMore(cfg, net, net', f, |data|, n);
    }
  }

  lemma AnsweredFit(cfg: Config, net: Net, f: Flow, data: seq<Byte>, m: OutMsg, pkt: Packet, now: Time)
    requires |data| < TWO32 && f.id < TWO64 && OutFit(cfg, net, f, data, m) && ResendFit(cfg, net, f, |data|, pkt)
    ensures var acts := AnswerSends(cfg, Key(f.dst, f.id), m, pkt);
      && SendsFit(cfg, net, f, data, acts)
      && OutFit(cfg, net + Emitted(f.src, acts), f, data, Answered(m, pkt, now))
  {
    hide AnswerSends, PositionFit, Credited, SendsFit, Emitted, Loose;
    AnswerSendsFit(cfg, net, f, data, m, pkt);
    if |data| > cfg.packetSize && m.nextSend < |data| {
      AnsweredPosition(cfg, net, f, data, m, pkt);
    }
  }

  // ----- ticking -----

  /** A first chunk sent again fits, and does not end a message of several. */
  lemma FirstFits(cfg: Config, net: Net, f: Flow, data: seq<Byte>)
    requires |data| < TWO32 && f.id < TWO64
    ensures var d := ChunkDatagram(cfg.packetSize, data, f.id, 0);
      DataFit(cfg, net, f, data, d) && (cfg.packetSize < |data| ==> !Ends(f, |data|, Wire(f.src, f.dst, d)))
  {
    SliceOf(cfg.packetSize, data, f.id, 0);
    hide IsSlice;
  }

  /** A poke fits, and ends the message only if the position is in the last chunk. */
  lemma PokeFits(cfg: Config, net: Net, f: Flow, data: seq<Byte>, m: OutMsg)
    requires |data| < TWO32 && f.id < TWO64 && OutFit(cfg, net, f, data, m) && m.doneAt.None? && m.nextSend > 0
    ensures var c := FloorTo(m.nextSend - 1, cfg.packetSize);
      var d := ChunkDatagram(cfg.packetSize, data, f.id, c);
      DataFit(cfg, net, f, data, d) && (Ends(f, |data|, Wire(f.src, f.dst, d)) ==> c == FloorTo(|data| - 1, cfg.packetSize))
  {
    var ps := cfg.packetSize;
    var c := FloorTo(m.nextSend - 1, ps);
    SliceOf(ps, data, f.id, c);
    hide IsSlice, Credited, Loose, FloorTo;
    var d := ChunkDatagram(ps, data, f.id, c);
    if |data| <= ps { FloorIs(0, m.nextSend - 1, ps); }
    if Ends(f, |data|, Wire(f.src, f.dst, d)) { LastSlice(ps, data, f.id, d); }
  }

  // ----- receiving -----

  lemma InFitMonotone(cfg: Config, net: Net, net': Net, f: Flow, data: seq<Byte>, m: R.InMsg)
    requires InFit(cfg, net, f, data, m) && net <= net'
    ensures InFit(cfg, net', f, data, m)
  {
    EndFitMonotone(cfg, net, net', f, |data|, m.grantedTo);
    CreditedMonotone(cfg, net, net', f, m.grantedTo, m.grantedTo);
    if Loose(cfg.packetSize, net, f, |data|) { LooseMonotone(cfg.packetSize, net, net', f, |data|); }
  }

  lemma NewMsgFit(cfg: Config, net: Net, f: Flow, data: seq<Byte>, now: Time)
    requires 0 < |data| < TWO32
    ensures InFit(cfg, net, f, data, R.NewMsg(cfg, |data|, now))
  {
    var m := R.NewMsg(cfg, |data|, now);
    NothingMarked(cfg.packetSize, |data|, m.received, |m.received|);
  }

  /** A slice counted under the chunk it starts in is no longer than that chunk. */
  lemma SliceInChunk(ps: nat, len: nat, offset: nat, n: nat)
    requires ps > 0 && n <= ps && offset + n <= len
    ensures n <= ChunkLen(ps, len, Quot(offset, ps))
  {
    ChunkOf(offset, ps);
  }

  /** Taking in any slice stays inside the buffer and keeps the record. */
  lemma StoreFit(cfg: Config, net: Net, f: Flow, data: seq<Byte>, m: R.InMsg, x: Wire, now: Time)
    requires InFit(cfg, net, f, data, m)
    requires x in net && x.src == f.src && x.dst == f.dst && IsSlice(cfg.packetSize, data, f.id, x.dgram)
    ensures R.Fits(cfg, m, x.dgram) && InFit(cfg, net, f, data, R.Store(cfg, m, x.dgram, now))
  {
    hide Credited, EndFit;
    var d, ps := x.dgram, cfg.packetSize;
    if R.Fills(cfg, m, d) {
      var idx := Quot(d.pkt.offset, ps);
      MarkingOne(ps, |data|, m.received, idx, |m.received|);
      SliceInChunk(ps, |data|, d.pkt.offset, |d.payload|);
      CountFit(ps, net, f, |data|, m.receivedBytes, |d.payload|, x);
      hide MarkedBytes, Loose;
    }
  }

  lemma CountFit(ps: nat, net: Net, f: Flow, len: nat, count: nat, n: nat, x: Wire)
    requires ps > 0 && (Multiple(count, ps) || Loose(ps, net, f, len)) && x in net
    requires n == ps || Ends(f, len, x)
    ensures Multiple(count + n, ps) || Loose(ps, net, f, len)
  {
    if Multiple(count, ps) && n == ps {
      SumOfMultiples(count, ps, ps);
    }
  }

  lemma TargetFit(cfg: Config, net: Net, f: Flow, data: seq<Byte>, m: R.InMsg)
    requires InFit(cfg, net, f, data, m)
    ensures EndFit(cfg, net, f, |data|, R.Target(cfg, m))
  {
    if Multiple(m.receivedBytes, cfg.packetSize) {
      RemSum(m.receivedBytes, cfg.grantIncrement, cfg.packetSize);
    }
  }

  /** Credit that is backed is announced, and ends where credit can end. */
  lemma BackedFit(cfg: Config, net: Net, net': Net, f: Flow, data: seq<Byte>, m: R.InMsg, acts: seq<Action>, credit: nat)
    requires InFit(cfg, net, f, data, m) && net <= net' && Emitted(f.dst, acts) <= net'
    requires Backed(cfg, acts, Key(f.src, f.id), m, credit)
    ensures Credited(cfg, net', f, credit) && EndFit(cfg, net', f, |data|, credit)
  {
    TargetFit(cfg, net, f, data, m);
    EndFitMonotone(cfg, net, net', f, |data|, credit);
    if credit == m.grantedTo {
      CreditedMonotone(cfg, net, net', f, credit, credit);
    } else {
      var a :| a in acts && a.Send? && KeyOf(a) == Key(f.src, f.id) && IsGrant(cfg, m, a.dgram.pkt);
      var g := Wire(f.dst, a.dest, a.dgram);
      assert g in Emitted(f.dst, acts) && GrantsUpTo(f, g, credit);
    }
  }

  lemma RegrantedFit(cfg: Config, net: Net, net': Net, f: Flow, data: seq<Byte>, m: R.InMsg, acts: seq<Action>, m': R.InMsg)
    requires InFit(cfg, net, f, data, m) && net <= net' && Emitted(f.dst, acts) <= net'
    requires Regranted(cfg, acts, Key(f.src, f.id), m, m')
    ensures InFit(cfg, net', f, data, m')
  {
    hide Credited, EndFit, Loose, MarkedBytes, Emitted, R.ChunkCount;
    InFitMonotone(cfg, net, net', f, data, m);
    BackedFit(cfg, net, net', f, data, m, acts, m'.grantedTo);
  }

  /** A request stays inside the credit, and ends where credit can end. */
  lemma RangeFit(cfg: Config, net: Net, f: Flow, len: nat, off: nat, credit: nat)
    requires EndFit(cfg, net, f, len, credit) && Credited(cfg, net, f, credit)
    requires Multiple(off, cfg.packetSize) && off < credit
    ensures var end := off + Min(credit - off, cfg.grantIncrement);
      EndFit(cfg, net, f, len, end) && Credited(cfg, net, f, end)
  {
    RemSum(off, cfg.grantIncrement, cfg.packetSize);
    CreditedMonotone(cfg, net, net, f, credit, off + Min(credit - off, cfg.grantIncrement));
  }

  lemma IsResendFit(cfg: Config, net: Net, net': Net, f: Flow, data: seq<Byte>, m: R.InMsg, acts: seq<Action>, pkt: Packet)
    requires InFit(cfg, net, f, data, m) && net <= net' && Emitted(f.dst, acts) <= net'
    requires IsResend(cfg, acts, Key(f.src, f.id), m, pkt)
    ensures ResendFit(cfg, net', f, |data|, pkt)
  {
    hide Credited, Backed, Emitted, Loose, MarkedBytes, Shifted;
    var gap := R.FirstMissing(m.received, 0).value;
    var off := ChunkStart(cfg.packetSize, gap);
    var credit: nat :| Backed(cfg, acts, Key(f.src, f.id), m, credit) && ResendWithin(cfg, off, credit, pkt.length);
    BackedFit(cfg, net, net', f, data, m, acts, credit);
    ChunkStartDivides(cfg.packetSize, gap);
    RangeFit(cfg, net', f, |data|, off, credit);
    assert pkt.offset == off && pkt.length == Min(credit - off, cfg.grantIncrement);
  }
}
