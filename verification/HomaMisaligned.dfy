/** What goes wrong when credit does not grow by whole packets. Under every such configuration that
    leaves room for the message there is a run, on a clock that never goes back, in which a receiver
    hands out bytes nobody sent.

    The unscheduled window fills the first WindowChunks chunks. A lost grant makes the receiver ask for the octets
    up to its credit, which ends at Stop, inside chunk Last. Answering puts the sender's position at Stop.
    The chunks up to Last arrive, credit is extended to the end of the message, one packet past Stop, and
    the sender sends [Stop, Stop + packetSize) as one packet: the stray. The receiver asks for the last
    chunk, hears nothing until it gives up, and then the network repeats what it holds: the stray,
    which is taken for chunk Last, the chunks before it, and the last chunk. The byte count is full
    and the octets of chunk Last before Stop were never written. */
module HomaMisaligned {
  import opened Bytes
  import opened Chunks
  import opened HomaPacket
  import opened HomaTypes
  import S = HomaSender
  import opened R = HomaReceiver
  import opened HomaFlow
  import opened HomaReassembly
  import HomaBase
  import opened HomaWorld
  import opened HomaBaseSteps
  import opened HomaRun
  import opened HomaSolo
  import opened HomaSoloRun

  // ----- sizes -----

  /** How many chunks the unscheduled window reaches into, and at least one. */
  function WindowChunks(cfg: Config): (n: nat)
    ensures n >= 1
  {
    ChunkCount(cfg.unscheduledBytes, cfg.packetSize)
  }

  /** Where credit ends once got octets are there, if it ended at c before. */
  function Raised(cfg: Config, c: nat, got: nat): nat {
    if (if c >= got then c - got else 0) < cfg.grantIncrement / 2 then Max(got + cfg.grantIncrement, c) else c
  }

  /** Where credit ends once the first i chunks have arrived, in order. */
  function Credit(cfg: Config, i: nat): nat {
    if i == 0 then cfg.unscheduledBytes else Raised(cfg, Credit(cfg, i - 1), ChunkStart(cfg.packetSize, i))
  }

  /** The first credit end past the unscheduled chunks. */
  function Stop(cfg: Config): nat {
    var c, start := Credit(cfg, WindowChunks(cfg)), ChunkStart(cfg.packetSize, WindowChunks(cfg));
    if c > start then c else start + cfg.grantIncrement
  }

  /** The chunk Stop lies in. */
  function Last(cfg: Config): nat {
    Quot(Stop(cfg), cfg.packetSize)
  }

  function Len(cfg: Config): nat {
    Stop(cfg) + cfg.packetSize
  }

  /** A message without a zero in it. */
  function Payload(cfg: Config): (data: seq<Byte>)
    ensures |data| == Len(cfg)
  {
    seq(Len(cfg), _ => 1)
  }

  /** A receiver takes messages, and takes one that goes a grant and a packet past the unscheduled chunks. */
  predicate Roomy(cfg: Config) {
    cfg.maxIncoming >= 1 && ChunkStart(cfg.packetSize, WindowChunks(cfg)) + cfg.grantIncrement + cfg.packetSize <= MAX_MSG_LEN
  }

  lemma {:induction false} CreditBounds(cfg: Config, i: nat)
    ensures cfg.unscheduledBytes <= Credit(cfg, i) <= Max(cfg.unscheduledBytes, ChunkStart(cfg.packetSize, i) + cfg.grantIncrement)
    ensures Credit(cfg, i) == cfg.unscheduledBytes || Rem(Credit(cfg, i), cfg.packetSize) == Rem(cfg.grantIncrement, cfg.packetSize)
  {
    hide Rem, Quot, ChunkStart;
    if i > 0 {
      CreditBounds(cfg, i - 1);
      ChunkStartGap(cfg.packetSize, i - 1, i);
      ChunkStartDivides(cfg.packetSize, i);
      RemSum(ChunkStart(cfg.packetSize, i), cfg.grantIncrement, cfg.packetSize);
    }
  }

  lemma {:induction false} CreditGrows(cfg: Config, i: nat, j: nat)
    requires i <= j
    ensures Credit(cfg, i) <= Credit(cfg, j)
  {
    if i < j { CreditGrows(cfg, i, j - 1); }
  }

  /** The unscheduled window ends inside its chunks. */
  lemma WindowFits(cfg: Config)
    ensures cfg.unscheduledBytes <= ChunkStart(cfg.packetSize, WindowChunks(cfg))
    ensures cfg.unscheduledBytes > 0 ==> ChunkStart(cfg.packetSize, WindowChunks(cfg) - 1) < cfg.unscheduledBytes
  {
    if cfg.unscheduledBytes > 0 { ChunkCountBounds(cfg.packetSize, cfg.unscheduledBytes); }
  }

  /** Stop lies off the grid, past the unscheduled chunks and within one grant of them. */
  lemma WhereStop(cfg: Config)
    requires !Aligned(cfg)
    ensures ChunkStart(cfg.packetSize, WindowChunks(cfg)) < Stop(cfg) <= ChunkStart(cfg.packetSize, WindowChunks(cfg)) + cfg.grantIncrement
    ensures 0 < Rem(Stop(cfg), cfg.packetSize) == Rem(cfg.grantIncrement, cfg.packetSize) <= cfg.grantIncrement
  {
    var ps, a := cfg.packetSize, WindowChunks(cfg);
    WindowFits(cfg);
    CreditBounds(cfg, a);
    ChunkStartDivides(ps, a);
    RemSum(ChunkStart(ps, a), cfg.grantIncrement, ps);
    assert Rem(0, ps) == 0;
  }

  /** The message ends in the chunk after Last, as far into it as Stop is into Last. */
  lemma Sizes(cfg: Config)
    requires !Aligned(cfg)
    ensures 1 <= WindowChunks(cfg) <= Last(cfg)
    ensures var ps, k := cfg.packetSize, Last(cfg);
      && ChunkStart(ps, k) < Stop(cfg) < ChunkStart(ps, k) + ps == ChunkStart(ps, k + 1) < Len(cfg) < ChunkStart(ps, k + 1) + ps
      && Len(cfg) - ChunkStart(ps, k + 1) <= cfg.grantIncrement
      && ChunkCount(Len(cfg), ps) == k + 2
  {
    hide Stop, WindowChunks, Rem, Quot, ChunkCount, Aligned;
    var ps, k := cfg.packetSize, Last(cfg);
    WhereStop(cfg);
    ChunkOf(Stop(cfg), ps);
    assert ChunkStart(ps, k) + Rem(Stop(cfg), ps) == Stop(cfg);
    if k < WindowChunks(cfg) { ChunkStartGap(ps, k, WindowChunks(cfg)); }
    ChunkCountBounds(ps, Len(cfg));
    var n := ChunkCount(Len(cfg), ps);
    if n < k + 2 { ChunkStartGap(ps, n, k + 1); }
    if n > k + 2 { ChunkStartGap(ps, k + 1, n - 1); }
  }

  /** Until the unscheduled chunks are there credit never reaches past Stop, so the length does not cut it. */
  lemma CreditBelowStop(cfg: Config, i: nat)
    requires !Aligned(cfg) && i <= WindowChunks(cfg)
    ensures Credit(cfg, i) <= Stop(cfg)
  {
    CreditGrows(cfg, i, WindowChunks(cfg));
    WhereStop(cfg);
  }

  // ----- packets -----

  function Chunk(cfg: Config, i: nat): Datagram
    requires ChunkStart(cfg.packetSize, i) <= Len(cfg)
  {
    ChunkDatagram(cfg.packetSize, Payload(cfg), 1, ChunkStart(cfg.packetSize, i))
  }

  /** The packet that starts off the grid. */
  function Stray(cfg: Config): Datagram {
    DataDatagram(Payload(cfg), 1, Stop(cfg), Len(cfg))
  }

  /** The receiver's record of the message, of the right size. */
  ghost predicate Shape(cfg: Config, m: InMsg, t: Time) {
    && m.totalLen == |m.buf| == Len(cfg)
    && |m.received| == Last(cfg) + 2
    && m.lastProgress <= t
  }

  /** How credit moves when got octets are there, cut to the message. */
  function Cut(cfg: Config, c: nat, got: nat): nat {
    if (if c >= got then c - got else 0) < cfg.grantIncrement / 2 then Max(Min(got + cfg.grantIncrement, Len(cfg)), c) else c
  }

  lemma NewShape(cfg: Config, now: Time)
    requires !Aligned(cfg)
    ensures var m := NewMsg(cfg, Len(cfg), now);
      Shape(cfg, m, now) && m.receivedBytes == 0 && m.grantedTo == cfg.unscheduledBytes && m.unansweredResends == 0
      && m.received == seq(Last(cfg) + 2, _ => false) && m.buf == seq(Len(cfg), _ => 0)
  {
    Sizes(cfg);
    WhereStop(cfg);
    WindowFits(cfg);
    hide ChunkCount, Stop, Last, WindowChunks;
  }

  lemma ExtendedShape(cfg: Config, m: InMsg, t: Time, now: Time)
    requires Shape(cfg, m, t)
    ensures var m' := Extended(cfg, m, now);
      && Shape(cfg, m', t) && !Extends(cfg, m', false)
      && m'.buf == m.buf && m'.received == m.received && m'.receivedBytes == m.receivedBytes
      && m'.unansweredResends == m.unansweredResends
      && m'.grantedTo == Cut(cfg, m.grantedTo, m.receivedBytes)
  {
  }

  /** Taking in the packet that carries [s, e) as chunk idx. */
  lemma StoreIs(cfg: Config, m: InMsg, t: Time, s: nat, e: nat, idx: nat)
    requires Shape(cfg, m, t) && s <= e <= Len(cfg) < TWO32 && Quot(s, cfg.packetSize) == idx < |m.received| && !m.received[idx]
    ensures var d := DataDatagram(Payload(cfg), 1, s, e);
      && d.pkt.typ == Data && d.pkt.msgId == 1 && d.pkt.msgLen == Len(cfg)
      && Fits(cfg, m, d)
      && var m' := Store(cfg, m, d, t);
         && Shape(cfg, m', t) && m'.unansweredResends == 0 && m'.grantedTo == m.grantedTo
         && m'.received == m.received[idx := true]
         && m'.receivedBytes == m.receivedBytes + (e - s)
         && forall j :: 0 <= j < Len(cfg) && !(s <= j < e) ==> m'.buf[j] == m.buf[j]
  {
    hide Quot, Len, Last, Payload;
  }

  lemma StoreChunk(cfg: Config, m: InMsg, t: Time, i: nat)
    requires !Aligned(cfg) && Shape(cfg, m, t) && Len(cfg) < TWO32 && i <= Last(cfg) + 1 && !m.received[i]
    ensures ChunkStart(cfg.packetSize, i) <= Len(cfg)
    ensures var c, d := ChunkStart(cfg.packetSize, i), Chunk(cfg, i);
      && d.pkt.typ == Data && d.pkt.msgId == 1 && d.pkt.msgLen == Len(cfg)
      && Fits(cfg, m, d)
      && var m' := Store(cfg, m, d, t);
         && Shape(cfg, m', t) && m'.unansweredResends == 0 && m'.grantedTo == m.grantedTo
         && m'.received == m.received[i := true]
         && m'.receivedBytes == m.receivedBytes + (Min(c + cfg.packetSize, Len(cfg)) - c)
         && forall j :: 0 <= j < Len(cfg) && !(c <= j < c + cfg.packetSize) ==> m'.buf[j] == m.buf[j]
  {
    hide Len, Last, Stop, WindowChunks, Payload, Fits, Store, Quot, ChunkStart, ChunkCount, Rem, Aligned, DataDatagram;
    var ps, k := cfg.packetSize, Last(cfg);
    Sizes(cfg);
    ChunkStartGap(ps, i, k + 1);
    ChunkStartDivides(ps, i);
    var c := ChunkStart(ps, i);
    StoreIs(cfg, m, t, c, Min(c + ps, Len(cfg)), i);
  }

  // ----- chunks in order -----

  /** The first i chunks have arrived and nothing else. */
  ghost predicate Got(cfg: Config, m: InMsg, i: nat, t: Time) {
    && Shape(cfg, m, t)
    && m.receivedBytes == ChunkStart(cfg.packetSize, i)
    && forall j :: 0 <= j < |m.received| ==> (m.received[j] <==> j < i)
  }

  ghost predicate HasChunks(cfg: Config, net: Net, lo: nat, hi: nat) {
    forall i: nat :: lo <= i < hi && ChunkStart(cfg.packetSize, i) <= Len(cfg) ==> Wire(0, 1, Chunk(cfg, i)) in net
  }

  /** Storing chunk i after the first i. */
  lemma StoreNext(cfg: Config, m: InMsg, t: Time, i: nat)
    requires !Aligned(cfg) && Got(cfg, m, i, t) && Len(cfg) < TWO32 && i <= Last(cfg)
    ensures ChunkStart(cfg.packetSize, i) <= Len(cfg)
    ensures var d := Chunk(cfg, i);
      && d.pkt.typ == Data && d.pkt.msgId == 1 && d.pkt.msgLen == Len(cfg)
      && Fits(cfg, m, d)
      && var m' := Store(cfg, m, d, t);
         && Got(cfg, m', i + 1, t) && m'.unansweredResends == 0 && m'.grantedTo == m.grantedTo && !m'.Complete()
  {
    hide Len, Last, Stop, WindowChunks, Fits, Store, Chunk, ChunkCount, Quot, Rem, Aligned;
    var ps, k := cfg.packetSize, Last(cfg);
    Sizes(cfg);
    ChunkStartGap(ps, i + 1, k + 1);
    StoreChunk(cfg, m, t, i);
  }

  /** The first chunk arrives. */
  lemma FirstArrives(cfg: Config, w: World, t: Time, o: S.OutMsg) returns (w': World, s': ReceiverState, m': InMsg)
    requires !Aligned(cfg) && Roomy(cfg) && At(cfg, w, t, o, Empty) && Wire(0, 1, Chunk(cfg, 0)) in w.net
    ensures At(cfg, w', t, o, s') && Solo(s', m', [K]) && Got(cfg, m', 1, t) && w.net <= w'.net
    ensures m'.grantedTo == Credit(cfg, 1) && m'.unansweredResends == 0 && !Extends(cfg, m', false)
  {
    hide Len, Last, WindowChunks, Fits, Store, Chunk, NewMsg, Extended, Extends, HandleData, Admissible, At, Cut, Stop, ChunkCount, Aligned;
    var d, m := Chunk(cfg, 0), NewMsg(cfg, Len(cfg), t);
    Fitting(cfg);
    NewShape(cfg, t);
    StoreNext(cfg, m, t, 0);
    CutIsCredit(cfg, 1);
    FirstIs(cfg, Empty, d, t);
    ExtendedShape(cfg, Store(cfg, m, d, t), t, t);
    m' := Extended(cfg, Store(cfg, m, d, t), t);
    s' := HandleData(cfg, Empty, 0, d, [K], t).0;
    w' := DataArrives(cfg, w, t, o, Empty, d);
  }

  /** The message fits. */
  lemma Fitting(cfg: Config)
    requires !Aligned(cfg) && Roomy(cfg)
    ensures cfg.unscheduledBytes < Stop(cfg) < Len(cfg) <= MAX_MSG_LEN < TWO32
  {
    WhereStop(cfg);
    WindowFits(cfg);
  }

  lemma CutIsCredit(cfg: Config, i: nat)
    requires !Aligned(cfg) && 1 <= i <= WindowChunks(cfg)
    ensures Cut(cfg, Credit(cfg, i - 1), ChunkStart(cfg.packetSize, i)) == Credit(cfg, i)
  {
    CreditBelowStop(cfg, i);
  }

  /** A later chunk arrives, in its turn. */
  lemma ChunkArrives(cfg: Config, w: World, t: Time, o: S.OutMsg, s: ReceiverState, m: InMsg, i: nat)
    returns (w': World, s': ReceiverState, m': InMsg)
    requires !Aligned(cfg) && Roomy(cfg) && At(cfg, w, t, o, s) && Solo(s, m, [K]) && Got(cfg, m, i, t)
    requires i <= Last(cfg) && HasChunks(cfg, w.net, i, i + 1)
    ensures At(cfg, w', t, o, s') && Solo(s', m', [K]) && Got(cfg, m', i + 1, t) && w.net <= w'.net
    ensures m'.grantedTo == Cut(cfg, m.grantedTo, ChunkStart(cfg.packetSize, i + 1))
    ensures m'.unansweredResends == 0 && !Extends(cfg, m', false)
  {
    hide Len, Last, WindowChunks, Fits, Store, Chunk, Extended, Extends, HandleData, Admissible, At, Cut, Stop, Solo, ChunkCount, Aligned;
    Fitting(cfg);
    StoreNext(cfg, m, t, i);
    var d := Chunk(cfg, i);
    DataIs(cfg, s, m, d, t);
    ExtendedShape(cfg, Store(cfg, m, d, t), t, t);
    m' := Extended(cfg, Store(cfg, m, d, t), t);
    s' := HandleData(cfg, s, 0, d, [K], t).0;
    w' := DataArrives(cfg, w, t, o, s, d);
  }

  /** The unscheduled chunks arrive. */
  lemma {:induction false} WindowArrives(cfg: Config, w: World, t: Time, o: S.OutMsg, i: nat)
    returns (w': World, s': ReceiverState, m': InMsg)
    requires !Aligned(cfg) && Roomy(cfg) && At(cfg, w, t, o, Empty) && 1 <= i <= WindowChunks(cfg) && HasChunks(cfg, w.net, 0, i)
    ensures At(cfg, w', t, o, s') && Solo(s', m', [K]) && Got(cfg, m', i, t) && w.net <= w'.net
    ensures m'.grantedTo == Credit(cfg, i) && m'.unansweredResends == 0 && !Extends(cfg, m', false)
  {
    hide Len, Last, Chunk, Extends, At, Cut, Stop, Solo, Got, Credit, Roomy, Aligned;
    if i == 1 {
      assert Wire(0, 1, Chunk(cfg, 0)) in w.net;
      w', s', m' := FirstArrives(cfg, w, t, o);
    } else {
      var w1, s1, m1 := WindowArrives(cfg, w, t, o, i - 1);
      Sizes(cfg);
      CutIsCredit(cfg, i);
      w', s', m' := ChunkArrives(cfg, w1, t, o, s1, m1, i - 1);
    }
  }

  // ----- the sender -----

  /** The sender waits for credit, short of Stop. */
  ghost predicate Waiting(cfg: Config, o: S.OutMsg) {
    o.data == Payload(cfg) && o.nextSend < Stop(cfg) && o.grantedTo <= Stop(cfg) && o.doneAt.None?
  }

  /** The chunks among what the sender puts out. */
  lemma ChunksOut(cfg: Config, net: Net, lo: nat, hi: nat, from: nat, upTo: nat, acts: seq<Action>)
    requires !Aligned(cfg) && hi <= Last(cfg) + 2 && AreChunksIn(cfg.packetSize, SK, Payload(cfg), from, upTo, acts)
    requires from < upTo && from <= ChunkStart(cfg.packetSize, lo)
    requires hi > 0 ==> ChunkStart(cfg.packetSize, hi - 1) < upTo
    requires Emitted(0, acts) <= net
    ensures HasChunks(cfg, net, lo, hi)
  {
    var ps, data := cfg.packetSize, Payload(cfg);
    Sizes(cfg);
    hide Stop, Last, Len;
    forall i: nat | lo <= i < hi && ChunkStart(ps, i) <= Len(cfg) ensures Wire(0, 1, Chunk(cfg, i)) in net {
      ChunkStartDivides(ps, i);
      ChunkStartGap(ps, lo, i);
      ChunkStartGap(ps, i, hi - 1);
      ChunkStartGap(ps, i, Last(cfg) + 1);
      assert Overlaps(ps, data, from, upTo, ChunkStart(ps, i));
      var a := ChunkAct(ps, SK, data, ChunkStart(ps, i));
      assert a in acts && Wire(0, a.dest, a.dgram) in Emitted(0, acts);
    }
  }

  /** Pumping the unscheduled window ends with its chunks. */
  lemma PumpsWindow(cfg: Config)
    requires !Aligned(cfg) && Roomy(cfg) && 0 < cfg.unscheduledBytes <= Len(cfg)
    ensures S.PumpEnd(0, cfg.unscheduledBytes, cfg.packetSize, Len(cfg)) <= ChunkStart(cfg.packetSize, WindowChunks(cfg))
  {
    var ps, u := cfg.packetSize, cfg.unscheduledBytes;
    Fitting(cfg);
    WindowFits(cfg);
    hide WindowChunks, Stop, Len, ChunkStart, S.PumpEnd;
    var c := HomaBase.PumpStops(0, u, ps, Len(cfg));
    assert Rem(0, ps) == 0;
    ChunkStartDivides(ps, WindowChunks(cfg));
    MultipleGap(c, ChunkStart(ps, WindowChunks(cfg)), ps);
  }

  lemma FreshWaits(cfg: Config, o: S.OutMsg)
    requires !Aligned(cfg) && Roomy(cfg)
    requires o == S.Pumped(cfg, S.Fresh(cfg, Payload(cfg), 0, false), cfg.unscheduledBytes, 0)
    ensures Waiting(cfg, o) && o.lastProgress == 0 && (cfg.unscheduledBytes == 0 ==> o.nextSend == 0)
  {
    hide WindowChunks, Stop, Len, ChunkStart, Payload;
    Fitting(cfg);
    WhereStop(cfg);
    if cfg.unscheduledBytes > 0 {
      hide S.PumpEnd;
      PumpsWindow(cfg);
    }
  }

  /** The message is submitted and its unscheduled chunks, or at least the first, are on their way. */
  lemma Begins(cfg: Config) returns (w: World, t: Time, o: S.OutMsg)
    requires !Aligned(cfg) && Roomy(cfg)
    ensures At(cfg, w, t, o, Empty) && Waiting(cfg, o) && HasChunks(cfg, w.net, 0, WindowChunks(cfg))
  {
    hide At, Stop, Last, WindowChunks, Len, Payload, HasChunks, Aligned, Roomy, ChunkStart, S.Pumped, S.PumpSends,
         S.TickMsgSends, AreChunksIn, Emitted;
    var ps, u, data := cfg.packetSize, cfg.unscheduledBytes, Payload(cfg);
    Fitting(cfg);
    var w0 := Submitted(cfg, data);
    var o0 := S.Pumped(cfg, S.Fresh(cfg, data, 0, false), u, 0);
    FreshWaits(cfg, o0);
    if u > 0 {
      WindowFits(cfg);
      Sizes(cfg);
      PumpSendsChunks(ps, SK, data, 0, u);
      assert ChunkStart(ps, 0) == 0 by { ChunkStartIsProduct(ps, 0); }
      ChunksOut(cfg, w0.net, 0, WindowChunks(cfg), 0, u, S.PumpSends(SK, data, 0, u, ps));
      w, t, o := w0, 0, o0;
    } else {
      t, o := cfg.pokeTimeout, o0.(lastProgress := cfg.pokeTimeout);
      w := SenderPokes(cfg, w0, 0, o0, Empty, t);
      FirstPoke(cfg, o0, t, w.net);
    }
  }

  lemma FirstPoke(cfg: Config, o: S.OutMsg, t: Time, net: Net)
    requires cfg.unscheduledBytes == 0 && o.data == Payload(cfg) && o.nextSend == 0 && S.Pokes(cfg, o, t)
    requires Emitted(0, S.TickMsgSends(cfg, SK, o, t)) <= net
    ensures HasChunks(cfg, net, 0, WindowChunks(cfg))
  {
    var a := Send(1, Chunk(cfg, 0));
    assert FloorTo(0, cfg.packetSize) == 0;
    assert S.TickMsgSends(cfg, SK, o, t) == [a];
    assert Wire(0, a.dest, a.dgram) in Emitted(0, [a]);
    assert WindowChunks(cfg) == 1;
  }

  lemma AnswerIs(cfg: Config, o: S.OutMsg, pkt: Packet)
    requires pkt.offset + pkt.length <= |o.data|
    ensures S.AnswerSends(cfg, SK, o, pkt) == S.ResendSends(SK, o.data, pkt.offset, pkt.offset + pkt.length, cfg.packetSize)
  {
  }

  /** A request for [start of chunk lo, end) puts the chunks it touches on the network. */
  lemma Answers(cfg: Config, w: World, t: Time, o: S.OutMsg, s: ReceiverState, d: Datagram, lo: nat, hi: nat) returns (w': World)
    requires !Aligned(cfg) && At(cfg, w, t, o, s) && o.data == Payload(cfg) && lo < hi <= Last(cfg) + 2
    requires Wire(1, 0, d) in w.net && d.pkt.typ == Resend && d.pkt.msgId == 1
    requires d.pkt.offset == ChunkStart(cfg.packetSize, lo) && ChunkStart(cfg.packetSize, hi - 1) < d.pkt.offset + d.pkt.length <= Len(cfg)
    ensures At(cfg, w', t, S.Answered(o, d.pkt, t), s) && w.net <= w'.net && HasChunks(cfg, w'.net, lo, hi)
  {
    hide *;
    var ps, end := cfg.packetSize, d.pkt.offset + d.pkt.length;
    ChunkStartGap(ps, lo, hi - 1);
    AnswerIs(cfg, o, d.pkt);
    w' := ResendArrives(cfg, w, t, o, s, d);
    ResendSendsChunks(ps, SK, o.data, d.pkt.offset, end);
    ChunksOut(cfg, w'.net, lo, hi, d.pkt.offset, end, S.AnswerSends(cfg, SK, o, d.pkt));
  }

  // ----- the receiver's ticks -----

  lemma GapIs(cfg: Config, m: InMsg, i: nat, t: Time)
    requires Got(cfg, m, i, t) && i < |m.received|
    ensures FirstMissing(m.received, 0) == Some(i)
  {
    assert !m.received[i];
  }

  lemma AskedIs(cfg: Config, m: InMsg, now: Time)
    ensures !Extends(cfg, m, false) ==> Extended(cfg, Asked(m, now), now) == Asked(m, now)
  {
  }

  /** The receiver asks for what is missing below its credit. */
  lemma Asks(cfg: Config, w: World, t: Time, o: S.OutMsg, s: ReceiverState, m: InMsg, g: seq<Key>, i: nat)
    returns (w': World, t': Time, s': ReceiverState, d: Datagram)
    requires At(cfg, w, t, o, s) && Solo(s, m, g) && Got(cfg, m, i, t) && i < |m.received|
    requires ChunkStart(cfg.packetSize, i) < m.grantedTo <= Len(cfg) < TWO32
    requires m.unansweredResends < MAX_UNANSWERED_RESENDS && (m.NeedsCredit() ==> !Extends(cfg, m, false))
    ensures t <= t' && At(cfg, w', t', o, s') && Solo(s', Asked(m, t'), if m.NeedsCredit() then [K] else [])
    ensures Got(cfg, Asked(m, t'), i, t') && w.net <= w'.net
    ensures Wire(1, 0, d) in w'.net && d.pkt.typ == Resend && d.pkt.msgId == 1
    ensures d.pkt.offset == ChunkStart(cfg.packetSize, i)
    ensures d.pkt.length == Min(m.grantedTo - ChunkStart(cfg.packetSize, i), cfg.grantIncrement)
  {
    t' := t + cfg.resendTimeout + cfg.grantTimeout;
    GapIs(cfg, m, i, t);
    var a := AskFor(cfg, m);
    d := a.dgram;
    AskedIs(cfg, m, t');
    hide Len, Last, FirstMissing, ChunkStart, At, Extended, R.Tick, Extends, Solo;
    AskIs(cfg, s, m, g, t');
    s' := R.Tick(cfg, s, [K], t').0;
    w' := ReceiverTicks(cfg, w, t, o, s, t');
    assert Wire(1, a.dest, a.dgram) in Emitted(1, R.Tick(cfg, s, [K], t').1);
  }

  lemma GotKept(cfg: Config, m: InMsg, m': InMsg, i: nat, t: Time, t': Time)
    requires Got(cfg, m, i, t) && m'.lastProgress <= t'
    requires m'.totalLen == m.totalLen && m'.buf == m.buf && m'.received == m.received && m'.receivedBytes == m.receivedBytes
    ensures Got(cfg, m', i, t')
  {
    hide Len, Last, ChunkStart;
  }

  lemma ForcedIs(cfg: Config, s: ReceiverState, m: InMsg, now: Time)
    requires Solo(s, m, [K]) && Stale(cfg, m, now) && !GapBelow(cfg, m)
    ensures var m' := m.(lastProgress := now, grantedTo := Target(cfg, m), lastGrant := now);
      !Extends(cfg, m', false) && Solo(R.Tick(cfg, s, [K], now).0, m', if m'.NeedsCredit() then [K] else [])
  {
    var m' := m.(lastProgress := now, grantedTo := Target(cfg, m), lastGrant := now);
    assert !Extends(cfg, m', false);
    assert Extended(cfg, m', now) == m';
    hide Extended, Solo, R.Tick, GapBelow;
    ForceIs(cfg, s, m, now);
  }

  /** With nothing missing below the credit, the receiver extends it. */
  lemma Forces(cfg: Config, w: World, t: Time, o: S.OutMsg, s: ReceiverState, m: InMsg, i: nat)
    returns (w': World, t': Time, s': ReceiverState, m': InMsg)
    requires At(cfg, w, t, o, s) && Solo(s, m, [K]) && Got(cfg, m, i, t) && i < |m.received|
    requires m.grantedTo <= ChunkStart(cfg.packetSize, i)
    ensures t <= t' && At(cfg, w', t', o, s') && Solo(s', m', if m'.NeedsCredit() then [K] else [])
    ensures Got(cfg, m', i, t') && m'.unansweredResends == m.unansweredResends && w.net <= w'.net
    ensures m'.grantedTo == Max(Min(ChunkStart(cfg.packetSize, i) + cfg.grantIncrement, Len(cfg)), m.grantedTo)
    ensures !Extends(cfg, m', false)
  {
    hide Len, Last, FirstMissing, ChunkStart, At, R.Tick, Extends, NewMsg;
    t' := t + cfg.resendTimeout + cfg.grantTimeout;
    GapIs(cfg, m, i, t);
    m' := m.(lastProgress := t', grantedTo := Target(cfg, m), lastGrant := t');
    GotKept(cfg, m, m', i, t, t');
    ForcedIs(cfg, s, m, t');
    s' := R.Tick(cfg, s, [K], t').0;
    w' := ReceiverTicks(cfg, w, t, o, s, t');
  }

  /** The unscheduled chunks are there; credit is extended if it must be, and the receiver asks for the
      octets up to Stop. */
  lemma AsksUpToStop(cfg: Config, w: World, t: Time, o: S.OutMsg, s: ReceiverState, m: InMsg)
    returns (w': World, t': Time, s': ReceiverState, m': InMsg, d: Datagram)
    requires !Aligned(cfg) && Roomy(cfg) && At(cfg, w, t, o, s) && Solo(s, m, [K]) && Got(cfg, m, WindowChunks(cfg), t)
    requires m.grantedTo == Credit(cfg, WindowChunks(cfg)) && m.unansweredResends == 0 && !Extends(cfg, m, false)
    ensures t <= t' && At(cfg, w', t', o, s') && Solo(s', m', [K]) && Got(cfg, m', WindowChunks(cfg), t') && m'.grantedTo == Stop(cfg)
    ensures w.net <= w'.net && Wire(1, 0, d) in w'.net && d.pkt.typ == Resend && d.pkt.msgId == 1
    ensures d.pkt.offset == ChunkStart(cfg.packetSize, WindowChunks(cfg)) && d.pkt.offset + d.pkt.length == Stop(cfg)
  {
    hide At, Solo, Got, Extends, Stop, WindowChunks, Len, Last, Credit, ChunkStart, Aligned, Roomy;
    var w1, t1, s1, m1 := w, t, s, m;
    var start := ChunkStart(cfg.packetSize, WindowChunks(cfg));
    WhereStop(cfg);
    GotShape(cfg, m, WindowChunks(cfg), t);
    StopIs(cfg, m.grantedTo);
    if m.grantedTo <= start {
      w1, t1, s1, m1 := Forces(cfg, w, t, o, s, m, WindowChunks(cfg));
      GotShape(cfg, m1, WindowChunks(cfg), t1);
    }
    w', t', s', d := Asks(cfg, w1, t1, o, s1, m1, [K], WindowChunks(cfg));
    m' := Asked(m1, t');
  }

  lemma StopIs(cfg: Config, c: nat)
    requires c == Credit(cfg, WindowChunks(cfg))
    ensures var start := ChunkStart(cfg.packetSize, WindowChunks(cfg)); Stop(cfg) == if c > start then c else start + cfg.grantIncrement
  {
    hide Credit, WindowChunks, ChunkStart;
  }

  lemma GotShape(cfg: Config, m: InMsg, i: nat, t: Time)
    requires !Aligned(cfg) && Roomy(cfg) && Got(cfg, m, i, t) && i <= WindowChunks(cfg)
    ensures i < |m.received| && ChunkStart(cfg.packetSize, i) < Stop(cfg) < Len(cfg) < TWO32
    ensures Stop(cfg) <= ChunkStart(cfg.packetSize, WindowChunks(cfg)) + cfg.grantIncrement
    ensures m.grantedTo < Len(cfg) ==> m.NeedsCredit()
  {
    Fitting(cfg);
    Sizes(cfg);
    WhereStop(cfg);
    ChunkStartGap(cfg.packetSize, i, WindowChunks(cfg));
  }

  // ----- the stray is sent -----

  /** The sender has stopped at Stop. */
  ghost predicate AtStop(cfg: Config, o: S.OutMsg) {
    o.data == Payload(cfg) && o.nextSend == o.grantedTo == Stop(cfg) && o.doneAt.None?
  }

  /** The answer to the request up to Stop: the chunks up to Last. */
  lemma StopsThere(cfg: Config, w: World, t: Time, o: S.OutMsg, s: ReceiverState, d: Datagram) returns (w': World, o': S.OutMsg)
    requires !Aligned(cfg) && At(cfg, w, t, o, s) && Waiting(cfg, o)
    requires Wire(1, 0, d) in w.net && d.pkt.typ == Resend && d.pkt.msgId == 1
    requires d.pkt.offset == ChunkStart(cfg.packetSize, WindowChunks(cfg)) && d.pkt.offset + d.pkt.length == Stop(cfg)
    ensures At(cfg, w', t, o', s) && AtStop(cfg, o') && w.net <= w'.net && HasChunks(cfg, w'.net, WindowChunks(cfg), Last(cfg) + 1)
  {
    Sizes(cfg);
    o' := S.Answered(o, d.pkt, t);
    assert AtStop(cfg, o');
    hide *;
    w' := Answers(cfg, w, t, o, s, d, WindowChunks(cfg), Last(cfg) + 1);
  }

  lemma CutFull(cfg: Config, c: nat, i: nat)
    requires !Aligned(cfg) && WindowChunks(cfg) < i && (c == Stop(cfg) || c == Len(cfg))
    ensures var c' := Cut(cfg, c, ChunkStart(cfg.packetSize, i)); c' == Stop(cfg) || c' == Len(cfg)
  {
    WhereStop(cfg);
    ChunkStartGap(cfg.packetSize, WindowChunks(cfg), i);
  }

  /** The chunks from the unscheduled ones up to Last arrive. */
  lemma {:induction false} RestArrives(cfg: Config, w: World, t: Time, o: S.OutMsg, s: ReceiverState, m: InMsg, i: nat)
    returns (w': World, s': ReceiverState, m': InMsg)
    requires !Aligned(cfg) && Roomy(cfg) && At(cfg, w, t, o, s) && Solo(s, m, [K]) && Got(cfg, m, WindowChunks(cfg), t)
    requires m.grantedTo == Stop(cfg)
    requires WindowChunks(cfg) < i <= Last(cfg) + 1 && HasChunks(cfg, w.net, WindowChunks(cfg), i)
    ensures At(cfg, w', t, o, s') && Solo(s', m', [K]) && Got(cfg, m', i, t) && w.net <= w'.net
    ensures (m'.grantedTo == Stop(cfg) || m'.grantedTo == Len(cfg)) && m'.unansweredResends == 0
  {
    hide Len, Last, Chunk, At, Cut, Stop, Solo, Got, Roomy, Aligned, WindowChunks;
    var w1, s1, m1 := w, s, m;
    if i > WindowChunks(cfg) + 1 {
      w1, s1, m1 := RestArrives(cfg, w, t, o, s, m, i - 1);
    }
    CutFull(cfg, m1.grantedTo, i);
    w', s', m' := ChunkArrives(cfg, w1, t, o, s1, m1, i - 1);
  }

  /** Credit reaches the end of the message. */
  lemma CreditToEnd(cfg: Config, w: World, t: Time, o: S.OutMsg, s: ReceiverState, m: InMsg)
    returns (w': World, t': Time, s': ReceiverState, m': InMsg, g: seq<Key>)
    requires !Aligned(cfg) && At(cfg, w, t, o, s) && Solo(s, m, [K]) && Got(cfg, m, Last(cfg) + 1, t)
    requires (m.grantedTo == Stop(cfg) || m.grantedTo == Len(cfg)) && m.unansweredResends == 0
    ensures t <= t' && At(cfg, w', t', o, s') && Solo(s', m', g) && Got(cfg, m', Last(cfg) + 1, t') && w.net <= w'.net
    ensures m'.grantedTo == Len(cfg) && m'.unansweredResends == 0
  {
    Sizes(cfg);
    assert |m.received| == Last(cfg) + 2 by { hide Len, Last; }
    hide *;
    if m.grantedTo == Stop(cfg) {
      w', t', s', m' := Forces(cfg, w, t, o, s, m, Last(cfg) + 1);
      g := if m'.NeedsCredit() then [K] else [];
    } else {
      w', t', s', m', g := w, t, s, m, [K];
    }
  }

  /** The receiver's credit was announced. */
  lemma Announced(cfg: Config, w: World, t: Time, o: S.OutMsg, s: ReceiverState, m: InMsg, g: seq<Key>) returns (d: Datagram)
    requires !Aligned(cfg) && Roomy(cfg) && At(cfg, w, t, o, s) && Solo(s, m, g) && m.grantedTo == Len(cfg)
    ensures Wire(1, 0, d) in w.net && d.pkt.typ == Grant && d.pkt.msgId == 1 && d.pkt.offset >= Len(cfg)
  {
    Fitting(cfg);
    ReachedBase(cfg, w, t);
    hide Len, Stop, Reached;
    assert HostFit(cfg, w.net, w.sent, 1, w.hosts[1]);
    assert K in w.hosts[1].rcv.incoming;
    var x :| x in w.net && GrantsUpTo(F, x, Len(cfg));
    d := x.dgram;
  }

  /** The grant arrives, and the stray is on its way. */
  lemma SendsStray(cfg: Config, w: World, t: Time, o: S.OutMsg, s: ReceiverState, d: Datagram) returns (w': World, o': S.OutMsg)
    requires At(cfg, w, t, o, s) && AtStop(cfg, o)
    requires Wire(1, 0, d) in w.net && d.pkt.typ == Grant && d.pkt.msgId == 1 && d.pkt.offset >= Len(cfg)
    ensures At(cfg, w', t, o', s) && o'.data == Payload(cfg) && w.net <= w'.net && Wire(0, 1, Stray(cfg)) in w'.net
  {
    var data, a := Payload(cfg), Send(1, Stray(cfg));
    hide At, Stop;
    w' := GrantArrives(cfg, w, t, o, s, d);
    o' := S.Pumped(cfg, o, Len(cfg), t);
    assert S.PumpSends(SK, data, Len(cfg), Len(cfg), cfg.packetSize) == [];
    assert S.PumpSends(SK, data, Stop(cfg), Len(cfg), cfg.packetSize) == [a];
    assert Wire(0, a.dest, a.dgram) in Emitted(0, [a]);
  }

  /** The receiver asks for the last chunk, which the sender then sends. */
  lemma LastIsSent(cfg: Config, w: World, t: Time, o: S.OutMsg, s: ReceiverState, m: InMsg, g: seq<Key>)
    returns (w': World, t': Time, o': S.OutMsg, s': ReceiverState, m': InMsg, g': seq<Key>)
    requires !Aligned(cfg) && Roomy(cfg) && At(cfg, w, t, o, s) && o.data == Payload(cfg)
    requires Solo(s, m, g) && Got(cfg, m, Last(cfg) + 1, t) && m.grantedTo == Len(cfg) && m.unansweredResends == 0
    ensures t <= t' && At(cfg, w', t', o', s') && o'.data == Payload(cfg) && Solo(s', m', g') && w.net <= w'.net
    ensures Got(cfg, m', Last(cfg) + 1, t') && m'.grantedTo == Len(cfg) && m'.unansweredResends == 1
    ensures HasChunks(cfg, w'.net, Last(cfg) + 1, Last(cfg) + 2)
  {
    Sizes(cfg);
    Fitting(cfg);
    assert |m.received| == Last(cfg) + 2 && !m.NeedsCredit() by { hide Len, Last; }
    assert forall pkt, now :: S.Answered(o, pkt, now).data == o.data;
    hide *;
    var w1, t1, s1, d := Asks(cfg, w, t, o, s, m, g, Last(cfg) + 1);
    w' := Answers(cfg, w1, t1, o, s1, d, Last(cfg) + 1, Last(cfg) + 2);
    t', o', s', m', g' := t1, S.Answered(o, d.pkt, t1), s1, Asked(m, t1), if m.NeedsCredit() then [K] else [];
  }

  /** Nothing is heard, and the receiver gives the message up. */
  lemma {:induction false} GivesUp(cfg: Config, w: World, t: Time, o: S.OutMsg, s: ReceiverState, m: InMsg, g: seq<Key>)
    returns (w': World, t': Time, s': ReceiverState)
    requires !Aligned(cfg) && Roomy(cfg) && At(cfg, w, t, o, s) && Solo(s, m, g)
    requires Got(cfg, m, Last(cfg) + 1, t) && m.grantedTo == Len(cfg) && m.unansweredResends <= MAX_UNANSWERED_RESENDS
    ensures t <= t' && At(cfg, w', t', o, s') && Alone(s', map[]) && w.net <= w'.net
    decreases MAX_UNANSWERED_RESENDS - m.unansweredResends
  {
    Sizes(cfg);
    Fitting(cfg);
    assert |m.received| == Last(cfg) + 2 && !m.NeedsCredit() by { hide Len, Last; }
    if m.unansweredResends == MAX_UNANSWERED_RESENDS {
      GapIs(cfg, m, Last(cfg) + 1, t);
      t' := t + cfg.resendTimeout + cfg.grantTimeout;
      hide Len, Last, Stop, FirstMissing, ChunkStart, At, R.Tick;
      GiveUpIs(cfg, s, m, g, t');
      s' := R.Tick(cfg, s, [K], t').0;
      w' := ReceiverTicks(cfg, w, t, o, s, t');
    } else {
      hide *;
      var w1, t1, s1, d := Asks(cfg, w, t, o, s, m, g, Last(cfg) + 1);
      w', t', s' := GivesUp(cfg, w1, t1, o, s1, Asked(m, t1), if m.NeedsCredit() then [K] else []);
    }
  }

  // ----- the message is received once more, with the stray -----

  /** The stray and the first i chunks have arrived, and chunk Last still starts with a zero. */
  ghost predicate Refilled(cfg: Config, m: InMsg, i: nat, t: Time) {
    && Shape(cfg, m, t)
    && m.receivedBytes == ChunkStart(cfg.packetSize, i) + cfg.packetSize
    && (forall j :: 0 <= j < |m.received| ==> (m.received[j] <==> j < i || j == Last(cfg)))
    && ChunkStart(cfg.packetSize, Last(cfg)) < Len(cfg)
    && m.buf[ChunkStart(cfg.packetSize, Last(cfg))] == 0
  }

  lemma StoreStray(cfg: Config, t: Time)
    requires !Aligned(cfg) && Roomy(cfg)
    ensures var d, m := Stray(cfg), NewMsg(cfg, Len(cfg), t);
      && d.pkt.typ == Data && d.pkt.msgId == 1 && d.pkt.msgLen == Len(cfg)
      && Fits(cfg, m, d)
      && var m' := Store(cfg, m, d, t); Refilled(cfg, m', 0, t) && m'.NeedsCredit()
  {
    Sizes(cfg);
    Fitting(cfg);
    NewShape(cfg, t);
    assert Last(cfg) == Quot(Stop(cfg), cfg.packetSize);
    assert Len(cfg) == Stop(cfg) + cfg.packetSize;
    hide Len, Last, Stop, Fits, Store, NewMsg, Quot;
    StoreIs(cfg, NewMsg(cfg, Len(cfg), t), t, Stop(cfg), Len(cfg), Last(cfg));
  }

  lemma StrayArrives(cfg: Config, w: World, t: Time, o: S.OutMsg, s: ReceiverState)
    returns (w': World, s': ReceiverState, m': InMsg)
    requires !Aligned(cfg) && Roomy(cfg) && At(cfg, w, t, o, s) && Alone(s, map[]) && Wire(0, 1, Stray(cfg)) in w.net
    ensures At(cfg, w', t, o, s') && Solo(s', m', [K]) && Refilled(cfg, m', 0, t) && w.net <= w'.net
  {
    var d, m := Stray(cfg), NewMsg(cfg, Len(cfg), t);
    Fitting(cfg);
    StoreStray(cfg, t);
    hide Len, Last, Stop, Fits, Store, Stray, NewMsg, Extends, HandleData, Admissible, At;
    FirstIs(cfg, s, d, t);
    ExtendedShape(cfg, Store(cfg, m, d, t), t, t);
    m' := Extended(cfg, Store(cfg, m, d, t), t);
    s' := HandleData(cfg, s, 0, d, [K], t).0;
    w' := DataArrives(cfg, w, t, o, s, d);
  }

  lemma StoreAgain(cfg: Config, m: InMsg, t: Time, i: nat)
    requires !Aligned(cfg) && Refilled(cfg, m, i, t) && Len(cfg) < TWO32 && i < Last(cfg)
    ensures ChunkStart(cfg.packetSize, i) <= Len(cfg)
    ensures var d := Chunk(cfg, i);
      && d.pkt.typ == Data && d.pkt.msgId == 1 && d.pkt.msgLen == Len(cfg)
      && Fits(cfg, m, d)
      && var m' := Store(cfg, m, d, t); Refilled(cfg, m', i + 1, t) && !m'.Complete()
  {
    var ps, k := cfg.packetSize, Last(cfg);
    Sizes(cfg);
    ChunkStartGap(ps, i, k);
    ChunkStartGap(ps, i + 1, k);
    hide Len, Last, Fits, Store, Chunk;
    StoreChunk(cfg, m, t, i);
  }

  lemma ChunkAgain(cfg: Config, w: World, t: Time, o: S.OutMsg, s: ReceiverState, m: InMsg, i: nat)
    returns (w': World, s': ReceiverState, m': InMsg)
    requires !Aligned(cfg) && Roomy(cfg) && At(cfg, w, t, o, s) && Solo(s, m, [K]) && Refilled(cfg, m, i, t)
    requires i < Last(cfg) && HasChunks(cfg, w.net, i, i + 1)
    ensures At(cfg, w', t, o, s') && Solo(s', m', [K]) && Refilled(cfg, m', i + 1, t) && w.net <= w'.net
  {
    hide Len, Last, WindowChunks, Fits, Store, Chunk, Extended, Extends, HandleData, Admissible, At, Stop, Solo, ChunkCount, Aligned;
    Fitting(cfg);
    StoreAgain(cfg, m, t, i);
    var d := Chunk(cfg, i);
    DataIs(cfg, s, m, d, t);
    ExtendedShape(cfg, Store(cfg, m, d, t), t, t);
    m' := Extended(cfg, Store(cfg, m, d, t), t);
    s' := HandleData(cfg, s, 0, d, [K], t).0;
    w' := DataArrives(cfg, w, t, o, s, d);
  }

  /** The chunks before Last arrive. */
  lemma {:induction false} ChunksAgain(cfg: Config, w: World, t: Time, o: S.OutMsg, s: ReceiverState, m: InMsg, i: nat)
    returns (w': World, s': ReceiverState, m': InMsg)
    requires !Aligned(cfg) && Roomy(cfg) && At(cfg, w, t, o, s) && Solo(s, m, [K]) && Refilled(cfg, m, 0, t)
    requires i <= Last(cfg) && HasChunks(cfg, w.net, 0, i)
    ensures At(cfg, w', t, o, s') && Solo(s', m', [K]) && Refilled(cfg, m', i, t) && w.net <= w'.net
  {
    hide At, Solo, Refilled, Chunk, Last, Len, Aligned, Roomy;
    if i == 0 {
      w', s', m' := w, s, m;
    } else {
      var w1, s1, m1 := ChunksAgain(cfg, w, t, o, s, m, i - 1);
      w', s', m' := ChunkAgain(cfg, w1, t, o, s1, m1, i - 1);
    }
  }

  lemma StoreLast(cfg: Config, m: InMsg, t: Time)
    requires !Aligned(cfg) && Refilled(cfg, m, Last(cfg), t) && Len(cfg) < TWO32
    ensures ChunkStart(cfg.packetSize, Last(cfg) + 1) <= Len(cfg)
    ensures var d := Chunk(cfg, Last(cfg) + 1);
      && d.pkt.typ == Data && d.pkt.msgId == 1 && d.pkt.msgLen == Len(cfg)
      && Fits(cfg, m, d)
      && var m' := Store(cfg, m, d, t); m'.Complete() && |m'.buf| == Len(cfg) && m'.buf != Payload(cfg)
  {
    var ps, k := cfg.packetSize, Last(cfg);
    Sizes(cfg);
    assert Payload(cfg)[ChunkStart(ps, k)] == 1;
    hide Len, Last, Stop, Fits, Store, Chunk, Payload;
    StoreChunk(cfg, m, t, k + 1);
  }

  /** The last chunk arrives and the message is handed out, wrong. */
  lemma HandedOut(cfg: Config, w: World, t: Time, o: S.OutMsg, s: ReceiverState, m: InMsg) returns (w': World, buf: seq<Byte>)
    requires !Aligned(cfg) && Roomy(cfg) && At(cfg, w, t, o, s) && Solo(s, m, [K]) && Refilled(cfg, m, Last(cfg), t)
    requires HasChunks(cfg, w.net, Last(cfg) + 1, Last(cfg) + 2)
    ensures Reached(cfg, w', t) && F in w'.sent && w'.sent[F] == o.data
    ensures Delivery(F, buf) in w'.delivered && |buf| == Len(cfg) && buf != Payload(cfg)
  {
    Fitting(cfg);
    StoreLast(cfg, m, t);
    var d := Chunk(cfg, Last(cfg) + 1);
    hide Len, Last, Fits, Store, Chunk, HandleData, Admissible, Stop, Solo, Payload, Reached;
    LastIs(cfg, s, m, [K], d, t);
    buf := Store(cfg, m, d, t).buf;
    w' := DataArrives(cfg, w, t, o, s, d);
  }

  // ----- the whole run -----

  lemma ChunksStay(cfg: Config, net: Net, net': Net, lo: nat, hi: nat)
    requires HasChunks(cfg, net, lo, hi) && net <= net'
    ensures HasChunks(cfg, net', lo, hi)
  {
  }

  lemma ChunksJoin(cfg: Config, net: Net, lo: nat, mid: nat, hi: nat)
    requires HasChunks(cfg, net, lo, mid) && HasChunks(cfg, net, mid, hi + 1)
    ensures HasChunks(cfg, net, lo, hi)
  {
  }

  /** Up to the arrival of the chunks up to Last. */
  lemma ToLast(cfg: Config) returns (w: World, t: Time, o: S.OutMsg, s: ReceiverState, m: InMsg)
    requires !Aligned(cfg) && Roomy(cfg)
    ensures At(cfg, w, t, o, s) && AtStop(cfg, o) && Solo(s, m, [K]) && Got(cfg, m, Last(cfg) + 1, t)
    ensures (m.grantedTo == Stop(cfg) || m.grantedTo == Len(cfg)) && m.unansweredResends == 0
    ensures HasChunks(cfg, w.net, 0, Last(cfg))
  {
    hide *;
    Sizes(cfg);
    var w0, t0, o0 := Begins(cfg);
    var w1, s1, m1 := WindowArrives(cfg, w0, t0, o0, WindowChunks(cfg));
    var w2, t2, s2, m2, d2 := AsksUpToStop(cfg, w1, t0, o0, s1, m1);
    var w3, o3 := StopsThere(cfg, w2, t2, o0, s2, d2);
    ChunksStay(cfg, w0.net, w3.net, 0, WindowChunks(cfg));
    ChunksJoin(cfg, w3.net, 0, WindowChunks(cfg), Last(cfg));
    var w4, s4, m4 := RestArrives(cfg, w3, t2, o3, s2, m2, Last(cfg) + 1);
    ChunksStay(cfg, w3.net, w4.net, 0, Last(cfg));
    w, t, o, s, m := w4, t2, o3, s4, m4;
  }

  /** Up to the stray, the last chunk and the receiver's giving up. */
  lemma FirstTime(cfg: Config) returns (w: World, t: Time, o: S.OutMsg, s: ReceiverState)
    requires !Aligned(cfg) && Roomy(cfg)
    ensures At(cfg, w, t, o, s) && o.data == Payload(cfg) && Alone(s, map[])
    ensures HasChunks(cfg, w.net, 0, Last(cfg)) && HasChunks(cfg, w.net, Last(cfg) + 1, Last(cfg) + 2)
    ensures Wire(0, 1, Stray(cfg)) in w.net
  {
    assert 1 <= MAX_UNANSWERED_RESENDS;
    hide *;
    var w4, t4, o4, s4, m4 := ToLast(cfg);
    var w5, t5, s5, m5, g5 := CreditToEnd(cfg, w4, t4, o4, s4, m4);
    var d5 := Announced(cfg, w5, t5, o4, s5, m5, g5);
    var w6, o6 := SendsStray(cfg, w5, t5, o4, s5, d5);
    var w7, t7, o7, s7, m7, g7 := LastIsSent(cfg, w6, t5, o6, s5, m5, g5);
    w, t, s := GivesUp(cfg, w7, t7, o7, s7, m7, g7);
    o := o7;
    ChunksStay(cfg, w4.net, w.net, 0, Last(cfg));
    ChunksStay(cfg, w7.net, w.net, Last(cfg) + 1, Last(cfg) + 2);
  }

  /** Credit that does not grow by whole packets breaks messages: a run hands out octets that are not
      the ones submitted under that id, though as many. */
  lemma MisalignedCorrupts(cfg: Config) returns (ws: seq<World>, es: seq<Event>, t: Time, d: Delivery)
    requires !Aligned(cfg) && Roomy(cfg)
    ensures IsRun(cfg, ws, es) && Clocked(es, t) && d in ws[|es|].delivered
    ensures exists j: nat, data :: Submits(ws, es, j, d.flow, data) && |data| == |d.data|
    ensures forall j: nat, data :: Submits(ws, es, j, d.flow, data) ==> data != d.data
  {
    Sizes(cfg);
    hide Len, Last, Stop, WindowChunks, Chunk, Stray, At, Solo, Alone, Got, Refilled, Roomy, Aligned, Payload, Initial, Apply, Enabled;
    var w, t0, o, s := FirstTime(cfg);
    var w1, s1, m1 := StrayArrives(cfg, w, t0, o, s);
    var w2, s2, m2 := ChunksAgain(cfg, w1, t0, o, s1, m1, Last(cfg));
    var w3, buf := HandedOut(cfg, w2, t0, o, s2, m2);
    var vs, fs :| Leads(cfg, vs, fs, w3, t0);
    ws, es, t, d := vs, fs, t0, Delivery(F, buf);
    SentWasSubmitted(cfg, ws, es, |es|, F);
    var j: nat :| Submits(ws, es, j, F, Payload(cfg));
    forall i: nat, data | Submits(ws, es, i, F, data) ensures data != buf {
      if i < j { SubmittedOnce(cfg, ws, es, i, j, F, data, Payload(cfg)); }
      if j < i { SubmittedOnce(cfg, ws, es, j, i, F, Payload(cfg), data); }
    }
  }
}
