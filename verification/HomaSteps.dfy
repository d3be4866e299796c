/** Every event keeps the invariant of HomaWorld. */
module HomaSteps {
  import opened Bytes
  import opened Chunks
  import opened HomaPacket
  import opened HomaTypes
  import S = HomaSender
  import R = HomaReceiver
  import opened HomaCredit
  import opened HomaFlow
  import opened HomaReassembly
  import opened HomaWorld

  // ----- what the sender does -----

  /** Pumping one message of host h's. */
  lemma PumpStepOk(cfg: Config, w: World, h: Addr, k: Key, m: S.OutMsg, upTo: nat, now: Time)
    requires Inv(cfg, w) && h in w.hosts
    requires var f := Flow(h, k.peer, k.id);
      && f in w.sent
      && OutCore(cfg, w.net, f, w.sent[f], m)
      && Min(cfg.unscheduledBytes, |w.sent[f]|) <= Max(m.nextSend, Min(upTo, |w.sent[f]|))
    ensures Inv(cfg, Post(w, h, w.hosts[h].(out := w.hosts[h].out[k := S.Pumped(cfg, m, upTo, now)]),
                          S.PumpedSends(cfg, k, m, upTo)))
  {
    var f := Flow(h, k.peer, k.id);
    var data := w.sent[f];
    var limit := Min(upTo, |data|);
    PumpedOk(cfg, w.net, f, data, m, upTo, now);
    if m.doneAt.None? {
      PumpSendsChunks(cfg.packetSize, k, data, m.nextSend, limit);
      SenderStepOk(cfg, w, h, k, S.Pumped(cfg, m, upTo, now), S.PumpedSends(cfg, k, m, upTo), m.nextSend, limit);
    } else {
      SenderStepOk(cfg, w, h, k, S.Pumped(cfg, m, upTo, now), S.PumpedSends(cfg, k, m, upTo), 0, 0);
    }
  }

  /** Handing out a fresh id disturbs nothing. */
  lemma RegisterOk(cfg: Config, w: World, h: Addr, dest: Addr, data: seq<Byte>)
    requires Inv(cfg, w) && h in w.hosts && |data| < TWO32 && w.hosts[h].nextId < TWO64
    ensures var f := Flow(h, dest, w.hosts[h].nextId);
      && f !in w.sent
      && Inv(cfg, Register(w, h, dest, data))
      && OutCore(cfg, w.net, f, data, S.Fresh(cfg, data, 0, false))
  {
    hide WireOk, OutsOk, InsOk, Harmless, OutCore, S.Fresh;
    var f := Flow(h, dest, w.hosts[h].nextId);
    var w' := Register(w, h, dest, data);
    forall x | x in w.net ensures WireOk(cfg, w.net, w'.sent, x) && Harmless({}, f, x) {
      assert WireOk(cfg, w.net, w.sent, x);
      NewFlowWire(cfg, w.net, w.sent, f, data, x);
    }
    forall h2 | h2 in w'.hosts ensures HostOk(cfg, w.net, w'.sent, h2, w'.hosts[h2]) {
      assert HostOk(cfg, w.net, w.sent, h2, w.hosts[h2]);
      NewFlowHost(cfg, w.net, w.sent, f, data, h2, w.hosts[h2].out, w.hosts[h2].rcv.incoming);
    }
    NewFlowCore(cfg, w.net, f, data);
  }

  lemma NewFlowWire(cfg: Config, net: Net, sent: map<Flow, seq<Byte>>, f: Flow, data: seq<Byte>, x: Wire)
    requires WireOk(cfg, net, sent, x) && f !in sent
    ensures WireOk(cfg, net, sent[f := data], x) && Harmless({}, f, x)
  {
    hide DataOk, ResendOk, Representable;
  }

  lemma NewFlowHost(cfg: Config, net: Net, sent: map<Flow, seq<Byte>>, f: Flow, data: seq<Byte>, h: Addr,
                    out: map<Key, S.OutMsg>, incoming: map<Key, R.InMsg>)
    requires OutsOk(cfg, net, sent, h, out) && InsOk(cfg, net, sent, h, incoming) && f !in sent
    ensures OutsOk(cfg, net, sent[f := data], h, out) && InsOk(cfg, net, sent[f := data], h, incoming)
  {
    hide OutOk, InOk;
  }

  lemma NewFlowCore(cfg: Config, net: Net, f: Flow, data: seq<Byte>)
    requires |data| < TWO32 && f.id < TWO64 && forall x :: x in net ==> Harmless({}, f, x)
    ensures OutCore(cfg, net, f, data, S.Fresh(cfg, data, 0, false))
  {
    NotLast(cfg.packetSize, {}, net, f, data);
  }

  lemma SubmitOk(cfg: Config, w: World, e: Event)
    requires Inv(cfg, w) && Enabled(w, e) && e.Submit?
    ensures Inv(cfg, Apply(cfg, w, e))
  {
    var h, data := e.host, e.data;
    var k := Key(e.dest, w.hosts[h].nextId);
    RegisterOk(cfg, w, h, e.dest, data);
    var m := S.Fresh(cfg, data, e.now, e.retransmit);
    PumpStepOk(cfg, Register(w, h, e.dest, data), h, k, m, m.grantedTo, e.now);
  }

  lemma GrantOk(cfg: Config, w: World, x: Wire, now: Time)
    requires Inv(cfg, w) && x in w.net && x.dst in w.hosts && x.dgram.pkt.typ == Grant
    ensures var (out, acts) := S.HandleGrant(cfg, w.hosts[x.dst].out, x.src, x.dgram.pkt, now);
      Inv(cfg, Post(w, x.dst, w.hosts[x.dst].(out := out), acts))
  {
    var h, k := x.dst, Key(x.src, x.dgram.pkt.msgId);
    var out := w.hosts[h].out;
    assert HostOk(cfg, w.net, w.sent, h, w.hosts[h]);
    if k in out && Min(x.dgram.pkt.offset, |out[k].data|) > out[k].grantedTo {
      var limit := Min(x.dgram.pkt.offset, |out[k].data|);
      PumpStepOk(cfg, w, h, k, out[k], limit, now);
    } else {
      IdleOk(cfg, w, h);
    }
  }

  /** Answering a resend request for one message of host h's. */
  lemma AnswerStepOk(cfg: Config, w: World, h: Addr, k: Key, m: S.OutMsg, pkt: Packet, now: Time)
    requires Inv(cfg, w) && h in w.hosts
    requires var f := Flow(h, k.peer, k.id);
      && f in w.sent
      && OutOk(cfg, w.net, f, w.sent[f], m)
      && ResendOk(cfg, w.net, f, w.sent[f], pkt)
    ensures Inv(cfg, Post(w, h, w.hosts[h].(out := w.hosts[h].out[k := S.Answered(m, pkt, now)]),
                          S.AnswerSends(cfg, k, m, pkt)))
  {
    var f := Flow(h, k.peer, k.id);
    AnsweredOk(cfg, w.net, f, w.sent[f], m, pkt, now);
    AnswerSendsChunks(cfg, w.net, f, w.sent[f], m, pkt);
    hide S.Answered, S.AnswerSends, AreChunksIn, ResendOk, OutOk, Emitted, Post;
    SenderStepOk(cfg, w, h, k, S.Answered(m, pkt, now), S.AnswerSends(cfg, k, m, pkt),
                 pkt.offset, pkt.offset + pkt.length);
  }

  lemma ResendStepOk(cfg: Config, w: World, x: Wire, now: Time)
    requires Inv(cfg, w) && x in w.net && x.dst in w.hosts && x.dgram.pkt.typ == PacketType.Resend
    ensures var (out, acts) := S.HandleResend(cfg, w.hosts[x.dst].out, x.src, x.dgram.pkt, now);
      Inv(cfg, Post(w, x.dst, w.hosts[x.dst].(out := out), acts))
  {
    var h, k := x.dst, Key(x.src, x.dgram.pkt.msgId);
    var out := w.hosts[h].out;
    assert HostOk(cfg, w.net, w.sent, h, w.hosts[h]);
    assert WireOk(cfg, w.net, w.sent, x);
    hide S.Answered, S.AnswerSends, OutOk, ResendOk, InOk, Post;
    if k in out {
      AnswerStepOk(cfg, w, h, k, out[k], x.dgram.pkt, now);
    } else {
      IdleOk(cfg, w, h);
    }
  }

  lemma IdleOk(cfg: Config, w: World, h: Addr)
    requires Inv(cfg, w) && h in w.hosts
    ensures Inv(cfg, Post(w, h, w.hosts[h], []))
  {
    assert w.hosts[h := w.hosts[h]] == w.hosts;
    assert w.net + Emitted(h, []) == w.net;
    assert w.delivered + Deliveries(h, []) == w.delivered;
  }

  /** Dropping messages, or changing their timers and flags, disturbs nothing. */
  lemma RetimedOk(cfg: Config, w: World, h: Addr, out: S.Outgoing)
    requires Inv(cfg, w) && h in w.hosts
    requires Retimed(w.hosts[h].out, out)
    ensures Inv(cfg, Post(w, h, w.hosts[h].(out := out), []))
  {
    assert HostOk(cfg, w.net, w.sent, h, w.hosts[h]);
    assert w.net + Emitted(h, []) == w.net;
    PostOk(cfg, w, h, w.hosts[h].(out := out), []);
  }

  /** Every message in out' is in out with the same data, position and completion. */
  ghost predicate Retimed(out: S.Outgoing, out': S.Outgoing) {
    && out'.Keys <= out.Keys
    && forall k :: k in out' ==>
         && out'[k].data == out[k].data
         && out'[k].nextSend == out[k].nextSend
         && out'[k].doneAt == out[k].doneAt
  }

  /** What a sender's tick sends: the first chunk of a message or its last one sent. */
  ghost predicate IsPoke(ps: nat, out: S.Outgoing, a: Action)
    requires ps > 0
  {
    && a.Send?
    && KeyOf(a) in out
    && var m := out[KeyOf(a)];
       || a == ChunkAct(ps, KeyOf(a), m.data, 0)
       || (m.nextSend > 0 && m.doneAt.None? && a == ChunkAct(ps, KeyOf(a), m.data, FloorTo(m.nextSend - 1, ps)))
  }

  lemma TickMsgPokes(cfg: Config, out: S.Outgoing, k: Key, now: Time)
    requires k in out
    ensures Retimed(out, out[k := S.TickMsg(cfg, out[k], now)])
    ensures forall a :: a in S.TickMsgSends(cfg, k, out[k], now) ==> IsPoke(cfg.packetSize, out, a)
  {
  }

  /** Pokes depend on nothing a tick changes. */
  lemma RetimedPoke(ps: nat, out: S.Outgoing, out': S.Outgoing, a: Action)
    requires ps > 0 && Retimed(out, out') && IsPoke(ps, out', a)
    ensures IsPoke(ps, out, a)
  {
    assert out'[KeyOf(a)].data == out[KeyOf(a)].data;
  }

  lemma {:induction false} TickFromPokes(cfg: Config, out: S.Outgoing, order: seq<Key>, i: nat, now: Time)
    ensures var (out', acts) := S.TickFrom(cfg, out, order, i, now);
      Retimed(out, out') && forall a :: a in acts ==> IsPoke(cfg.packetSize, out, a)
    decreases |order| - i
  {
    if i < |order| {
      if order[i] in out {
        TickMsgPokes(cfg, out, order[i], now);
        var out' := out[order[i] := S.TickMsg(cfg, out[order[i]], now)];
        TickFromPokes(cfg, out', order, i + 1, now);
        hide S.TickMsg, S.TickMsgSends, IsPoke;
        var rest := S.TickFrom(cfg, out', order, i + 1, now).1;
        forall a | a in rest ensures IsPoke(cfg.packetSize, out, a) {
          RetimedPoke(cfg.packetSize, out, out', a);
        }
      } else {
        TickFromPokes(cfg, out, order, i + 1, now);
      }
    }
  }

  /** A poke repeats a chunk already sent, or sends a first one. */
  lemma PokeOk(cfg: Config, net: Net, net': Net, sent: map<Flow, seq<Byte>>, h: Addr, out: S.Outgoing, a: Action)
    requires OutsOk(cfg, net, sent, h, out) && NetOk(cfg, net, sent) && net <= net'
    requires forall f :: f in sent ==> |sent[f]| < TWO32 && f.id < TWO64
    requires IsPoke(cfg.packetSize, out, a)
    ensures var x := Wire(h, a.dest, a.dgram);
      WireOk(cfg, net', sent, x) && (x in net || x.dgram.pkt.offset == 0)
  {
    var k := KeyOf(a);
    var f := Flow(h, k.peer, k.id);
    assert OutOk(cfg, net, f, sent[f], out[k]);
    if a == ChunkAct(cfg.packetSize, k, out[k].data, 0) {
      FirstChunkOk(cfg, net', f, sent, a.dgram);
    } else {
      var c := FloorTo(out[k].nextSend - 1, cfg.packetSize);
      assert Wire(h, a.dest, a.dgram) == ChunkWire(cfg.packetSize, f, sent[f], c);
      hide ChunkWire, WireOk, ChunkAct;
      WireOkMonotone(cfg, net, net', sent, Wire(h, a.dest, a.dgram));
    }
  }

  lemma FirstChunkOk(cfg: Config, net: Net, f: Flow, sent: map<Flow, seq<Byte>>, d: Datagram)
    requires f in sent && |sent[f]| < TWO32 && f.id < TWO64
    requires d == ChunkDatagram(cfg.packetSize, sent[f], f.id, 0)
    ensures WireOk(cfg, net, sent, Wire(f.src, f.dst, d)) && d.pkt.offset == 0
  {
    ChunkFields(cfg.packetSize, sent[f], f.id, 0);
  }

  lemma TickSenderOk(cfg: Config, w: World, e: Event)
    requires Inv(cfg, w) && Enabled(w, e) && e.TickSender?
    ensures Inv(cfg, Apply(cfg, w, e))
  {
    var h := e.host;
    var host := w.hosts[h];
    var kept := S.Lingering(cfg, host.out, e.now);
    assert HostOk(cfg, w.net, w.sent, h, host) && OutsOk(cfg, w.net, w.sent, h, kept);
    TickFromPokes(cfg, kept, e.order, 0, e.now);
    var (out, acts) := S.Tick(cfg, host.out, e.order, e.now);
    var net' := w.net + Emitted(h, acts);
    forall x | x in Emitted(h, acts) ensures WireOk(cfg, net', w.sent, x) && (x in w.net || x.dgram.pkt.offset == 0) {
      var a :| a in acts && a.Send? && x == Wire(h, a.dest, a.dgram);
      PokeOk(cfg, w.net, net', w.sent, h, kept, a);
    }
    OutsOkFrame(cfg, w.net, net', w.sent, h, kept);
    assert OutsOk(cfg, net', w.sent, h, out);
    InsOkMonotone(cfg, w.net, net', w.sent, h, host.rcv.incoming);
    OnlySends(h, acts);
    PostOk(cfg, w, h, host.(out := out), acts);
  }

  // ----- what the receiver does -----

  /** Scheduling and ticking at one receiver. */
  lemma EvolveOk(cfg: Config, net: Net, sent: map<Flow, seq<Byte>>, h: Addr,
                 s: R.ReceiverState, s': R.ReceiverState, acts: seq<Action>)
    requires Aligned(cfg) && InsOk(cfg, net, sent, h, s.incoming) && Evolves(cfg, s, s', acts)
    requires forall f :: f in sent ==> |sent[f]| < TWO32 && f.id < TWO64
    ensures InsOk(cfg, net, sent, h, s'.incoming)
    ensures forall x :: x in Emitted(h, acts) ==> WireOk(cfg, net, sent, x) && x.dgram.pkt.typ != Data
  {
    hide InOk, Regranted, IsCreditAct, WireOk;
    forall k | k in s'.incoming
      ensures InOk(cfg, net, Flow(k.peer, h, k.id), sent[Flow(k.peer, h, k.id)], s'.incoming[k])
    {
      var f := Flow(k.peer, h, k.id);
      RegrantedOk(cfg, net, f, sent[f], s.incoming[k], acts, s'.incoming[k]);
    }
    forall x | x in Emitted(h, acts) ensures WireOk(cfg, net, sent, x) && x.dgram.pkt.typ != Data {
      var a :| a in acts && a.Send? && x == Wire(h, a.dest, a.dgram);
      CreditActOk(cfg, net, sent, h, s, acts, a);
    }
  }

  lemma CreditActOk(cfg: Config, net: Net, sent: map<Flow, seq<Byte>>, h: Addr,
                    s: R.ReceiverState, acts: seq<Action>, a: Action)
    requires Aligned(cfg) && InsOk(cfg, net, sent, h, s.incoming) && IsCreditAct(cfg, s.incoming, acts, a)
    requires forall f :: f in sent ==> |sent[f]| < TWO32 && f.id < TWO64
    ensures WireOk(cfg, net, sent, Wire(h, a.dest, a.dgram)) && a.dgram.pkt.typ != Data
  {
    var k := KeyOf(a);
    var f, m := Flow(k.peer, h, k.id), s.incoming[k];
    if IsGrant(cfg, m, a.dgram.pkt) {
      TargetSafe(cfg, net, f, sent[f], m);
    } else {
      IsResendOk(cfg, net, f, sent[f], m, acts, a.dgram.pkt);
    }
  }

  /** A receiver's step whose actions are credit packets, after deliveries already accounted for. */
  lemma CreditStepOk(cfg: Config, w: World, h: Addr, s: R.ReceiverState, s': R.ReceiverState, acts: seq<Action>)
    requires Aligned(cfg) && Inv(cfg, w) && h in w.hosts
    requires InsOk(cfg, w.net, w.sent, h, s.incoming) && Evolves(cfg, s, s', acts)
    ensures Inv(cfg, Post(w, h, w.hosts[h].(rcv := s'), acts))
  {
    assert forall a :: a in acts ==> a.Send?;
    OnlySends(h, acts);
    hide OutsOk, InsOk, WireOk, Evolves, Deliveries;
    var host := w.hosts[h];
    var net' := w.net + Emitted(h, acts);
    EvolveOk(cfg, w.net, w.sent, h, s, s', acts);
    assert HostOk(cfg, w.net, w.sent, h, host);
    forall x | x in Emitted(h, acts) ensures WireOk(cfg, net', w.sent, x) {
      WireOkMonotone(cfg, w.net, net', w.sent, x);
    }
    InsOkMonotone(cfg, w.net, net', w.sent, h, s'.incoming);
    OutsOkFrame(cfg, w.net, net', w.sent, h, host.out);
    PostOk(cfg, w, h, host.(rcv := s'), acts);
  }

  lemma TickReceiverOk(cfg: Config, w: World, e: Event)
    requires Aligned(cfg) && Inv(cfg, w) && Enabled(w, e) && e.TickReceiver?
    ensures Inv(cfg, Apply(cfg, w, e))
  {
    var s := w.hosts[e.host].rcv;
    assert HostOk(cfg, w.net, w.sent, e.host, w.hosts[e.host]);
    TickEvolves(cfg, s, e.order, e.now);
    var (s', acts) := R.Tick(cfg, s, e.order, e.now);
    CreditStepOk(cfg, w, e.host, s, s', acts);
  }

  /** The record a chunk is taken into, before and after. */
  lemma AcceptOk(cfg: Config, w: World, x: Wire, now: Time)
    requires Inv(cfg, w) && x in w.net && x.dst in w.hosts && x.dgram.pkt.typ == Data
    ensures var s, f, k := w.hosts[x.dst].rcv, DataFlow(x), Key(x.src, x.dgram.pkt.msgId);
      && f in w.sent && x.dgram.pkt.msgLen == |w.sent[f]|
      && R.Fits(cfg, R.MsgFor(cfg, s, k, x.dgram.pkt, now), x.dgram)
      && (w.sent[f] != [] ==>
            var m := R.Store(cfg, R.MsgFor(cfg, s, k, x.dgram.pkt, now), x.dgram, now);
            BytesOk(cfg.packetSize, w.net, f, w.sent[f], m) && CreditOk(cfg, w.net, f, w.sent[f], m))
      && (k in s.incoming ==> w.sent[f] != [])
  {
    var s, f, k := w.hosts[x.dst].rcv, DataFlow(x), Key(x.src, x.dgram.pkt.msgId);
    assert WireOk(cfg, w.net, w.sent, x) && HostOk(cfg, w.net, w.sent, x.dst, w.hosts[x.dst]);
    var data := w.sent[f];
    ChunkWireFields(cfg.packetSize, f, data, x.dgram.pkt.offset);
    if k !in s.incoming && data != [] {
      NewMsgOk(cfg, w.net, f, data, now);
    }
    if data != [] {
      StoreOk(cfg, w.net, f, data, R.MsgFor(cfg, s, k, x.dgram.pkt, now), x, now);
    }
  }

  lemma RefusedOk(cfg: Config, w: World, x: Wire)
    requires Inv(cfg, w) && x in w.net && x.dst in w.hosts && x.dgram.pkt.typ == Data
    ensures var acts := R.RefusalSends(cfg, w.hosts[x.dst].rcv, Key(x.src, x.dgram.pkt.msgId), x.dgram.pkt);
      Inv(cfg, Post(w, x.dst, w.hosts[x.dst], acts))
  {
    var h := x.dst;
    var acts := R.RefusalSends(cfg, w.hosts[h].rcv, Key(x.src, x.dgram.pkt.msgId), x.dgram.pkt);
    var net' := w.net + Emitted(h, acts);
    assert WireOk(cfg, w.net, w.sent, x) && HostOk(cfg, w.net, w.sent, h, w.hosts[h]);
    OutsOkFrame(cfg, w.net, net', w.sent, h, w.hosts[h].out);
    InsOkMonotone(cfg, w.net, net', w.sent, h, w.hosts[h].rcv.incoming);
    OnlySends(h, acts);
    PostOk(cfg, w, h, w.hosts[h], acts);
  }

  lemma DeliverStepOk(cfg: Config, w: World, h: Addr, f: Flow, data: seq<Byte>,
                      s: R.ReceiverState, s': R.ReceiverState, rest: seq<Action>)
    requires Aligned(cfg) && Inv(cfg, w) && h in w.hosts && f.dst == h && f in w.sent && data == w.sent[f]
    requires InsOk(cfg, w.net, w.sent, h, s.incoming) && Evolves(cfg, s, s', rest)
    ensures Inv(cfg, Post(w, h, w.hosts[h].(rcv := s'), [Deliver(f.src, f.id, data)] + rest))
  {
    var acts := [Deliver(f.src, f.id, data)] + rest;
    var w1 := w.(delivered := w.delivered + [Delivery(f, data)]);
    CreditStepOk(cfg, w1, h, s, s', rest);
    assert acts[1..] == rest;
    assert Emitted(h, acts) == Emitted(h, rest);
    ConcatAssoc(w.delivered, [Delivery(f, data)], Deliveries(h, rest));
    assert Post(w, h, w.hosts[h].(rcv := s'), acts) == Post(w1, h, w.hosts[h].(rcv := s'), rest);
  }

  lemma FinishingOk(cfg: Config, w: World, x: Wire, order: seq<Key>, now: Time)
    requires Aligned(cfg) && Inv(cfg, w) && x in w.net && x.dst in w.hosts && x.dgram.pkt.typ == Data
    requires R.Fits(cfg, R.MsgFor(cfg, w.hosts[x.dst].rcv, Key(x.src, x.dgram.pkt.msgId), x.dgram.pkt, now), x.dgram)
    requires var k := Key(x.src, x.dgram.pkt.msgId);
      R.Finished(R.Accept(cfg, w.hosts[x.dst].rcv, k, x.dgram, now), k, x.dgram)
    ensures var k := Key(x.src, x.dgram.pkt.msgId);
      var s' := R.Accept(cfg, w.hosts[x.dst].rcv, k, x.dgram, now);
      var data := if x.dgram.pkt.msgLen == 0 then [] else s'.incoming[k].buf;
      var (s'', rest) := R.Schedule(cfg, R.DeliverTo(s', k), order, now);
      Inv(cfg, Post(w, x.dst, w.hosts[x.dst].(rcv := s''), [Deliver(x.src, k.id, data)] + rest))
  {
    var h, s, f, k := x.dst, w.hosts[x.dst].rcv, DataFlow(x), Key(x.src, x.dgram.pkt.msgId);
    AcceptOk(cfg, w, x, now);
    assert HostOk(cfg, w.net, w.sent, h, w.hosts[h]);
    var s' := R.Accept(cfg, s, k, x.dgram, now);
    if x.dgram.pkt.msgLen != 0 {
      CompleteIsData(cfg.packetSize, w.net, f, w.sent[f], s'.incoming[k]);
    }
    var s2 := R.DeliverTo(s', k);
    assert InsOk(cfg, w.net, w.sent, h, s2.incoming);
    ScheduleEvolves(cfg, s2, order, now);
    var (s3, rest) := R.Schedule(cfg, s2, order, now);
    DeliverStepOk(cfg, w, h, f, w.sent[f], s2, s3, rest);
  }

  lemma DataArrivalOk(cfg: Config, w: World, x: Wire, order: seq<Key>, now: Time)
    requires Aligned(cfg) && Inv(cfg, w) && x in w.net && x.dst in w.hosts && x.dgram.pkt.typ == Data
    ensures R.Admissible(cfg, w.hosts[x.dst].rcv, x.src, x.dgram, now)
    ensures var (rcv, acts) := R.HandleData(cfg, w.hosts[x.dst].rcv, x.src, x.dgram, order, now);
      Inv(cfg, Post(w, x.dst, w.hosts[x.dst].(rcv := rcv), acts))
  {
    var h, s, k := x.dst, w.hosts[x.dst].rcv, Key(x.src, x.dgram.pkt.msgId);
    AcceptOk(cfg, w, x, now);
    if R.Refused(cfg, s, k, x.dgram.pkt) {
      RefusedOk(cfg, w, x);
    } else {
      var s' := R.Accept(cfg, s, k, x.dgram, now);
      if R.Finished(s', k, x.dgram) {
        FinishingOk(cfg, w, x, order, now);
      } else {
        assert HostOk(cfg, w.net, w.sent, h, w.hosts[h]);
        assert InsOk(cfg, w.net, w.sent, h, s'.incoming);
        ContinueEvolves(cfg, s', k, k !in s.incoming, order, now);
        var (s3, acts) := R.Continue(cfg, s', k, k !in s.incoming, order, now);
        CreditStepOk(cfg, w, h, s', s3, acts);
      }
    }
  }

  lemma BusyRetimes(out: S.Outgoing, src: Addr, pkt: Packet, now: Time)
    ensures Retimed(out, S.HandleBusy(out, src, pkt, now))
  {
  }

  lemma ArriveOk(cfg: Config, w: World, e: Event)
    requires Aligned(cfg) && Inv(cfg, w) && Enabled(w, e) && e.Arrive?
    ensures Inv(cfg, Apply(cfg, w, e))
  {
    var x := e.wire;
    DecodeEncode(x.dgram);
    hide Inv, Post, Encode, Decode, R.HandleData, R.Admissible, S.HandleGrant, S.HandleResend;
    match x.dgram.pkt.typ
    case Data => DataArrivalOk(cfg, w, x, e.order, e.now);
    case Grant => GrantOk(cfg, w, x, e.now);
    case Resend => ResendStepOk(cfg, w, x, e.now);
    case Busy =>
      BusyRetimes(w.hosts[x.dst].out, x.src, x.dgram.pkt, e.now);
      RetimedOk(cfg, w, x.dst, S.HandleBusy(w.hosts[x.dst].out, x.src, x.dgram.pkt, e.now));
  }

  lemma ConfirmRetimes(out: S.Outgoing, k: Key)
    ensures Retimed(out, S.Confirm(out, k)) && Retimed(out, S.Finish(out, k))
  {
  }

  lemma ConfirmOk(cfg: Config, w: World, e: Event)
    requires Inv(cfg, w) && Enabled(w, e) && (e.Confirm? || e.Finish?)
    ensures Inv(cfg, Apply(cfg, w, e))
  {
    var out, k := w.hosts[e.host].out, Key(e.dest, e.id);
    ConfirmRetimes(out, k);
    hide Inv, Retimed, Post, S.Confirm, S.Finish;
    RetimedOk(cfg, w, e.host, if e.Confirm? then S.Confirm(out, k) else S.Finish(out, k));
  }

  /** Every event keeps the invariant. */
  lemma StepOk(cfg: Config, w: World, e: Event)
    requires Aligned(cfg) && Inv(cfg, w) && Enabled(w, e)
    ensures Inv(cfg, Apply(cfg, w, e))
  {
    hide Apply, Inv, Enabled;
    match e
    case Submit(_, _, _, _, _) => SubmitOk(cfg, w, e);
    case Arrive(_, _, _) => ArriveOk(cfg, w, e);
    case TickSender(_, _, _) => TickSenderOk(cfg, w, e);
    case TickReceiver(_, _, _) => TickReceiverOk(cfg, w, e);
    case Confirm(_, _, _) => ConfirmOk(cfg, w, e);
    case Finish(_, _, _) => ConfirmOk(cfg, w, e);
  }
}
