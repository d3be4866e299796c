/** The invariant that every event keeps under every configuration. */
module HomaBaseSteps {
  import opened Bytes
  import opened Chunks
  import opened HomaPacket
  import opened HomaTypes
  import S = HomaSender
  import R = HomaReceiver
  import opened HomaCredit
  import opened HomaFlow
  import opened HomaReassembly
  import opened HomaBase
  import opened HomaWorld
  import opened HomaSteps

  // ----- the invariant -----

  ghost predicate WireFit(cfg: Config, net: Net, sent: map<Flow, seq<Byte>>, x: Wire) {
    && Representable(x.dgram)
    && match x.dgram.pkt.typ
       case Data => DataFlow(x) in sent && DataFit(cfg, net, DataFlow(x), sent[DataFlow(x)], x.dgram)
       case Grant => CreditFlow(x) in sent && EndFit(cfg, net, CreditFlow(x), |sent[CreditFlow(x)]|, x.dgram.pkt.offset)
       case Resend => CreditFlow(x) in sent && ResendFit(cfg, net, CreditFlow(x), |sent[CreditFlow(x)]|, x.dgram.pkt)
       case Busy => true
  }

  ghost predicate OutsFit(cfg: Config, net: Net, sent: map<Flow, seq<Byte>>, h: Addr, out: S.Outgoing) {
    forall k :: k in out ==>
      Flow(h, k.peer, k.id) in sent && OutFit(cfg, net, Flow(h, k.peer, k.id), sent[Flow(h, k.peer, k.id)], out[k])
  }

  ghost predicate InsFit(cfg: Config, net: Net, sent: map<Flow, seq<Byte>>, h: Addr, incoming: R.Incoming) {
    forall k :: k in incoming ==>
      Flow(k.peer, h, k.id) in sent && InFit(cfg, net, Flow(k.peer, h, k.id), sent[Flow(k.peer, h, k.id)], incoming[k])
  }

  /** What is being received is not too long, and has not been delivered as far as is remembered. */
  ghost predicate Apart(s: R.ReceiverState) {
    forall k :: k in s.incoming ==> k !in s.completed && s.incoming[k].totalLen <= MAX_MSG_LEN
  }

  ghost predicate HostFit(cfg: Config, net: Net, sent: map<Flow, seq<Byte>>, h: Addr, host: Host) {
    && OutsFit(cfg, net, sent, h, host.out)
    && InsFit(cfg, net, sent, h, host.rcv.incoming)
    && Apart(host.rcv)
  }

  ghost predicate DeliveriesFit(sent: map<Flow, seq<Byte>>, delivered: seq<Delivery>) {
    forall d :: d in delivered ==> d.flow in sent && |d.data| == |sent[d.flow]|
  }

  ghost predicate Base(cfg: Config, w: World) {
    && SentOk(w.hosts, w.sent)
    && (forall x :: x in w.net ==> WireFit(cfg, w.net, w.sent, x))
    && (forall h :: h in w.hosts ==> HostFit(cfg, w.net, w.sent, h, w.hosts[h]))
    && DeliveriesFit(w.sent, w.delivered)
  }

  // ----- more datagrams -----

  lemma WireFitMonotone(cfg: Config, net: Net, net': Net, sent: map<Flow, seq<Byte>>, x: Wire)
    requires WireFit(cfg, net, sent, x) && net <= net'
    ensures WireFit(cfg, net', sent, x)
  {
    hide DataFit, EndFit, Credited, Representable;
    match x.dgram.pkt.typ
    case Data => DataFitMonotone(cfg, net, net', DataFlow(x), sent[DataFlow(x)], x.dgram);
    case Grant => EndFitMonotone(cfg, net, net', CreditFlow(x), |sent[CreditFlow(x)]|, x.dgram.pkt.offset);
    case Resend =>
      var end := x.dgram.pkt.offset + x.dgram.pkt.length;
      EndFitMonotone(cfg, net, net', CreditFlow(x), |sent[CreditFlow(x)]|, end);
      CreditedMonotone(cfg, net, net', CreditFlow(x), end, end);
    case _ =>
  }

  lemma InsFitMonotone(cfg: Config, net: Net, net': Net, sent: map<Flow, seq<Byte>>, h: Addr, incoming: R.Incoming)
    requires InsFit(cfg, net, sent, h, incoming) && net <= net'
    ensures InsFit(cfg, net', sent, h, incoming)
  {
    hide InFit;
    forall k | k in incoming
      ensures InFit(cfg, net', Flow(k.peer, h, k.id), sent[Flow(k.peer, h, k.id)], incoming[k])
    {
      InFitMonotone(cfg, net, net', Flow(k.peer, h, k.id), sent[Flow(k.peer, h, k.id)], incoming[k]);
    }
  }

  /** A new packet that ends f's message does so only once m's position is in the last chunk. */
  ghost predicate Mild(cfg: Config, f: Flow, data: seq<Byte>, m: S.OutMsg, x: Wire) {
    |data| > cfg.packetSize && m.nextSend < |data| && Ends(f, |data|, x) ==> m.nextSend > FloorTo(|data| - 1, cfg.packetSize)
  }

  lemma OutFitMore(cfg: Config, net: Net, net': Net, f: Flow, data: seq<Byte>, m: S.OutMsg)
    requires OutFit(cfg, net, f, data, m) && net <= net'
    requires forall x :: x in net' && x !in net ==> Mild(cfg, f, data, m, x)
    ensures OutFit(cfg, net', f, data, m)
  {
    hide PositionFit, Ends;
    if |data| > cfg.packetSize && m.nextSend < |data| {
      forall x | x in net' && x !in net
        ensures Ends(f, |data|, x) ==> m.nextSend > FloorTo(|data| - 1, cfg.packetSize)
      {
        assert Mild(cfg, f, data, m, x);
      }
      PositionFitMore(cfg, net, net', f, |data|, m.nextSend);
    }
  }

  lemma OutsFitMore(cfg: Config, net: Net, net': Net, sent: map<Flow, seq<Byte>>, h: Addr, out: S.Outgoing)
    requires OutsFit(cfg, net, sent, h, out) && net <= net'
    requires forall k, x :: k in out && x in net' && x !in net ==>
      Mild(cfg, Flow(h, k.peer, k.id), sent[Flow(h, k.peer, k.id)], out[k], x)
    ensures OutsFit(cfg, net', sent, h, out)
  {
    hide OutFit, Mild;
    forall k | k in out
      ensures OutFit(cfg, net', Flow(h, k.peer, k.id), sent[Flow(h, k.peer, k.id)], out[k])
    {
      OutFitMore(cfg, net, net', Flow(h, k.peer, k.id), sent[Flow(h, k.peer, k.id)], out[k]);
    }
  }

  /** One host's step keeps everything if its own records and datagrams fit. */
  lemma PostFit(cfg: Config, w: World, h: Addr, host: Host, acts: seq<Action>)
    requires Base(cfg, w) && h in w.hosts && host.nextId >= w.hosts[h].nextId
    requires var net' := w.net + Emitted(h, acts);
      && HostFit(cfg, net', w.sent, h, host)
      && forall x :: x in Emitted(h, acts) ==> WireFit(cfg, net', w.sent, x)
    requires DeliveriesFit(w.sent, Deliveries(h, acts))
    ensures Base(cfg, Post(w, h, host, acts))
  {
    hide WireFit, OutsFit, InsFit;
    var net' := w.net + Emitted(h, acts);
    forall x | x in net' ensures WireFit(cfg, net', w.sent, x) {
      if x in w.net { WireFitMonotone(cfg, w.net, net', w.sent, x); }
    }
    forall h2 | h2 in w.hosts && h2 != h ensures HostFit(cfg, net', w.sent, h2, w.hosts[h2]) {
      assert HostFit(cfg, w.net, w.sent, h2, w.hosts[h2]);
      OthersFit(cfg, w.net, net', w.sent, h, acts, h2, w.hosts[h2].out);
      InsFitMonotone(cfg, w.net, net', w.sent, h2, w.hosts[h2].rcv.incoming);
    }
  }

  lemma OthersFit(cfg: Config, net: Net, net': Net, sent: map<Flow, seq<Byte>>, h: Addr, acts: seq<Action>,
                  h2: Addr, out: S.Outgoing)
    requires OutsFit(cfg, net, sent, h2, out) && h2 != h && net' == net + Emitted(h, acts)
    ensures OutsFit(cfg, net', sent, h2, out)
  {
    hide OutFit;
    forall k, x | k in out && x in net' && x !in net
      ensures Mild(cfg, Flow(h2, k.peer, k.id), sent[Flow(h2, k.peer, k.id)], out[k], x)
    {
      assert x.src == h;
    }
    OutsFitMore(cfg, net, net', sent, h2, out);
  }

  // ----- what the sender does -----

  lemma SentWireFit(cfg: Config, net: Net, net': Net, sent: map<Flow, seq<Byte>>, f: Flow, acts: seq<Action>, x: Wire)
    requires f in sent && SendsFit(cfg, net, f, sent[f], acts) && net <= net' && x in Emitted(f.src, acts)
    ensures WireFit(cfg, net', sent, x) && DataFlow(x) == f
  {
    hide Credited;
    var a :| a in acts && a.Send? && x == Wire(f.src, a.dest, a.dgram);
    DataFitMonotone(cfg, net, net', f, sent[f], a.dgram);
  }

  /** The other messages of the host fit once one message's packets are out. */
  lemma SiblingsFit(cfg: Config, net: Net, net': Net, sent: map<Flow, seq<Byte>>, h: Addr, out: S.Outgoing, k: Key, m: S.OutMsg)
    requires OutsFit(cfg, net, sent, h, out) && net <= net'
    requires forall x :: x in net' && x !in net ==> x.dgram.pkt.typ == Data && DataFlow(x) == Flow(h, k.peer, k.id)
    requires Flow(h, k.peer, k.id) in sent && OutFit(cfg, net', Flow(h, k.peer, k.id), sent[Flow(h, k.peer, k.id)], m)
    ensures OutsFit(cfg, net', sent, h, out[k := m])
  {
    hide OutFit;
    forall j | j in out && j != k
      ensures OutFit(cfg, net', Flow(h, j.peer, j.id), sent[Flow(h, j.peer, j.id)], out[j])
    {
      var f := Flow(h, j.peer, j.id);
      forall x | x in net' && x !in net ensures Mild(cfg, f, sent[f], out[j], x) {
      }
      OutFitMore(cfg, net, net', f, sent[f], out[j]);
    }
  }

  /** Sending packets of one message that fit, and updating its record, keeps everything. */
  lemma SenderStepFit(cfg: Config, w: World, h: Addr, k: Key, m: S.OutMsg, acts: seq<Action>)
    requires Base(cfg, w) && h in w.hosts
    requires var f := Flow(h, k.peer, k.id);
      && f in w.sent
      && SendsFit(cfg, w.net, f, w.sent[f], acts)
      && OutFit(cfg, w.net + Emitted(h, acts), f, w.sent[f], m)
    ensures Base(cfg, Post(w, h, w.hosts[h].(out := w.hosts[h].out[k := m]), acts))
  {
    assert forall a :: a in acts ==> a.Send?;
    OnlySends(h, acts);
    hide SendsFit, OutFit, InsFit, WireFit, Emitted, Deliveries;
    var f, host := Flow(h, k.peer, k.id), w.hosts[h];
    var net' := w.net + Emitted(h, acts);
    assert HostFit(cfg, w.net, w.sent, h, host);
    forall x | x in Emitted(h, acts)
      ensures WireFit(cfg, net', w.sent, x) && x.dgram.pkt.typ == Data && DataFlow(x) == f
    {
      SentWireFit(cfg, w.net, net', w.sent, f, acts, x);
      SentIsData(cfg, w.net, f, w.sent[f], acts, x);
    }
    hide OutsFit;
    SiblingsFit(cfg, w.net, net', w.sent, h, host.out, k, m);
    InsFitMonotone(cfg, w.net, net', w.sent, h, host.rcv.incoming);
    PostFit(cfg, w, h, host.(out := host.out[k := m]), acts);
  }

  lemma SentIsData(cfg: Config, net: Net, f: Flow, data: seq<Byte>, acts: seq<Action>, x: Wire)
    requires SendsFit(cfg, net, f, data, acts) && x in Emitted(f.src, acts)
    ensures x.dgram.pkt.typ == Data
  {
  }

  /** Pumping one message of host h's. */
  lemma PumpStepFit(cfg: Config, w: World, h: Addr, k: Key, m: S.OutMsg, upTo: nat, now: Time)
    requires Base(cfg, w) && h in w.hosts
    requires var f := Flow(h, k.peer, k.id);
      && f in w.sent
      && OutShape(cfg, w.net, f, w.sent[f], m)
      && EndFit(cfg, w.net, f, |w.sent[f]|, Min(upTo, |w.sent[f]|))
      && Credited(cfg, w.net, f, Min(upTo, |w.sent[f]|))
      && (Min(upTo, |w.sent[f]|) <= cfg.unscheduledBytes ==> m.nextSend == 0 || Min(upTo, |w.sent[f]|) <= m.nextSend)
      && Min(cfg.unscheduledBytes, |w.sent[f]|) <= Max(m.nextSend, Min(upTo, |w.sent[f]|))
    ensures Base(cfg, Post(w, h, w.hosts[h].(out := w.hosts[h].out[k := S.Pumped(cfg, m, upTo, now)]),
                           S.PumpedSends(cfg, k, m, upTo)))
  {
    var f := Flow(h, k.peer, k.id);
    PumpedFit(cfg, w.net, f, w.sent[f], m, upTo, now);
    hide S.Pumped, S.PumpedSends, OutShape, EndFit, Credited, Emitted, SendsFit, Post;
    SenderStepFit(cfg, w, h, k, S.Pumped(cfg, m, upTo, now), S.PumpedSends(cfg, k, m, upTo));
  }

  /** Handing out a fresh id disturbs nothing. */
  lemma RegisterFit(cfg: Config, w: World, h: Addr, dest: Addr, data: seq<Byte>)
    requires Base(cfg, w) && h in w.hosts && |data| < TWO32 && w.hosts[h].nextId < TWO64
    ensures var f := Flow(h, dest, w.hosts[h].nextId);
      && f !in w.sent
      && Base(cfg, Register(w, h, dest, data))
      && forall m: S.OutMsg :: m.data == data && m.nextSend == 0 && m.doneAt.None? ==> OutShape(cfg, w.net, f, data, m)
  {
    hide WireFit, OutsFit, InsFit, Ends, OutShape;
    var f := Flow(h, dest, w.hosts[h].nextId);
    var w' := Register(w, h, dest, data);
    forall x | x in w.net ensures WireFit(cfg, w.net, w'.sent, x) && !Ends(f, |data|, x) {
      assert WireFit(cfg, w.net, w.sent, x);
      NewFlowWireFit(cfg, w.net, w.sent, f, data, x);
    }
    forall h2 | h2 in w'.hosts ensures HostFit(cfg, w.net, w'.sent, h2, w'.hosts[h2]) {
      assert HostFit(cfg, w.net, w.sent, h2, w.hosts[h2]);
      NewFlowHostFit(cfg, w.net, w.sent, f, data, h2, w.hosts[h2].out, w.hosts[h2].rcv.incoming);
    }
    forall m: S.OutMsg | m.data == data && m.nextSend == 0 && m.doneAt.None? ensures OutShape(cfg, w.net, f, data, m) {
      NewFlowShape(cfg, w.net, f, data, m);
    }
  }

  lemma NewFlowWireFit(cfg: Config, net: Net, sent: map<Flow, seq<Byte>>, f: Flow, data: seq<Byte>, x: Wire)
    requires WireFit(cfg, net, sent, x) && f !in sent
    ensures WireFit(cfg, net, sent[f := data], x) && !Ends(f, |data|, x)
  {
    hide DataFit, ResendFit, EndFit, Representable;
  }

  lemma NewFlowHostFit(cfg: Config, net: Net, sent: map<Flow, seq<Byte>>, f: Flow, data: seq<Byte>, h: Addr,
                       out: S.Outgoing, incoming: R.Incoming)
    requires OutsFit(cfg, net, sent, h, out) && InsFit(cfg, net, sent, h, incoming) && f !in sent
    ensures OutsFit(cfg, net, sent[f := data], h, out) && InsFit(cfg, net, sent[f := data], h, incoming)
  {
    hide OutFit, InFit;
  }

  lemma NewFlowShape(cfg: Config, net: Net, f: Flow, data: seq<Byte>, m: S.OutMsg)
    requires forall x :: x in net ==> !Ends(f, |data|, x)
    requires m.data == data && m.nextSend == 0 && m.doneAt.None?
    ensures OutShape(cfg, net, f, data, m)
  {
    hide Ends;
  }

  lemma SubmitFit(cfg: Config, w: World, e: Event)
    requires Base(cfg, w) && Enabled(w, e) && e.Submit?
    ensures Base(cfg, Apply(cfg, w, e))
  {
    var h, data := e.host, e.data;
    var k := Key(e.dest, w.hosts[h].nextId);
    RegisterFit(cfg, w, h, e.dest, data);
    var m := S.Fresh(cfg, data, e.now, e.retransmit);
    hide Base, OutShape, S.Pumped, S.PumpedSends;
    PumpStepFit(cfg, Register(w, h, e.dest, data), h, k, m, m.grantedTo, e.now);
  }

  lemma GrantFit(cfg: Config, w: World, x: Wire, now: Time)
    requires Base(cfg, w) && x in w.net && x.dst in w.hosts && x.dgram.pkt.typ == Grant
    ensures var (out, acts) := S.HandleGrant(cfg, w.hosts[x.dst].out, x.src, x.dgram.pkt, now);
      Base(cfg, Post(w, x.dst, w.hosts[x.dst].(out := out), acts))
  {
    var h, k := x.dst, Key(x.src, x.dgram.pkt.msgId);
    var out := w.hosts[h].out;
    assert HostFit(cfg, w.net, w.sent, h, w.hosts[h]) && WireFit(cfg, w.net, w.sent, x);
    hide EndFit, OutShape, Representable, S.Pumped, S.PumpedSends, Post;
    if k in out && Min(x.dgram.pkt.offset, |out[k].data|) > out[k].grantedTo {
      var f := Flow(h, k.peer, k.id);
      var limit := Min(x.dgram.pkt.offset, |out[k].data|);
      DataOfShape(cfg, w.net, f, w.sent[f], out[k]);
      GrantedEnd(cfg, w.net, f, |w.sent[f]|, x);
      PumpStepFit(cfg, w, h, k, out[k], limit, now);
    } else {
      IdleFit(cfg, w, h);
    }
  }

  lemma DataOfShape(cfg: Config, net: Net, f: Flow, data: seq<Byte>, m: S.OutMsg)
    requires OutShape(cfg, net, f, data, m)
    ensures m.data == data
  {
  }

  lemma GrantedEnd(cfg: Config, net: Net, f: Flow, len: nat, x: Wire)
    requires x in net && GrantsUpTo(f, x, 0) && EndFit(cfg, net, f, len, x.dgram.pkt.offset)
    ensures x.dgram.pkt.offset <= len && Credited(cfg, net, f, x.dgram.pkt.offset)
  {
    assert GrantsUpTo(f, x, x.dgram.pkt.offset);
  }

  lemma IdleFit(cfg: Config, w: World, h: Addr)
    requires Base(cfg, w) && h in w.hosts
    ensures Base(cfg, Post(w, h, w.hosts[h], []))
  {
    assert w.hosts[h := w.hosts[h]] == w.hosts;
    assert w.net + Emitted(h, []) == w.net;
    assert w.delivered + Deliveries(h, []) == w.delivered;
  }

  lemma ResendStepFit(cfg: Config, w: World, x: Wire, now: Time)
    requires Base(cfg, w) && x in w.net && x.dst in w.hosts && x.dgram.pkt.typ == PacketType.Resend
    ensures var (out, acts) := S.HandleResend(cfg, w.hosts[x.dst].out, x.src, x.dgram.pkt, now);
      Base(cfg, Post(w, x.dst, w.hosts[x.dst].(out := out), acts))
  {
    var h, k := x.dst, Key(x.src, x.dgram.pkt.msgId);
    var out := w.hosts[h].out;
    assert HostFit(cfg, w.net, w.sent, h, w.hosts[h]) && WireFit(cfg, w.net, w.sent, x);
    hide OutFit, ResendFit, Representable, S.Answered, S.AnswerSends, SendsFit, Emitted, Post;
    if k in out {
      var f := Flow(h, k.peer, k.id);
      AnsweredFit(cfg, w.net, f, w.sent[f], out[k], x.dgram.pkt, now);
      SenderStepFit(cfg, w, h, k, S.Answered(out[k], x.dgram.pkt, now), S.AnswerSends(cfg, k, out[k], x.dgram.pkt));
    } else {
      IdleFit(cfg, w, h);
    }
  }

  /** Dropping messages, or changing their timers and flags, disturbs nothing. */
  lemma RetimedFit(cfg: Config, net: Net, sent: map<Flow, seq<Byte>>, h: Addr, out: S.Outgoing, out': S.Outgoing)
    requires OutsFit(cfg, net, sent, h, out) && Retimed(out, out')
    ensures OutsFit(cfg, net, sent, h, out')
  {
    hide PositionFit;
  }

  lemma RetimedStepFit(cfg: Config, w: World, h: Addr, out: S.Outgoing)
    requires Base(cfg, w) && h in w.hosts && Retimed(w.hosts[h].out, out)
    ensures Base(cfg, Post(w, h, w.hosts[h].(out := out), []))
  {
    assert HostFit(cfg, w.net, w.sent, h, w.hosts[h]);
    RetimedFit(cfg, w.net, w.sent, h, w.hosts[h].out, out);
    hide OutsFit, InsFit, WireFit;
    assert w.net + Emitted(h, []) == w.net;
    PostFit(cfg, w, h, w.hosts[h].(out := out), []);
  }

  /** A poke fits, and is mild to its message. */
  lemma PokeStepFit(cfg: Config, net: Net, net': Net, sent: map<Flow, seq<Byte>>, h: Addr, out: S.Outgoing, a: Action)
    requires OutsFit(cfg, net, sent, h, out) && net <= net' && IsPoke(cfg.packetSize, out, a)
    requires forall f :: f in sent ==> |sent[f]| < TWO32 && f.id < TWO64
    ensures var x, k := Wire(h, a.dest, a.dgram), KeyOf(a);
      WireFit(cfg, net', sent, x) && DataFlow(x) == Flow(h, k.peer, k.id) && Mild(cfg, DataFlow(x), sent[DataFlow(x)], out[k], x)
  {
    var k := KeyOf(a);
    var f := Flow(h, k.peer, k.id);
    assert OutFit(cfg, net, f, sent[f], out[k]);
    if a == ChunkAct(cfg.packetSize, k, out[k].data, 0) {
      FirstFits(cfg, net, f, sent[f]);
    } else {
      PokeFits(cfg, net, f, sent[f], out[k]);
    }
    hide Credited, IsSlice, PositionFit, ChunkDatagram;
    DataFitMonotone(cfg, net, net', f, sent[f], a.dgram);
  }

  lemma TickSenderFit(cfg: Config, w: World, e: Event)
    requires Base(cfg, w) && Enabled(w, e) && e.TickSender?
    ensures Base(cfg, Apply(cfg, w, e))
  {
    var h := e.host;
    var host := w.hosts[h];
    var kept := S.Lingering(cfg, host.out, e.now);
    assert HostFit(cfg, w.net, w.sent, h, host);
    assert Retimed(host.out, kept);
    RetimedFit(cfg, w.net, w.sent, h, host.out, kept);
    TickFromPokes(cfg, kept, e.order, 0, e.now);
    var (out, acts) := S.Tick(cfg, host.out, e.order, e.now);
    PokesFit(cfg, w, h, kept, out, acts);
  }

  lemma PokesFit(cfg: Config, w: World, h: Addr, kept: S.Outgoing, out: S.Outgoing, acts: seq<Action>)
    requires Base(cfg, w) && h in w.hosts && OutsFit(cfg, w.net, w.sent, h, kept) && Retimed(kept, out)
    requires forall a :: a in acts ==> IsPoke(cfg.packetSize, kept, a)
    ensures Base(cfg, Post(w, h, w.hosts[h].(out := out), acts))
  {
    assert forall a :: a in acts ==> a.Send?;
    OnlySends(h, acts);
    hide IsPoke, Mild, InsFit, WireFit, Deliveries, Retimed;
    var net' := w.net + Emitted(h, acts);
    assert HostFit(cfg, w.net, w.sent, h, w.hosts[h]);
    forall k, x | k in kept && x in net' && x !in w.net
      ensures Mild(cfg, Flow(h, k.peer, k.id), w.sent[Flow(h, k.peer, k.id)], kept[k], x)
    {
      var a :| a in acts && a.Send? && x == Wire(h, a.dest, a.dgram);
      PokeStepFit(cfg, w.net, net', w.sent, h, kept, a);
      if KeyOf(a) != k { OtherMild(cfg, Flow(h, k.peer, k.id), w.sent[Flow(h, k.peer, k.id)], kept[k], x); }
    }
    forall x | x in Emitted(h, acts) ensures WireFit(cfg, net', w.sent, x) {
      var a :| a in acts && a.Send? && x == Wire(h, a.dest, a.dgram);
      PokeStepFit(cfg, w.net, net', w.sent, h, kept, a);
    }
    hide Emitted;
    OutsFitMore(cfg, w.net, net', w.sent, h, kept);
    RetimedFit(cfg, net', w.sent, h, kept, out);
    InsFitMonotone(cfg, w.net, net', w.sent, h, w.hosts[h].rcv.incoming);
    hide OutsFit;
    PostFit(cfg, w, h, w.hosts[h].(out := out), acts);
  }

  lemma OtherMild(cfg: Config, f: Flow, data: seq<Byte>, m: S.OutMsg, x: Wire)
    requires DataFlow(x) != f
    ensures Mild(cfg, f, data, m, x)
  {
  }

  // ----- what the receiver does -----

  lemma CreditActFit(cfg: Config, net: Net, net': Net, sent: map<Flow, seq<Byte>>, h: Addr,
                     s: R.ReceiverState, acts: seq<Action>, a: Action)
    requires InsFit(cfg, net, sent, h, s.incoming) && IsCreditAct(cfg, s.incoming, acts, a)
    requires forall f :: f in sent ==> |sent[f]| < TWO32 && f.id < TWO64
    requires net <= net' && Emitted(h, acts) <= net'
    ensures WireFit(cfg, net', sent, Wire(h, a.dest, a.dgram)) && a.dgram.pkt.typ != Data
  {
    hide InFit, Emitted, Loose, Credited, Backed;
    var k := KeyOf(a);
    var f, m := Flow(k.peer, h, k.id), s.incoming[k];
    if IsGrant(cfg, m, a.dgram.pkt) {
      TargetFit(cfg, net, f, sent[f], m);
      EndFitMonotone(cfg, net, net', f, |sent[f]|, R.Target(cfg, m));
    } else {
      IsResendFit(cfg, net, net', f, sent[f], m, acts, a.dgram.pkt);
    }
  }

  /** Scheduling and ticking at one receiver. */
  lemma EvolveFit(cfg: Config, net: Net, net': Net, sent: map<Flow, seq<Byte>>, h: Addr,
                  s: R.ReceiverState, s': R.ReceiverState, acts: seq<Action>)
    requires InsFit(cfg, net, sent, h, s.incoming) && Apart(s) && Evolves(cfg, s, s', acts)
    requires forall f :: f in sent ==> |sent[f]| < TWO32 && f.id < TWO64
    requires net <= net' && Emitted(h, acts) <= net'
    ensures InsFit(cfg, net', sent, h, s'.incoming) && Apart(s')
    ensures forall x :: x in Emitted(h, acts) ==> WireFit(cfg, net', sent, x) && x.dgram.pkt.typ != Data
  {
    hide InFit, IsCreditAct, WireFit, Backed;
    forall k | k in s'.incoming
      ensures InFit(cfg, net', Flow(k.peer, h, k.id), sent[Flow(k.peer, h, k.id)], s'.incoming[k])
      ensures s'.incoming[k].totalLen == s.incoming[k].totalLen
    {
      var f := Flow(k.peer, h, k.id);
      assert Regranted(cfg, acts, k, s.incoming[k], s'.incoming[k]);
      RegrantedFit(cfg, net, net', f, sent[f], s.incoming[k], acts, s'.incoming[k]);
    }
    forall x | x in Emitted(h, acts) ensures WireFit(cfg, net', sent, x) && x.dgram.pkt.typ != Data {
      var a :| a in acts && a.Send? && x == Wire(h, a.dest, a.dgram);
      CreditActFit(cfg, net, net', sent, h, s, acts, a);
    }
  }

  /** Packets that are not data leave the senders' records as they are. */
  lemma NoDataFit(cfg: Config, net: Net, net': Net, sent: map<Flow, seq<Byte>>, h: Addr, out: S.Outgoing)
    requires OutsFit(cfg, net, sent, h, out) && net <= net'
    requires forall x :: x in net' && x !in net ==> x.dgram.pkt.typ != Data
    ensures OutsFit(cfg, net', sent, h, out)
  {
    hide OutFit;
    forall k, x | k in out && x in net' && x !in net
      ensures Mild(cfg, Flow(h, k.peer, k.id), sent[Flow(h, k.peer, k.id)], out[k], x)
    {
    }
    OutsFitMore(cfg, net, net', sent, h, out);
  }

  /** A receiver's step whose actions are credit packets, after deliveries already accounted for. */
  lemma CreditStepFit(cfg: Config, w: World, h: Addr, s: R.ReceiverState, s': R.ReceiverState, acts: seq<Action>)
    requires Base(cfg, w) && h in w.hosts && Apart(s)
    requires InsFit(cfg, w.net, w.sent, h, s.incoming) && Evolves(cfg, s, s', acts)
    ensures Base(cfg, Post(w, h, w.hosts[h].(rcv := s'), acts))
  {
    assert forall a :: a in acts ==> a.Send?;
    OnlySends(h, acts);
    hide OutsFit, InsFit, WireFit, Evolves, Apart, Deliveries;
    var host := w.hosts[h];
    var net' := w.net + Emitted(h, acts);
    EvolveFit(cfg, w.net, net', w.sent, h, s, s', acts);
    assert HostFit(cfg, w.net, w.sent, h, host);
    hide Emitted;
    NoDataFit(cfg, w.net, net', w.sent, h, host.out);
    PostFit(cfg, w, h, host.(rcv := s'), acts);
  }

  lemma TickReceiverFit(cfg: Config, w: World, e: Event)
    requires Base(cfg, w) && Enabled(w, e) && e.TickReceiver?
    ensures Base(cfg, Apply(cfg, w, e))
  {
    hide OutsFit, InsFit, WireFit, Evolves, Apart, R.Tick;
    var s := w.hosts[e.host].rcv;
    assert HostFit(cfg, w.net, w.sent, e.host, w.hosts[e.host]);
    TickEvolves(cfg, s, e.order, e.now);
    var (s', acts) := R.Tick(cfg, s, e.order, e.now);
    CreditStepFit(cfg, w, e.host, s, s', acts);
  }

  /** The record a data packet is taken into, before and after. */
  lemma AcceptFit(cfg: Config, w: World, x: Wire, now: Time)
    requires Base(cfg, w) && x in w.net && x.dst in w.hosts && x.dgram.pkt.typ == Data
    ensures var s, f, k := w.hosts[x.dst].rcv, DataFlow(x), Key(x.src, x.dgram.pkt.msgId);
      && f in w.sent && x.dgram.pkt.msgLen == |w.sent[f]|
      && R.Fits(cfg, R.MsgFor(cfg, s, k, x.dgram.pkt, now), x.dgram)
      && (w.sent[f] != [] ==> InFit(cfg, w.net, f, w.sent[f], R.Store(cfg, R.MsgFor(cfg, s, k, x.dgram.pkt, now), x.dgram, now)))
      && (k in s.incoming ==> w.sent[f] != [])
  {
    var s, f, k := w.hosts[x.dst].rcv, DataFlow(x), Key(x.src, x.dgram.pkt.msgId);
    assert WireFit(cfg, w.net, w.sent, x) && HostFit(cfg, w.net, w.sent, x.dst, w.hosts[x.dst]);
    var data := w.sent[f];
    if k in s.incoming {
      NonEmptyFit(cfg, w.net, f, data, s.incoming[k]);
    } else if data != [] {
      NewMsgFit(cfg, w.net, f, data, now);
    }
    hide InFit, WireFit, Credited, OutsFit, R.Store, R.NewMsg;
    if data != [] {
      StoreFit(cfg, w.net, f, data, R.MsgFor(cfg, s, k, x.dgram.pkt, now), x, now);
    }
  }

  lemma NonEmptyFit(cfg: Config, net: Net, f: Flow, data: seq<Byte>, m: R.InMsg)
    requires InFit(cfg, net, f, data, m)
    ensures data != []
  {
  }

  lemma RefusedFit(cfg: Config, w: World, x: Wire)
    requires Base(cfg, w) && x in w.net && x.dst in w.hosts && x.dgram.pkt.typ == Data
    ensures var acts := R.RefusalSends(cfg, w.hosts[x.dst].rcv, Key(x.src, x.dgram.pkt.msgId), x.dgram.pkt);
      Base(cfg, Post(w, x.dst, w.hosts[x.dst], acts))
  {
    var h := x.dst;
    var acts := R.RefusalSends(cfg, w.hosts[h].rcv, Key(x.src, x.dgram.pkt.msgId), x.dgram.pkt);
    var net' := w.net + Emitted(h, acts);
    assert WireFit(cfg, w.net, w.sent, x) && HostFit(cfg, w.net, w.sent, h, w.hosts[h]);
    assert forall y :: y in Emitted(h, acts) ==> y.dgram.pkt.typ == Busy && WireFit(cfg, net', w.sent, y);
    OnlySends(h, acts);
    hide OutsFit, InsFit, WireFit, Emitted, Deliveries, R.RefusalSends;
    NoDataFit(cfg, w.net, net', w.sent, h, w.hosts[h].out);
    InsFitMonotone(cfg, w.net, net', w.sent, h, w.hosts[h].rcv.incoming);
    PostFit(cfg, w, h, w.hosts[h], acts);
  }

  lemma DeliverStepFit(cfg: Config, w: World, h: Addr, f: Flow, data: seq<Byte>,
                       s: R.ReceiverState, s': R.ReceiverState, rest: seq<Action>)
    requires Base(cfg, w) && h in w.hosts && f.dst == h && f in w.sent && |data| == |w.sent[f]| && Apart(s)
    requires InsFit(cfg, w.net, w.sent, h, s.incoming) && Evolves(cfg, s, s', rest)
    ensures Base(cfg, Post(w, h, w.hosts[h].(rcv := s'), [Deliver(f.src, f.id, data)] + rest))
  {
    hide OutsFit, InsFit, WireFit, Evolves, Apart;
    var acts := [Deliver(f.src, f.id, data)] + rest;
    var w1 := w.(delivered := w.delivered + [Delivery(f, data)]);
    CreditStepFit(cfg, w1, h, s, s', rest);
    assert acts[1..] == rest;
    assert Emitted(h, acts) == Emitted(h, rest);
    ConcatAssoc(w.delivered, [Delivery(f, data)], Deliveries(h, rest));
    assert Post(w, h, w.hosts[h].(rcv := s'), acts) == Post(w1, h, w.hosts[h].(rcv := s'), rest);
  }

  /** The receiver's records with one of them replaced. */
  lemma InsFitUpdate(cfg: Config, net: Net, sent: map<Flow, seq<Byte>>, h: Addr, incoming: R.Incoming, k: Key, m: R.InMsg)
    requires InsFit(cfg, net, sent, h, incoming)
    ensures InsFit(cfg, net, sent, h, incoming - {k})
    ensures Flow(k.peer, h, k.id) in sent && InFit(cfg, net, Flow(k.peer, h, k.id), sent[Flow(k.peer, h, k.id)], m) ==>
      InsFit(cfg, net, sent, h, incoming[k := m])
  {
    hide InFit;
  }

  lemma DataArrivalFit(cfg: Config, w: World, x: Wire, order: seq<Key>, now: Time)
    requires Base(cfg, w) && x in w.net && x.dst in w.hosts && x.dgram.pkt.typ == Data
    ensures R.Admissible(cfg, w.hosts[x.dst].rcv, x.src, x.dgram, now)
    ensures var (rcv, acts) := R.HandleData(cfg, w.hosts[x.dst].rcv, x.src, x.dgram, order, now);
      Base(cfg, Post(w, x.dst, w.hosts[x.dst].(rcv := rcv), acts))
  {
    hide OutsFit, InsFit, WireFit, InFit, Evolves, Post, R.Schedule, R.Continue, R.RefusalSends, R.Store, R.Fits, R.NewMsg;
    var h, s, k, f := x.dst, w.hosts[x.dst].rcv, Key(x.src, x.dgram.pkt.msgId), DataFlow(x);
    AcceptFit(cfg, w, x, now);
    if R.Refused(cfg, s, k, x.dgram.pkt) {
      RefusedFit(cfg, w, x);
      return;
    }
    assert HostFit(cfg, w.net, w.sent, h, w.hosts[h]);
    var s' := R.Accept(cfg, s, k, x.dgram, now);
    InsFitUpdate(cfg, w.net, w.sent, h, s.incoming, k, s'.incoming[k]);
    TotalKept(cfg, R.MsgFor(cfg, s, k, x.dgram.pkt, now), x.dgram, now);
    NewTotal(cfg, x.dgram.pkt.msgLen, now);
    if R.Finished(s', k, x.dgram) {
      var data := if x.dgram.pkt.msgLen == 0 then [] else s'.incoming[k].buf;
      if w.sent[f] != [] { SizeFit(cfg, w.net, f, w.sent[f], s'.incoming[k]); }
      var s2 := R.DeliverTo(s', k);
      assert s2.incoming == s.incoming - {k};
      ScheduleEvolves(cfg, s2, order, now);
      var (s3, rest) := R.Schedule(cfg, s2, order, now);
      DeliverStepFit(cfg, w, h, f, data, s2, s3, rest);
    } else {
      ContinueEvolves(cfg, s', k, k !in s.incoming, order, now);
      var (s3, acts) := R.Continue(cfg, s', k, k !in s.incoming, order, now);
      CreditStepFit(cfg, w, h, s', s3, acts);
    }
  }

  lemma TotalKept(cfg: Config, m: R.InMsg, d: Datagram, now: Time)
    requires R.Fits(cfg, m, d)
    ensures R.Store(cfg, m, d, now).totalLen == m.totalLen
  {
  }

  lemma NewTotal(cfg: Config, len: nat, now: Time)
    ensures R.NewMsg(cfg, len, now).totalLen == len
  {
  }

  lemma SizeFit(cfg: Config, net: Net, f: Flow, data: seq<Byte>, m: R.InMsg)
    requires InFit(cfg, net, f, data, m)
    ensures |m.buf| == |data|
  {
  }

  lemma ArriveFit(cfg: Config, w: World, e: Event)
    requires Base(cfg, w) && Enabled(w, e) && e.Arrive?
    ensures Base(cfg, Apply(cfg, w, e))
  {
    var x := e.wire;
    DecodeEncode(x.dgram);
    hide Base, Post, Encode, Decode, R.HandleData, R.Admissible, S.HandleGrant, S.HandleResend;
    match x.dgram.pkt.typ
    case Data => DataArrivalFit(cfg, w, x, e.order, e.now);
    case Grant => GrantFit(cfg, w, x, e.now);
    case Resend => ResendStepFit(cfg, w, x, e.now);
    case Busy =>
      BusyRetimes(w.hosts[x.dst].out, x.src, x.dgram.pkt, e.now);
      RetimedStepFit(cfg, w, x.dst, S.HandleBusy(w.hosts[x.dst].out, x.src, x.dgram.pkt, e.now));
  }

  lemma ConfirmFit(cfg: Config, w: World, e: Event)
    requires Base(cfg, w) && Enabled(w, e) && (e.Confirm? || e.Finish?)
    ensures Base(cfg, Apply(cfg, w, e))
  {
    var out, k := w.hosts[e.host].out, Key(e.dest, e.id);
    ConfirmRetimes(out, k);
    hide Base, Retimed, Post, S.Confirm, S.Finish;
    RetimedStepFit(cfg, w, e.host, if e.Confirm? then S.Confirm(out, k) else S.Finish(out, k));
  }

  /** Every event keeps the invariant, whatever the configuration. */
  lemma BaseStep(cfg: Config, w: World, e: Event)
    requires Base(cfg, w) && Enabled(w, e)
    ensures Base(cfg, Apply(cfg, w, e))
  {
    hide Apply, Base, Enabled;
    match e
    case Submit(_, _, _, _, _) => SubmitFit(cfg, w, e);
    case Arrive(_, _, _) => ArriveFit(cfg, w, e);
    case TickSender(_, _, _) => TickSenderFit(cfg, w, e);
    case TickReceiver(_, _, _) => TickReceiverFit(cfg, w, e);
    case Confirm(_, _, _) => ConfirmFit(cfg, w, e);
    case Finish(_, _, _) => ConfirmFit(cfg, w, e);
  }
}
