/** When the transport keeps what it is for: every message handed out is one that was submitted. */
module HomaIntegrity {
  import opened Bytes
  import opened Chunks
  import opened HomaPacket
  import opened HomaTypes
  import S = HomaSender
  import R = HomaReceiver
  import opened HomaCredit
  import opened HomaFlow
  import opened HomaWorld
  import opened HomaSteps
  import opened HomaRun
  import opened HomaMisaligned
  import opened HomaSoloRun
  import HomaRetransmit

  /** In every run, every message handed out was submitted before, byte for byte, under its id. */
  ghost predicate Integrity(cfg: Config) {
    forall ws: seq<World>, es, i: nat, d :: IsRun(cfg, ws, es) && i < |ws| && d in ws[i].delivered ==> Genuine(ws, es, i, d)
  }

  ghost predicate Genuine(ws: seq<World>, es: seq<Event>, i: nat, d: Delivery) {
    exists j: nat :: j < i && Submits(ws, es, j, d.flow, d.data)
  }

  // ----- a receiver that takes no messages -----

  ghost predicate Idle(w: World) {
    w.delivered == [] && forall h :: h in w.hosts ==> w.hosts[h].rcv.incoming == map[]
  }

  lemma PostIdle(w: World, h: Addr, host: Host, acts: seq<Action>)
    requires Idle(w) && host.rcv.incoming == map[] && forall a :: a in acts ==> a.Send?
    ensures Idle(Post(w, h, host, acts))
  {
    OnlySends(h, acts);
  }

  lemma ArriveIdle(cfg: Config, w: World, e: Event)
    requires Idle(w) && Enabled(w, e) && e.Arrive? && cfg.maxIncoming == 0
    ensures Idle(Apply(cfg, w, e))
  {
    var x, host := e.wire, w.hosts[e.wire.dst];
    DecodeEncode(x.dgram);
    var (host', acts) := Receive(cfg, host, x.src, Encode(x.dgram), e.order, e.now);
    var key, pkt := Key(x.src, x.dgram.pkt.msgId), x.dgram.pkt;
    hide Encode, Decode, Representable, Idle;
    if pkt.typ == Grant && key in host.out {
      var m := host.out[key];
      HomaRetransmit.PumpSendsAbout(key, m.data, m.nextSend, Min(Min(pkt.offset, |m.data|), |m.data|), cfg.packetSize);
    }
    if pkt.typ == Resend && key in host.out {
      var m := host.out[key];
      HomaRetransmit.ResendSendsAbout(key, m.data, Min(pkt.offset, |m.data|), S.ResendEnd(|m.data|, pkt), cfg.packetSize);
    }
    assert host.rcv.incoming == map[] by { IdleAt(w, x.dst); }
    PostIdle(w, x.dst, host', acts);
  }

  lemma IdleAt(w: World, h: Addr)
    requires Idle(w) && h in w.hosts
    ensures w.hosts[h].rcv.incoming == map[]
  {
  }

  lemma StepIdle(cfg: Config, w: World, e: Event)
    requires Idle(w) && Enabled(w, e) && cfg.maxIncoming == 0
    ensures Idle(Apply(cfg, w, e))
  {
    match e
    case Submit(h, dest, data, retransmit, now) =>
      var key := Key(dest, w.hosts[h].nextId);
      HomaRetransmit.PumpSendsAbout(key, data, 0, Min(Min(cfg.unscheduledBytes, |data|), |data|), cfg.packetSize);
      var w' := Register(w, h, dest, data);
      var (out, acts) := S.Start(cfg, w.hosts[h].out, key, data, now, retransmit);
      PostIdle(w', h, w'.hosts[h].(out := out), acts);
    case Arrive(_, _, _) => ArriveIdle(cfg, w, e);
    case TickSender(h, order, now) =>
      TickFromPokes(cfg, S.Lingering(cfg, w.hosts[h].out, now), order, 0, now);
      var (out, acts) := S.Tick(cfg, w.hosts[h].out, order, now);
      PostIdle(w, h, w.hosts[h].(out := out), acts);
    case TickReceiver(h, order, now) =>
      TickEvolves(cfg, w.hosts[h].rcv, order, now);
      hide R.Tick;
      var (rcv, acts) := R.Tick(cfg, w.hosts[h].rcv, order, now);
      assert rcv.incoming == map[];
      PostIdle(w, h, w.hosts[h].(rcv := rcv), acts);
    case Confirm(h, dest, id) =>
      PostIdle(w, h, w.hosts[h].(out := S.Confirm(w.hosts[h].out, Key(dest, id))), []);
    case Finish(h, dest, id) =>
      PostIdle(w, h, w.hosts[h].(out := S.Finish(w.hosts[h].out, Key(dest, id))), []);
  }

  lemma {:induction false} RunIdle(cfg: Config, ws: seq<World>, es: seq<Event>, i: nat)
    requires IsRun(cfg, ws, es) && i < |ws| && cfg.maxIncoming == 0
    ensures Idle(ws[i])
  {
    if i > 0 {
      hide Idle, Apply, Enabled, Initial;
      RunIdle(cfg, ws, es, i - 1);
      RunStep(cfg, ws, es, i - 1);
      StepIdle(cfg, ws[i - 1], es[i - 1]);
    }
  }

  // ----- the condition -----

  /** Where a message one grant and one packet longer than the unscheduled chunks is not too long, integrity
      holds exactly if credit grows by whole packets (or no message is ever taken). */
  lemma IntegrityIffAligned(cfg: Config)
    requires ChunkStart(cfg.packetSize, WindowChunks(cfg)) + cfg.grantIncrement + cfg.packetSize <= MAX_MSG_LEN
    ensures Integrity(cfg) <==> Aligned(cfg) || cfg.maxIncoming == 0
  {
    hide IsRun, Submits, Aligned, Idle;
    if Aligned(cfg) || cfg.maxIncoming == 0 {
      forall ws: seq<World>, es, i: nat, d | IsRun(cfg, ws, es) && i < |ws| && d in ws[i].delivered ensures Genuine(ws, es, i, d) {
        if Aligned(cfg) {
          EndToEndIntegrity(cfg, ws, es, i, d);
        } else {
          RunIdle(cfg, ws, es, i);
          IdleDelivers(ws[i], d);
        }
      }
    } else {
      var ws, es, t, d := MisalignedCorrupts(cfg);
      RunLength(cfg, ws, es);
      assert !Genuine(ws, es, |es|, d);
    }
  }

  lemma IdleDelivers(w: World, d: Delivery)
    requires Idle(w)
    ensures d !in w.delivered
  {
  }

  lemma RunLength(cfg: Config, ws: seq<World>, es: seq<Event>)
    requires IsRun(cfg, ws, es)
    ensures |ws| == |es| + 1
  {
  }

  /** The default parameters (in milliseconds) do not meet the condition. */
  const Default: Config := ConfigFields(1200, 10240, 262144, 20, 40, 50, 500, 5000, 1024, 2, 200)

  lemma DefaultBreaks()
    ensures !Integrity(Default)
  {
    QuotRemIsDivMod(262144, 1200);
    QuotRemIsDivMod(10240 + 1200 - 1, 1200);
    ChunkStartIsProduct(1200, 9);
    hide Rem, Quot, ChunkStart, Integrity;
    assert WindowChunks(Default) == 9;
    IntegrityIffAligned(Default);
  }
}
