/** Runs in which one host sends one message to another: where each event leads. */
module HomaSoloRun {
  import opened Bytes
  import opened Chunks
  import opened HomaPacket
  import opened HomaTypes
  import S = HomaSender
  import R = HomaReceiver
  import opened HomaFlow
  import opened HomaWorld
  import opened HomaBaseSteps
  import opened HomaRun
  import opened HomaSolo

  /** The message, as its sender names it. */
  const SK := Key(1, 1)

  const F := Flow(0, 1, 1)

  predicate Timed(e: Event) {
    !e.Confirm? && !e.Finish?
  }

  /** The clock never goes back, and does not pass t. */
  ghost predicate Clocked(es: seq<Event>, t: Time) {
    forall i, j :: 0 <= i <= j < |es| && Timed(es[i]) && Timed(es[j]) ==> es[i].now <= es[j].now <= t
  }

  ghost predicate Leads(cfg: Config, ws: seq<World>, es: seq<Event>, w: World, t: Time) {
    IsRun(cfg, ws, es) && ws[|es|] == w && Clocked(es, t)
  }

  /** Some run, on a clock that never goes back, has come to w at time t. */
  ghost predicate Reached(cfg: Config, w: World, t: Time) {
    exists ws, es :: Leads(cfg, ws, es, w, t)
  }

  lemma Extend(cfg: Config, w: World, t: Time, e: Event)
    requires Reached(cfg, w, t) && Enabled(w, e) && Timed(e) && e.now >= t
    ensures Reached(cfg, Apply(cfg, w, e), e.now)
  {
    hide Apply, Enabled, Initial;
    var ws, es :| Leads(cfg, ws, es, w, t);
    var ws', es' := ws + [Apply(cfg, w, e)], es + [e];
    forall i | 0 <= i < |es'| ensures Enabled(ws'[i], es'[i]) && ws'[i + 1] == Apply(cfg, ws'[i], es'[i]) {
      if i < |es| { RunStep(cfg, ws, es, i); }
    }
    forall i, j | 0 <= i <= j < |es'| && Timed(es'[i]) && Timed(es'[j]) ensures es'[i].now <= es'[j].now <= e.now {
      if i < |es| { assert es[i].now <= t; }
    }
    assert Leads(cfg, ws', es', Apply(cfg, w, e), e.now);
  }

  lemma ReachedBase(cfg: Config, w: World, t: Time)
    requires Reached(cfg, w, t)
    ensures Base(cfg, w)
  {
    hide Base, Initial, Apply, Enabled;
    var ws, es :| Leads(cfg, ws, es, w, t);
    RunBase(cfg, ws, es, |es|);
  }

  lemma OnNet(cfg: Config, w: World, t: Time, x: Wire)
    requires Reached(cfg, w, t) && x in w.net
    ensures Representable(x.dgram)
  {
    ReachedBase(cfg, w, t);
    assert WireFit(cfg, w.net, w.sent, x);
  }

  /** At time t host 0 holds the message as m, and host 1 is a receiver in state s. */
  ghost predicate At(cfg: Config, w: World, t: Time, m: S.OutMsg, s: R.ReceiverState) {
    && Reached(cfg, w, t)
    && w.hosts.Keys == {0, 1}
    && w.hosts[0].out == map[SK := m]
    && w.hosts[1].rcv == s
    && F in w.sent && w.sent[F] == m.data
  }

  /** Host 0 is handed the message. */
  lemma Submitted(cfg: Config, data: seq<Byte>) returns (w: World)
    requires |data| < TWO32
    ensures var m := S.Fresh(cfg, data, 0, false);
      && At(cfg, w, 0, S.Pumped(cfg, m, m.grantedTo, 0), R.Empty)
      && Emitted(0, S.PumpedSends(cfg, SK, m, m.grantedTo)) <= w.net
  {
    hide S.PumpedSends;
    var w0 := World(map[0 := Host(map[], R.Empty, 1), 1 := Host(map[], R.Empty, 1)], {}, map[], []);
    assert Leads(cfg, [w0], [], w0, 0);
    var e := Submit(0, 1, data, false, 0);
    Extend(cfg, w0, 0, e);
    w := Apply(cfg, w0, e);
    var m := S.Fresh(cfg, data, 0, false);
    var m' := S.Pumped(cfg, m, m.grantedTo, 0);
    assert m'.data == data && map[][SK := m'] == map[SK := m'];
  }

  /** A data packet arrives. */
  lemma DataArrives(cfg: Config, w: World, t: Time, m: S.OutMsg, s: R.ReceiverState, d: Datagram) returns (w': World)
    requires At(cfg, w, t, m, s) && Wire(0, 1, d) in w.net && d.pkt.typ == Data && R.Admissible(cfg, s, 0, d, t)
    ensures At(cfg, w', t, m, R.HandleData(cfg, s, 0, d, [K], t).0) && w.net <= w'.net
    ensures forall data :: Deliver(0, 1, data) in R.HandleData(cfg, s, 0, d, [K], t).1 ==> Delivery(F, data) in w'.delivered
  {
    OnNet(cfg, w, t, Wire(0, 1, d));
    DecodeEncode(d);
    hide R.HandleData, R.Admissible, Encode, Decode, Reached, Representable, Deliveries;
    var e := Arrive(Wire(0, 1, d), [K], t);
    Extend(cfg, w, t, e);
    w' := Apply(cfg, w, e);
    var acts := R.HandleData(cfg, s, 0, d, [K], t).1;
    forall data | Deliver(0, 1, data) in acts ensures Delivery(F, data) in w'.delivered {
      DeliveredIn(1, acts, 0, 1, data);
    }
  }

  lemma {:induction false} DeliveredIn(h: Addr, acts: seq<Action>, src: Addr, id: nat, data: seq<Byte>)
    requires Deliver(src, id, data) in acts
    ensures Delivery(Flow(src, h, id), data) in Deliveries(h, acts)
  {
    if acts[0] != Deliver(src, id, data) { DeliveredIn(h, acts[1..], src, id, data); }
  }

  lemma ReceiverTicks(cfg: Config, w: World, t: Time, m: S.OutMsg, s: R.ReceiverState, now: Time) returns (w': World)
    requires At(cfg, w, t, m, s) && now >= t && s.incoming.Keys <= {K}
    ensures At(cfg, w', now, m, R.Tick(cfg, s, [K], now).0) && w.net <= w'.net
    ensures Emitted(1, R.Tick(cfg, s, [K], now).1) <= w'.net
  {
    hide R.Tick, Reached;
    var e := TickReceiver(1, [K], now);
    Extend(cfg, w, t, e);
    w' := Apply(cfg, w, e);
  }

  /** A stalled sender speaks up. */
  lemma SenderPokes(cfg: Config, w: World, t: Time, m: S.OutMsg, s: R.ReceiverState, now: Time) returns (w': World)
    requires At(cfg, w, t, m, s) && now >= t && S.Pokes(cfg, m, now)
    ensures At(cfg, w', now, m.(lastProgress := now), s) && w.net <= w'.net
    ensures Emitted(0, S.TickMsgSends(cfg, SK, m, now)) <= w'.net
  {
    hide Reached, S.TickMsgSends;
    var e := TickSender(0, [SK], now);
    Extend(cfg, w, t, e);
    w' := Apply(cfg, w, e);
    var out := map[SK := m];
    assert S.Lingering(cfg, out, now) == out;
    var m' := S.TickMsg(cfg, m, now);
    assert out[SK := m'] == map[SK := m'];
    assert S.TickFrom(cfg, map[SK := m'], [SK], 1, now) == (map[SK := m'], []);
    var acts := S.TickMsgSends(cfg, SK, m, now);
    assert acts + [] == acts;
  }

  lemma GrantArrives(cfg: Config, w: World, t: Time, m: S.OutMsg, s: R.ReceiverState, d: Datagram) returns (w': World)
    requires At(cfg, w, t, m, s) && Wire(1, 0, d) in w.net && d.pkt.typ == Grant && d.pkt.msgId == 1
    requires Min(d.pkt.offset, |m.data|) > m.grantedTo
    ensures At(cfg, w', t, S.Pumped(cfg, m, Min(d.pkt.offset, |m.data|), t), s) && w.net <= w'.net
    ensures Emitted(0, S.PumpedSends(cfg, SK, m, Min(d.pkt.offset, |m.data|))) <= w'.net
  {
    hide S.PumpedSends, S.PumpEnd, Encode, Decode, Reached, Representable;
    OnNet(cfg, w, t, Wire(1, 0, d));
    DecodeEncode(d);
    var e := Arrive(Wire(1, 0, d), [], t);
    Extend(cfg, w, t, e);
    w' := Apply(cfg, w, e);
    var m' := S.Pumped(cfg, m, Min(d.pkt.offset, |m.data|), t);
    assert m'.data == m.data;
    assert map[SK := m][SK := m'] == map[SK := m'];
  }

  lemma ResendArrives(cfg: Config, w: World, t: Time, m: S.OutMsg, s: R.ReceiverState, d: Datagram) returns (w': World)
    requires At(cfg, w, t, m, s) && Wire(1, 0, d) in w.net && d.pkt.typ == Resend && d.pkt.msgId == 1
    ensures At(cfg, w', t, S.Answered(m, d.pkt, t), s) && w.net <= w'.net
    ensures Emitted(0, S.AnswerSends(cfg, SK, m, d.pkt)) <= w'.net
  {
    hide S.AnswerSends, Encode, Decode, Reached, Representable;
    OnNet(cfg, w, t, Wire(1, 0, d));
    DecodeEncode(d);
    var e := Arrive(Wire(1, 0, d), [], t);
    Extend(cfg, w, t, e);
    w' := Apply(cfg, w, e);
    var m' := S.Answered(m, d.pkt, t);
    assert map[SK := m][SK := m'] == map[SK := m'];
  }
}
