/** Repair inside a run: a resend request is answered and the answer's packets arrive, with anything at
    all happening in between. */
module HomaRepairRun {
  import opened Bytes
  import opened Chunks
  import opened HomaPacket
  import opened HomaTypes
  import S = HomaSender
  import R = HomaReceiver
  import opened HomaCredit
  import opened HomaFlow
  import opened HomaReassembly
  import opened HomaLedger
  import opened HomaRepair
  import opened HomaWorld
  import opened HomaBase
  import opened HomaBaseSteps
  import opened HomaRun

  // ----- one packet -----

  lemma EvolvesMarks(cfg: Config, s: R.ReceiverState, s': R.ReceiverState, acts: seq<Action>, k: Key)
    requires Evolves(cfg, s, s', acts) && k in s'.incoming
    ensures StillMarked(k, s, s')
  {
    assert Regranted(cfg, acts, k, s.incoming[k], s'.incoming[k]);
  }

  lemma AcceptMarks(cfg: Config, s: R.ReceiverState, key: Key, d: Datagram, now: Time, k: Key)
    requires R.Fits(cfg, R.MsgFor(cfg, s, key, d.pkt, now), d) && k in s.incoming
    ensures StillMarked(k, s, R.Accept(cfg, s, key, d, now))
  {
    hide R.Push, R.NewMsg, Quot;
  }

  lemma StillMarkedThrough(k: Key, s: R.ReceiverState, s': R.ReceiverState, s'': R.ReceiverState)
    requires StillMarked(k, s, s') && StillMarked(k, s', s'')
    ensures StillMarked(k, s, s'')
  {
  }

  /** Whatever packet arrives: a message being received is handed out, or keeps its marks. */
  lemma DataMarks(cfg: Config, s: R.ReceiverState, src: Addr, d: Datagram, order: seq<Key>, now: Time, k: Key)
    requires R.Admissible(cfg, s, src, d, now) && k in s.incoming
    ensures var (s', acts) := R.HandleData(cfg, s, src, d, order, now); k in Handed(acts) || StillMarked(k, s, s')
  {
    hide R.Fits, R.Accept, R.Schedule, R.Continue, StillMarked, Evolves;
    var key := Key(src, d.pkt.msgId);
    if R.Refused(cfg, s, key, d.pkt) {
      Unmoved(k, s);
    } else {
      AcceptMarks(cfg, s, key, d, now, k);
      var s1 := R.Accept(cfg, s, key, d, now);
      AcceptKeys(cfg, s, key, d, now);
      if R.Finished(s1, key, d) {
        ScheduleEvolves(cfg, R.DeliverTo(s1, key), order, now);
        var (s2, rest) := R.Schedule(cfg, R.DeliverTo(s1, key), order, now);
        if k == key {
          var data := if d.pkt.msgLen == 0 then [] else s1.incoming[key].buf;
          assert R.HandleData(cfg, s, src, d, order, now).1 == [Deliver(src, key.id, data)] + rest;
          HandedFirst(Deliver(src, key.id, data), rest);
        } else {
          DeliverMarks(s1, key, k);
          EvolvesMarks(cfg, R.DeliverTo(s1, key), s2, rest, k);
          StillMarkedThrough(k, s1, R.DeliverTo(s1, key), s2);
          StillMarkedThrough(k, s, s1, s2);
        }
      } else {
        ContinueEvolves(cfg, s1, key, key !in s.incoming, order, now);
        var (s2, acts) := R.Continue(cfg, s1, key, key !in s.incoming, order, now);
        EvolvesMarks(cfg, s1, s2, acts, k);
        StillMarkedThrough(k, s, s1, s2);
      }
    }
  }

  lemma Unmoved(k: Key, s: R.ReceiverState)
    requires k in s.incoming
    ensures StillMarked(k, s, s)
  {
  }

  lemma AcceptKeys(cfg: Config, s: R.ReceiverState, key: Key, d: Datagram, now: Time)
    requires R.Fits(cfg, R.MsgFor(cfg, s, key, d.pkt, now), d)
    ensures R.Accept(cfg, s, key, d, now).incoming.Keys == s.incoming.Keys + {key}
  {
  }

  lemma DeliverMarks(s: R.ReceiverState, key: Key, k: Key)
    requires k in s.incoming && k != key
    ensures k in R.DeliverTo(s, key).incoming && StillMarked(k, s, R.DeliverTo(s, key))
  {
  }

  // ----- one event -----

  /** Event j hands f's message out. */
  ghost predicate Hands(ws: seq<World>, j: nat, f: Flow)
    requires j + 1 < |ws|
  {
    exists d: Delivery :: d.flow == f && d in ws[j + 1].delivered[Min(|ws[j].delivered|, |ws[j + 1].delivered|)..]
  }

  /** Event j is a tick in which f's receiver gives the message up. */
  ghost predicate GivesUp(ws: seq<World>, es: seq<Event>, j: nat, f: Flow)
    requires j < |es| && j + 1 < |ws|
  {
    && es[j].TickReceiver? && es[j].host == f.dst
    && Holds(ws[j], f) && !Holds(ws[j + 1], f)
  }

  /** f's receiver is receiving the message. */
  ghost predicate Holds(w: World, f: Flow) {
    f.dst in w.hosts && Key(f.src, f.id) in w.hosts[f.dst].rcv.incoming
  }

  /** A data packet's arrival is its handling. */
  lemma Arrival(cfg: Config, ws: seq<World>, es: seq<Event>, j: nat)
    requires IsRun(cfg, ws, es) && j < |es| && es[j].Arrive? && es[j].wire.dgram.pkt.typ == Data
    ensures var x := es[j].wire;
      && x.dst in ws[j].hosts && x.dst in ws[j + 1].hosts
      && R.Admissible(cfg, ws[j].hosts[x.dst].rcv, x.src, x.dgram, es[j].now)
      && var (rcv, acts) := R.HandleData(cfg, ws[j].hosts[x.dst].rcv, x.src, x.dgram, es[j].order, es[j].now);
         ws[j + 1].hosts[x.dst].rcv == rcv && ws[j + 1].delivered == ws[j].delivered + Deliveries(x.dst, acts)
  {
    hide R.HandleData, R.Admissible, Encode, Decode, Initial, Deliveries;
    RunStep(cfg, ws, es, j);
    var x := es[j].wire;
    NeverOverruns(cfg, ws, es, j, x, es[j].now);
    DecodeEncode(x.dgram);
  }

  lemma {:induction false} HandedIsDelivered(h: Addr, acts: seq<Action>, k: Key)
    requires k in Handed(acts)
    ensures exists d :: d in Deliveries(h, acts) && d.flow == Flow(k.peer, h, k.id)
  {
    if k in HandedBy(acts[0]) {
      assert Deliveries(h, acts)[0].flow == Flow(k.peer, h, k.id);
    } else {
      HandedIsDelivered(h, acts[1..], k);
      var d :| d in Deliveries(h, acts[1..]) && d.flow == Flow(k.peer, h, k.id);
      assert d in Deliveries(h, acts);
    }
  }

  lemma HandedHands(ws: seq<World>, j: nat, f: Flow, acts: seq<Action>)
    requires j + 1 < |ws| && Key(f.src, f.id) in Handed(acts)
    requires ws[j + 1].delivered == ws[j].delivered + Deliveries(f.dst, acts)
    ensures Hands(ws, j, f)
  {
    HandedIsDelivered(f.dst, acts, Key(f.src, f.id));
    assert ws[j + 1].delivered[|ws[j].delivered|..] == Deliveries(f.dst, acts);
  }

  /** Events that are neither data packets for the host nor its ticks leave its receiver alone. */
  lemma OthersKeep(cfg: Config, ws: seq<World>, es: seq<Event>, j: nat, h: Addr)
    requires IsRun(cfg, ws, es) && j < |es| && h in ws[j].hosts
    requires !(es[j].TickReceiver? && es[j].host == h)
    requires !(es[j].Arrive? && es[j].wire.dst == h && es[j].wire.dgram.pkt.typ == Data)
    ensures h in ws[j + 1].hosts && ws[j + 1].hosts[h].rcv == ws[j].hosts[h].rcv
  {
    hide R.Tick, R.HandleData, R.Admissible, S.Start, S.HandleGrant, S.HandleResend, S.Tick, Encode, Decode, Initial;
    RunStep(cfg, ws, es, j);
    if es[j].Arrive? { DecodeEncode(es[j].wire.dgram); }
  }

  lemma TickIs(cfg: Config, ws: seq<World>, es: seq<Event>, j: nat)
    requires IsRun(cfg, ws, es) && j < |es| && es[j].TickReceiver?
    ensures var h := es[j].host;
      h in ws[j].hosts && h in ws[j + 1].hosts && ws[j + 1].hosts[h].rcv == R.Tick(cfg, ws[j].hosts[h].rcv, es[j].order, es[j].now).0
  {
    hide R.Tick, Initial;
    RunStep(cfg, ws, es, j);
  }

  /** Whatever the event: a message being received is handed out, given up, or keeps its marks. */
  lemma StepMarks(cfg: Config, ws: seq<World>, es: seq<Event>, j: nat, f: Flow)
    requires IsRun(cfg, ws, es) && j < |es| && Holds(ws[j], f)
    ensures
      || Hands(ws, j, f)
      || GivesUp(ws, es, j, f)
      || (Holds(ws[j + 1], f) && StillMarked(Key(f.src, f.id), ws[j].hosts[f.dst].rcv, ws[j + 1].hosts[f.dst].rcv))
  {
    hide R.Tick, R.HandleData, R.Admissible, Apply, Enabled, Initial, Hands, Evolves;
    var e, k, s := es[j], Key(f.src, f.id), ws[j].hosts[f.dst].rcv;
    if e.TickReceiver? && e.host == f.dst {
      TickIs(cfg, ws, es, j);
      TickEvolves(cfg, s, e.order, e.now);
      var (s', acts) := R.Tick(cfg, s, e.order, e.now);
      if k in s'.incoming { EvolvesMarks(cfg, s, s', acts, k); }
    } else if e.Arrive? && e.wire.dst == f.dst && e.wire.dgram.pkt.typ == Data {
      Arrival(cfg, ws, es, j);
      DataMarks(cfg, s, e.wire.src, e.wire.dgram, e.order, e.now, k);
      var acts := R.HandleData(cfg, s, e.wire.src, e.wire.dgram, e.order, e.now).1;
      if k in Handed(acts) { HandedHands(ws, j, f, acts); }
    } else {
      OthersKeep(cfg, ws, es, j, f.dst);
      Unmoved(k, s);
    }
  }

  // ----- any number of events -----

  /** From event lo to event hi the message is neither handed out nor given up. */
  ghost predicate Undisturbed(ws: seq<World>, es: seq<Event>, lo: nat, hi: nat, f: Flow) {
    && hi <= |es| < |ws|
    && forall j: nat :: lo <= j < hi ==> !Hands(ws, j, f) && !GivesUp(ws, es, j, f)
  }

  lemma {:induction false} MarksStay(cfg: Config, ws: seq<World>, es: seq<Event>, lo: nat, hi: nat, f: Flow)
    requires IsRun(cfg, ws, es) && lo <= hi && Undisturbed(ws, es, lo, hi, f) && Holds(ws[lo], f)
    ensures Holds(ws[hi], f) && StillMarked(Key(f.src, f.id), ws[lo].hosts[f.dst].rcv, ws[hi].hosts[f.dst].rcv)
  {
    hide IsRun, StillMarked, Hands, GivesUp;
    if lo == hi {
      Unmoved(Key(f.src, f.id), ws[lo].hosts[f.dst].rcv);
    } else {
      MarksStay(cfg, ws, es, lo, hi - 1, f);
      StepMarks(cfg, ws, es, hi - 1, f);
      StillMarkedThrough(Key(f.src, f.id), ws[lo].hosts[f.dst].rcv, ws[hi - 1].hosts[f.dst].rcv, ws[hi].hosts[f.dst].rcv);
    }
  }

  /** What was submitted under an id stays on record. */
  lemma {:induction false} SentStays(cfg: Config, ws: seq<World>, es: seq<Event>, i: nat, j: nat, f: Flow)
    requires IsRun(cfg, ws, es) && i <= j < |ws| && f in ws[i].sent
    ensures f in ws[j].sent && ws[j].sent[f] == ws[i].sent[f]
  {
    hide Apply, Initial, WireFit, HostFit, DeliveriesFit;
    if i < j {
      SentStays(cfg, ws, es, i, j - 1, f);
      RunStep(cfg, ws, es, j - 1);
      ApplySent(cfg, ws[j - 1], es[j - 1]);
      RunBase(cfg, ws, es, j - 1);
    }
  }

  /** The record of a message being received has the size of what was submitted. */
  lemma RecordSize(cfg: Config, ws: seq<World>, es: seq<Event>, i: nat, f: Flow)
    requires IsRun(cfg, ws, es) && i < |ws| && Holds(ws[i], f)
    ensures f in ws[i].sent && |ws[i].sent[f]| <= MAX_MSG_LEN && f.id < TWO64
    ensures Receiving(cfg.packetSize, f, ws[i].sent[f], ws[i].hosts[f.dst].rcv)
  {
    hide Initial, Apply, Enabled, EndFit, Credited, Loose, MarkedBytes, OutsFit, WireFit;
    RunBase(cfg, ws, es, i);
    assert HostFit(cfg, ws[i].net, ws[i].sent, f.dst, ws[i].hosts[f.dst]);
  }

  /** A chunk that arrives is marked from then on. */
  lemma ChunkMarks(cfg: Config, ws: seq<World>, es: seq<Event>, lo: nat, j: nat, hi: nat, f: Flow, c: nat)
    requires IsRun(cfg, ws, es) && lo <= j < hi && Undisturbed(ws, es, lo, hi, f) && Holds(ws[lo], f)
    requires f in ws[lo].sent && Multiple(c, cfg.packetSize) && c < |ws[lo].sent[f]|
    requires es[j].Arrive? && es[j].wire == ChunkWire(cfg.packetSize, f, ws[lo].sent[f], c)
    ensures Holds(ws[hi], f) && IsMarked(cfg.packetSize, Key(f.src, f.id), ws[hi].hosts[f.dst].rcv, es[j].wire.dgram)
  {
    hide IsRun, Hands, GivesUp, Receiving, R.HandleData, R.Admissible, StillMarked, ChunkDatagram, IsMarked;
    var data, k, e := ws[lo].sent[f], Key(f.src, f.id), es[j];
    MarksStay(cfg, ws, es, lo, j, f);
    SentStays(cfg, ws, es, lo, j, f);
    RecordSize(cfg, ws, es, j, f);
    ChunkFields(cfg.packetSize, data, f.id, c);
    Arrival(cfg, ws, es, j);
    FedOne(cfg, f, data, ws[j].hosts[f.dst].rcv, e.wire.dgram, e.order, e.now);
    var (s', acts) := R.HandleData(cfg, ws[j].hosts[f.dst].rcv, f.src, e.wire.dgram, e.order, e.now);
    if k in Handed(acts) { HandedHands(ws, j, f, acts); }
    assert Holds(ws[j + 1], f) by { MarkedHeld(cfg.packetSize, k, s', e.wire.dgram); }
    MarksStay(cfg, ws, es, j + 1, hi, f);
    MarkStays(cfg.packetSize, k, s', ws[hi].hosts[f.dst].rcv, e.wire.dgram);
  }

  lemma MarkedHeld(ps: nat, k: Key, s: R.ReceiverState, d: Datagram)
    requires ps > 0 && IsMarked(ps, k, s, d)
    ensures k in s.incoming
  {
  }

  lemma MarkStays(ps: nat, k: Key, s: R.ReceiverState, s': R.ReceiverState, d: Datagram)
    requires ps > 0 && IsMarked(ps, k, s, d) && StillMarked(k, s, s')
    ensures IsMarked(ps, k, s', d)
  {
  }

  // ----- requests and answers -----

  /** Event r is the arrival of a resend request for f's message at a sender that still holds it. */
  ghost predicate Answers(ws: seq<World>, es: seq<Event>, r: nat, f: Flow) {
    && r < |es| < |ws|
    && es[r].Arrive? && es[r].wire.src == f.dst && es[r].wire.dst == f.src
    && es[r].wire.dgram.pkt.typ == PacketType.Resend && es[r].wire.dgram.pkt.msgId == f.id
    && f.src in ws[r].hosts && Key(f.dst, f.id) in ws[r].hosts[f.src].out
  }

  /** What the sender puts on the network for it. */
  ghost function AnswerTo(cfg: Config, ws: seq<World>, es: seq<Event>, r: nat, f: Flow): Net
    requires Answers(ws, es, r, f)
  {
    Emitted(f.src, S.AnswerSends(cfg, Key(f.dst, f.id), ws[r].hosts[f.src].out[Key(f.dst, f.id)], es[r].wire.dgram.pkt))
  }

  /** Each of the wires arrives between event lo and event hi, in any order, with anything in between. */
  ghost predicate AllArrive(es: seq<Event>, lo: nat, hi: nat, wires: Net) {
    hi <= |es| && forall x :: x in wires ==> exists j: nat :: lo <= j < hi && es[j].Arrive? && es[j].wire == x
  }

  /** The request asks for a range that starts inside the message, and the sender holds what was submitted. */
  lemma RequestFits(cfg: Config, ws: seq<World>, es: seq<Event>, r: nat, f: Flow)
    requires IsRun(cfg, ws, es) && Answers(ws, es, r, f)
    ensures f in ws[r].sent && ws[r].hosts[f.src].out[Key(f.dst, f.id)].data == ws[r].sent[f]
    ensures es[r].wire.dgram.pkt.offset < |ws[r].sent[f]|
  {
    hide Initial, Apply, EndFit, Credited, Loose, PositionFit, InsFit, DataFit;
    RunStep(cfg, ws, es, r);
    RunBase(cfg, ws, es, r);
    assert WireFit(cfg, ws[r].net, ws[r].sent, es[r].wire);
    assert HostFit(cfg, ws[r].net, ws[r].sent, f.src, ws[r].hosts[f.src]);
  }

  lemma AnswerHas(cfg: Config, f: Flow, out: S.OutMsg, pkt: Packet, c: nat)
    requires pkt.offset < |out.data| && Overlaps(cfg.packetSize, out.data, pkt.offset, pkt.offset + pkt.length, c)
    ensures ChunkWire(cfg.packetSize, f, out.data, c) in Emitted(f.src, S.AnswerSends(cfg, Key(f.dst, f.id), out, pkt))
  {
    var ps, key := cfg.packetSize, Key(f.dst, f.id);
    ResendSendsChunks(ps, key, out.data, pkt.offset, S.ResendEnd(|out.data|, pkt));
    assert Overlaps(ps, out.data, pkt.offset, S.ResendEnd(|out.data|, pkt), c);
    assert ChunkAct(ps, key, out.data, c) in S.AnswerSends(cfg, key, out, pkt);
  }

  /** In every run, under every configuration, whatever else happens in between: once the packets of an
      answer have all arrived, the message has been handed out or given up since, or every chunk that
      overlaps the range asked for is marked. */
  lemma ResendRepairsInRun(cfg: Config, ws: seq<World>, es: seq<Event>, r: nat, hi: nat, f: Flow, c: nat)
    requires IsRun(cfg, ws, es) && Answers(ws, es, r, f) && Holds(ws[r + 1], f)
    requires r < hi && AllArrive(es, r + 1, hi, AnswerTo(cfg, ws, es, r, f))
    requires var pkt, data := es[r].wire.dgram.pkt, ws[r].hosts[f.src].out[Key(f.dst, f.id)].data;
      Overlaps(cfg.packetSize, data, pkt.offset, pkt.offset + pkt.length, c)
    ensures
      || (exists j: nat :: r < j < hi && Hands(ws, j, f))
      || (exists j: nat :: r < j < hi && GivesUp(ws, es, j, f))
      || (f.dst in ws[hi].hosts
          && IsMarked(cfg.packetSize, Key(f.src, f.id), ws[hi].hosts[f.dst].rcv,
                      ChunkDatagram(cfg.packetSize, ws[r].hosts[f.src].out[Key(f.dst, f.id)].data, f.id, c)))
  {
    hide IsRun, Hands, GivesUp, S.AnswerSends, Emitted, IsMarked, ChunkDatagram;
    if Undisturbed(ws, es, r + 1, hi, f) {
      var out := ws[r].hosts[f.src].out[Key(f.dst, f.id)];
      RequestFits(cfg, ws, es, r, f);
      SentStays(cfg, ws, es, r, r + 1, f);
      AnswerHas(cfg, f, out, es[r].wire.dgram.pkt, c);
      var j: nat :| r + 1 <= j < hi && es[j].Arrive? && es[j].wire == ChunkWire(cfg.packetSize, f, out.data, c);
      ChunkMarks(cfg, ws, es, r + 1, j, hi, f, c);
    }
  }
}
