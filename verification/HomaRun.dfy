/** What every run of the hosts over the network promises. */
module HomaRun {
  import opened Bytes
  import opened Chunks
  import opened HomaPacket
  import opened HomaTypes
  import S = HomaSender
  import R = HomaReceiver
  import opened HomaFlow
  import opened HomaReassembly
  import opened HomaWorld
  import opened HomaSteps
  import opened HomaBase
  import opened HomaBaseSteps

  /** A run: the worlds passed through and the event that led from each to the next. */
  ghost predicate IsRun(cfg: Config, ws: seq<World>, es: seq<Event>) {
    && |ws| == |es| + 1
    && Initial(ws[0])
    && forall i :: 0 <= i < |es| ==> Enabled(ws[i], es[i]) && ws[i + 1] == Apply(cfg, ws[i], es[i])
  }

  lemma {:induction false} RunInv(cfg: Config, ws: seq<World>, es: seq<Event>, i: nat)
    requires Aligned(cfg) && IsRun(cfg, ws, es) && i < |ws|
    ensures Inv(cfg, ws[i])
  {
    hide Inv, Apply, Enabled, Initial;
    if i == 0 {
      InitialInv(cfg, ws[0]);
    } else {
      RunInv(cfg, ws, es, i - 1);
      RunStep(cfg, ws, es, i - 1);
      StepOk(cfg, ws[i - 1], es[i - 1]);
    }
  }

  lemma InitialInv(cfg: Config, w: World)
    requires Initial(w)
    ensures Inv(cfg, w)
  {
  }

  lemma {:induction false} RunBase(cfg: Config, ws: seq<World>, es: seq<Event>, i: nat)
    requires IsRun(cfg, ws, es) && i < |ws|
    ensures Base(cfg, ws[i])
  {
    hide Base, Apply, Enabled, Initial;
    if i == 0 {
      InitialBase(cfg, ws[0]);
    } else {
      RunBase(cfg, ws, es, i - 1);
      RunStep(cfg, ws, es, i - 1);
      BaseStep(cfg, ws[i - 1], es[i - 1]);
    }
  }

  lemma InitialBase(cfg: Config, w: World)
    requires Initial(w)
    ensures Base(cfg, w)
  {
  }

  lemma RunStep(cfg: Config, ws: seq<World>, es: seq<Event>, i: nat)
    requires IsRun(cfg, ws, es) && i < |es|
    ensures Enabled(ws[i], es[i]) && ws[i + 1] == Apply(cfg, ws[i], es[i])
  {
    hide Apply, Enabled, Initial;
  }

  /** Event j of the run hands data to f.src for f.dst, and f.id is the id it goes under. */
  ghost predicate Submits(ws: seq<World>, es: seq<Event>, j: nat, f: Flow, data: seq<Byte>) {
    && j < |es| < |ws|
    && es[j].Submit? && es[j].host == f.src && es[j].dest == f.dst && es[j].data == data
    && f.src in ws[j].hosts && ws[j].hosts[f.src].nextId == f.id
  }

  lemma ApplySent(cfg: Config, w: World, e: Event)
    requires Enabled(w, e)
    ensures Apply(cfg, w, e).sent ==
      if e.Submit? then w.sent[Flow(e.host, e.dest, w.hosts[e.host].nextId) := e.data] else w.sent
  {
  }

  lemma NothingSentYet(cfg: Config, ws: seq<World>, es: seq<Event>)
    requires IsRun(cfg, ws, es)
    ensures ws[0].sent == map[]
  {
  }

  /** What is on record as sent was submitted. */
  lemma {:induction false} SentWasSubmitted(cfg: Config, ws: seq<World>, es: seq<Event>, i: nat, f: Flow)
    requires IsRun(cfg, ws, es) && i < |ws| && f in ws[i].sent
    ensures exists j: nat :: j < i && Submits(ws, es, j, f, ws[i].sent[f])
  {
    hide Apply, Initial;
    if i == 0 {
      NothingSentYet(cfg, ws, es);
    } else {
      var w, e := ws[i - 1], es[i - 1];
      RunStep(cfg, ws, es, i - 1);
      ApplySent(cfg, w, e);
      if e.Submit? && f == Flow(e.host, e.dest, w.hosts[e.host].nextId) {
        assert Submits(ws, es, i - 1, f, ws[i].sent[f]);
      } else {
        SentWasSubmitted(cfg, ws, es, i - 1, f);
      }
    }
  }

  lemma ApplyNextId(cfg: Config, w: World, e: Event, h: Addr)
    requires Enabled(w, e) && h in w.hosts
    ensures h in Apply(cfg, w, e).hosts
    ensures Apply(cfg, w, e).hosts[h].nextId == w.hosts[h].nextId + if e.Submit? && e.host == h then 1 else 0
  {
  }

  lemma {:induction false} NextIdGrows(cfg: Config, ws: seq<World>, es: seq<Event>, i: nat, j: nat, h: Addr)
    requires IsRun(cfg, ws, es) && i <= j < |ws| && h in ws[i].hosts
    ensures h in ws[j].hosts && ws[i].hosts[h].nextId <= ws[j].hosts[h].nextId
  {
    hide Apply, Enabled, Initial;
    if i < j {
      NextIdGrows(cfg, ws, es, i, j - 1, h);
      RunStep(cfg, ws, es, j - 1);
      ApplyNextId(cfg, ws[j - 1], es[j - 1], h);
    }
  }

  /** An id is given out once: two submissions are never of the same flow. */
  lemma SubmittedOnce(cfg: Config, ws: seq<World>, es: seq<Event>, i: nat, j: nat, f: Flow, a: seq<Byte>, b: seq<Byte>)
    requires IsRun(cfg, ws, es) && i < j && Submits(ws, es, i, f, a)
    ensures !Submits(ws, es, j, f, b)
  {
    hide Apply, Enabled, Initial;
    RunStep(cfg, ws, es, i);
    ApplyNextId(cfg, ws[i], es[i], f.src);
    if j < |es| {
      NextIdGrows(cfg, ws, es, i + 1, j, f.src);
    }
  }

  /** End-to-end integrity. If credit grows by whole packets, then however the network loses,
      repeats and reorders, and whatever receivers give up and rebuild, every message handed out
      is, byte for byte, one that its sender was given under that id. */
  lemma EndToEndIntegrity(cfg: Config, ws: seq<World>, es: seq<Event>, i: nat, d: Delivery)
    requires Aligned(cfg) && IsRun(cfg, ws, es) && i < |ws| && d in ws[i].delivered
    ensures exists j: nat :: j < i && Submits(ws, es, j, d.flow, d.data)
  {
    RunInv(cfg, ws, es, i);
    SentWasSubmitted(cfg, ws, es, i, d.flow);
  }

  /** Done means sent: a message marked as done has had every one of its chunks put on the network. */
  lemma DoneMeansSent(cfg: Config, ws: seq<World>, es: seq<Event>, i: nat, h: Addr, k: Key, c: nat)
    requires Aligned(cfg) && IsRun(cfg, ws, es) && i < |ws|
    requires h in ws[i].hosts && k in ws[i].hosts[h].out && ws[i].hosts[h].out[k].doneAt.Some?
    requires Multiple(c, cfg.packetSize) && c < |ws[i].hosts[h].out[k].data|
    ensures ChunkWire(cfg.packetSize, Flow(h, k.peer, k.id), ws[i].hosts[h].out[k].data, c) in ws[i].net
  {
    RunInv(cfg, ws, es, i);
    assert HostOk(cfg, ws[i].net, ws[i].sent, h, ws[i].hosts[h]);
  }

  /** The byte count at the receiver is the sum of the chunks marked. */
  lemma ByteCountIsSum(cfg: Config, ws: seq<World>, es: seq<Event>, i: nat, h: Addr, k: Key)
    requires Aligned(cfg) && IsRun(cfg, ws, es) && i < |ws| && h in ws[i].hosts && k in ws[i].hosts[h].rcv.incoming
    ensures var m := ws[i].hosts[h].rcv.incoming[k];
      m.receivedBytes == MarkedBytes(cfg.packetSize, m.totalLen, m.received, |m.received|)
  {
    RunInv(cfg, ws, es, i);
    assert HostOk(cfg, ws[i].net, ws[i].sent, h, ws[i].hosts[h]);
  }

  // ----- under every configuration -----

  /** No datagram that can arrive makes the receiver copy past the end of a buffer. */
  lemma NeverOverruns(cfg: Config, ws: seq<World>, es: seq<Event>, i: nat, x: Wire, now: Time)
    requires IsRun(cfg, ws, es) && i < |ws|
    requires x in ws[i].net && x.dst in ws[i].hosts && x.dgram.pkt.typ == Data
    ensures R.Admissible(cfg, ws[i].hosts[x.dst].rcv, x.src, x.dgram, now)
  {
    RunBase(cfg, ws, es, i);
    hide Base;
    DataArrivalFit(cfg, ws[i], x, [], now);
  }

  /** Credit at the sender: a packet other than a message's first lies, at its start, inside the
      unscheduled window or under a grant that the message's receiver has sent. */
  lemma SendsWithinCredit(cfg: Config, ws: seq<World>, es: seq<Event>, i: nat, x: Wire)
    requires IsRun(cfg, ws, es) && i < |ws| && x in ws[i].net && x.dgram.pkt.typ == Data
    ensures
      || x.dgram.pkt.offset == 0
      || x.dgram.pkt.offset < cfg.unscheduledBytes
      || exists g :: g in ws[i].net && GrantsUpTo(DataFlow(x), g, x.dgram.pkt.offset + 1)
  {
    RunBase(cfg, ws, es, i);
    assert WireFit(cfg, ws[i].net, ws[i].sent, x);
  }

  /** What is sent is a slice of what was submitted, under its id and with its length. */
  lemma SendsSlices(cfg: Config, ws: seq<World>, es: seq<Event>, i: nat, x: Wire)
    requires IsRun(cfg, ws, es) && i < |ws| && x in ws[i].net && x.dgram.pkt.typ == Data
    ensures exists j: nat, data ::
      j < i && Submits(ws, es, j, DataFlow(x), data) && IsSlice(cfg.packetSize, data, x.dgram.pkt.msgId, x.dgram)
  {
    RunBase(cfg, ws, es, i);
    assert WireFit(cfg, ws[i].net, ws[i].sent, x);
    hide Base, IsSlice;
    SentWasSubmitted(cfg, ws, es, i, DataFlow(x));
  }

  /** The receiver's record has the length of what was submitted, counts no more bytes than the marked
      chunks hold, and its credit ends inside the message and was announced. */
  lemma ReceiverRecord(cfg: Config, ws: seq<World>, es: seq<Event>, i: nat, h: Addr, k: Key)
    requires IsRun(cfg, ws, es) && i < |ws| && h in ws[i].hosts && k in ws[i].hosts[h].rcv.incoming
    ensures var m, f := ws[i].hosts[h].rcv.incoming[k], Flow(k.peer, h, k.id);
      && f in ws[i].sent && m.totalLen == |m.buf| == |ws[i].sent[f]|
      && |m.received| == R.ChunkCount(m.totalLen, cfg.packetSize)
      && m.receivedBytes <= MarkedBytes(cfg.packetSize, m.totalLen, m.received, |m.received|) <= m.totalLen
      && m.grantedTo <= m.totalLen
      && Credited(cfg, ws[i].net, f, m.grantedTo)
  {
    RunBase(cfg, ws, es, i);
    assert HostFit(cfg, ws[i].net, ws[i].sent, h, ws[i].hosts[h]);
    var m := ws[i].hosts[h].rcv.incoming[k];
    ChunkCountBounds(cfg.packetSize, m.totalLen);
    MarkedBounds(cfg.packetSize, m.totalLen, m.received, |m.received|);
  }

  /** Every message handed out is one that was submitted, as far as id and length go. */
  lemma DeliversSubmitted(cfg: Config, ws: seq<World>, es: seq<Event>, i: nat, d: Delivery)
    requires IsRun(cfg, ws, es) && i < |ws| && d in ws[i].delivered
    ensures exists j: nat, data :: j < i && Submits(ws, es, j, d.flow, data) && |d.data| == |data|
  {
    RunBase(cfg, ws, es, i);
    assert d.flow in ws[i].sent && |d.data| == |ws[i].sent[d.flow]|;
    hide Base;
    SentWasSubmitted(cfg, ws, es, i, d.flow);
  }
}
