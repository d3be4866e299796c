/** Delivery inside a run: a message whose chunks all reach a receiver that takes it is handed out. */
module HomaDeliversRun {
  import opened Bytes
  import opened Chunks
  import opened HomaPacket
  import opened HomaTypes
  import R = HomaReceiver
  import opened HomaFlow
  import opened HomaReassembly
  import opened HomaLedger
  import opened HomaRepair
  import opened HomaDelivers
  import opened HomaWorld
  import opened HomaRun
  import opened HomaRepairRun

  /** Event j is the arrival of the chunk of f's message that starts at c. */
  ghost predicate Brings(ps: nat, es: seq<Event>, j: nat, f: Flow, data: seq<Byte>, c: nat) {
    && c <= |data|
    && j < |es| && es[j].Arrive? && es[j].wire == ChunkWire(ps, f, data, c)
  }

  /** f's receiver has room, does not remember the message and is not receiving it. */
  ghost predicate Welcome(cfg: Config, w: World, f: Flow) {
    f.dst in w.hosts && Unknown(f, w.hosts[f.dst].rcv) && |w.hosts[f.dst].rcv.incoming| < cfg.maxIncoming
  }

  /** Event j hands out f's message, and it is data. */
  ghost predicate HandsWhole(ws: seq<World>, j: nat, f: Flow, data: seq<Byte>)
    requires j + 1 < |ws|
  {
    Delivery(f, data) in ws[j + 1].delivered[Min(|ws[j].delivered|, |ws[j + 1].delivered|)..]
  }

  /** The chunk that comes first is taken in. */
  lemma FirstTaken(cfg: Config, ws: seq<World>, es: seq<Event>, lo: nat, f: Flow, data: seq<Byte>, c: nat)
    requires IsRun(cfg, ws, es) && lo < |es| && Welcome(cfg, ws[lo], f)
    requires ChunkAt(cfg.packetSize, data, c) && Brings(cfg.packetSize, es, lo, f, data, c)
    requires |data| <= MAX_MSG_LEN && f.id < TWO64
    ensures
      || Hands(ws, lo, f)
      || (Holds(ws[lo + 1], f) && IsMarked(cfg.packetSize, Key(f.src, f.id), ws[lo + 1].hosts[f.dst].rcv, es[lo].wire.dgram))
  {
    var e, s := es[lo], ws[lo].hosts[f.dst].rcv;
    ChunkFields(cfg.packetSize, data, f.id, c);
    hide R.HandleData, R.Admissible, IsRun, Hands, ChunkDatagram, Partial, IsMarked;
    HomaRepairRun.Arrival(cfg, ws, es, lo);
    OnePiece(cfg, f, data, s, e.wire.dgram, e.order, e.now);
    var (s', acts) := R.HandleData(cfg, s, f.src, e.wire.dgram, e.order, e.now);
    if Deliver(f.src, f.id, data) in acts {
      DeliverIsHanded(acts, f.src, f.id, data);
      HandedHands(ws, lo, f, acts);
    } else {
      PartialHeld(cfg.packetSize, f, data, s');
    }
  }

  lemma {:induction false} DeliverIsHanded(acts: seq<Action>, src: Addr, id: nat, data: seq<Byte>)
    requires Deliver(src, id, data) in acts
    ensures Key(src, id) in Handed(acts)
  {
    if acts[0] != Deliver(src, id, data) { DeliverIsHanded(acts[1..], src, id, data); }
  }

  /** In an aligned run what is handed out is what was submitted. */
  lemma HandedWhole(cfg: Config, ws: seq<World>, es: seq<Event>, j: nat, f: Flow)
    requires Aligned(cfg) && IsRun(cfg, ws, es) && j < |es| && Hands(ws, j, f)
    ensures f in ws[j + 1].sent && HandsWhole(ws, j, f, ws[j + 1].sent[f])
  {
    RunInv(cfg, ws, es, j + 1);
    var d: Delivery :| d.flow == f && d in ws[j + 1].delivered[Min(|ws[j].delivered|, |ws[j + 1].delivered|)..];
    assert d in ws[j + 1].delivered;
    assert d == Delivery(f, ws[j + 1].sent[f]);
  }

  /** In an aligned run a message still being received lacks a chunk. */
  lemma StillMissing(cfg: Config, ws: seq<World>, es: seq<Event>, n: nat, f: Flow) returns (c: nat)
    requires Aligned(cfg) && IsRun(cfg, ws, es) && n < |ws| && Holds(ws[n], f)
    ensures f in ws[n].sent && Multiple(c, cfg.packetSize) && c < |ws[n].sent[f]|
    ensures !IsMarked(cfg.packetSize, Key(f.src, f.id), ws[n].hosts[f.dst].rcv, ChunkDatagram(cfg.packetSize, ws[n].sent[f], f.id, c))
  {
    hide Initial, Apply, Enabled, Quot;
    RunInv(cfg, ws, es, n);
    assert HostOk(cfg, ws[n].net, ws[n].sent, f.dst, ws[n].hosts[f.dst]);
    var data, m := ws[n].sent[f], ws[n].hosts[f.dst].rcv.incoming[Key(f.src, f.id)];
    assert InOk(cfg, ws[n].net, f, data, m);
    c := MissingChunk(cfg.packetSize, ws[n].net, f, data, m);
    ChunkOffset(cfg.packetSize, data, f.id, c);
  }

  /** The message is not handed out between lo and hi, nor given up. */
  ghost predicate Pending(ws: seq<World>, es: seq<Event>, lo: nat, hi: nat, f: Flow) {
    lo < hi && Undisturbed(ws, es, lo, hi, f)
  }

  /** Then, once its first chunk has been taken in, it is being received, and any chunk brought is marked. */
  lemma BroughtIsMarked(cfg: Config, ws: seq<World>, es: seq<Event>, lo: nat, hi: nat, f: Flow, first: nat, i: nat, c: nat)
    requires IsRun(cfg, ws, es) && Pending(ws, es, lo, hi, f) && Welcome(cfg, ws[lo], f)
    requires f in ws[lo].sent && |ws[lo].sent[f]| <= MAX_MSG_LEN && f.id < TWO64
    requires ChunkAt(cfg.packetSize, ws[lo].sent[f], first) && Brings(cfg.packetSize, es, lo, f, ws[lo].sent[f], first)
    requires Multiple(c, cfg.packetSize) && c < |ws[lo].sent[f]|
    requires lo <= i < hi && Brings(cfg.packetSize, es, i, f, ws[lo].sent[f], c)
    ensures Holds(ws[hi], f)
    ensures IsMarked(cfg.packetSize, Key(f.src, f.id), ws[hi].hosts[f.dst].rcv, ChunkDatagram(cfg.packetSize, ws[lo].sent[f], f.id, c))
  {
    var ps, data, k := cfg.packetSize, ws[lo].sent[f], Key(f.src, f.id);
    FirstTaken(cfg, ws, es, lo, f, data, first);
    hide IsRun, Hands, GivesUp, IsMarked, ChunkDatagram, StillMarked;
    MarksStay(cfg, ws, es, lo + 1, hi, f);
    SentStays(cfg, ws, es, lo, lo + 1, f);
    if i == lo {
      MarkStays(ps, k, ws[lo + 1].hosts[f.dst].rcv, ws[hi].hosts[f.dst].rcv, es[lo].wire.dgram);
    } else {
      ChunkMarks(cfg, ws, es, lo + 1, i, hi, f, c);
    }
  }

  /** All chunks of the message arrive between lo and hi. */
  ghost predicate AllBrought(ps: nat, es: seq<Event>, lo: nat, hi: nat, f: Flow, data: seq<Byte>)
    requires ps > 0
  {
    forall c: nat :: ChunkAt(ps, data, c) ==> exists i: nat :: lo <= i < hi && Brings(ps, es, i, f, data, c)
  }

  lemma NotPending(cfg: Config, ws: seq<World>, es: seq<Event>, lo: nat, hi: nat, f: Flow, first: nat)
    requires Aligned(cfg) && IsRun(cfg, ws, es) && lo < hi <= |es| && Welcome(cfg, ws[lo], f)
    requires f in ws[lo].sent && |ws[lo].sent[f]| <= MAX_MSG_LEN && f.id < TWO64
    requires ChunkAt(cfg.packetSize, ws[lo].sent[f], first) && Brings(cfg.packetSize, es, lo, f, ws[lo].sent[f], first)
    requires AllBrought(cfg.packetSize, es, lo, hi, f, ws[lo].sent[f])
    ensures !Pending(ws, es, lo, hi, f)
  {
    RunLengths(cfg, ws, es);
    hide IsRun, Pending, IsMarked, ChunkDatagram, Welcome, Brings, Aligned, StillMarked;
    if Pending(ws, es, lo, hi, f) {
      var data := ws[lo].sent[f];
      TakenAtAll(cfg, ws, es, lo, hi, f, first);
      SentStays(cfg, ws, es, lo, hi, f);
      var c := StillMissing(cfg, ws, es, hi, f);
      assert ChunkAt(cfg.packetSize, data, c);
      var i: nat :| lo <= i < hi && Brings(cfg.packetSize, es, i, f, data, c);
      BroughtIsMarked(cfg, ws, es, lo, hi, f, first, i, c);
    }
  }

  lemma TakenAtAll(cfg: Config, ws: seq<World>, es: seq<Event>, lo: nat, hi: nat, f: Flow, first: nat)
    requires IsRun(cfg, ws, es) && Pending(ws, es, lo, hi, f) && Welcome(cfg, ws[lo], f)
    requires f in ws[lo].sent && |ws[lo].sent[f]| <= MAX_MSG_LEN && f.id < TWO64
    requires ChunkAt(cfg.packetSize, ws[lo].sent[f], first) && Brings(cfg.packetSize, es, lo, f, ws[lo].sent[f], first)
    ensures hi < |ws| && Holds(ws[hi], f)
  {
    FirstTaken(cfg, ws, es, lo, f, ws[lo].sent[f], first);
    hide IsRun, Hands, GivesUp, IsMarked, ChunkDatagram, StillMarked;
    MarksStay(cfg, ws, es, lo + 1, hi, f);
  }

  /** Every run with whole-packet credit, whatever else happens: once all chunks of a submitted message have
      arrived at a receiver that had room for it and does not give it up, the message has been handed out,
      byte for byte as submitted. */
  lemma ArrivedIsDeliveredInRun(cfg: Config, ws: seq<World>, es: seq<Event>, lo: nat, hi: nat, f: Flow, first: nat) returns (j: nat)
    requires Aligned(cfg) && IsRun(cfg, ws, es) && lo < hi <= |es| && Welcome(cfg, ws[lo], f)
    requires f in ws[lo].sent && |ws[lo].sent[f]| <= MAX_MSG_LEN && f.id < TWO64
    requires ChunkAt(cfg.packetSize, ws[lo].sent[f], first) && Brings(cfg.packetSize, es, lo, f, ws[lo].sent[f], first)
    requires AllBrought(cfg.packetSize, es, lo, hi, f, ws[lo].sent[f])
    requires forall i: nat :: lo <= i < hi ==> !GivesUp(ws, es, i, f)
    ensures lo <= j < hi && HandsWhole(ws, j, f, ws[lo].sent[f])
  {
    RunLengths(cfg, ws, es);
    NotPending(cfg, ws, es, lo, hi, f, first);
    hide IsRun, Hands, GivesUp, HandsWhole, Welcome, Brings, AllBrought;
    j :| lo <= j < hi && Hands(ws, j, f);
    HandedWhole(cfg, ws, es, j, f);
    SentStays(cfg, ws, es, lo, j + 1, f);
  }

  lemma RunLengths(cfg: Config, ws: seq<World>, es: seq<Event>)
    requires IsRun(cfg, ws, es)
    ensures |ws| == |es| + 1
  {
  }
}
