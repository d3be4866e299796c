/** Any number of hosts, each with both cores, over a network that loses, repeats and reorders
    datagrams: a datagram once sent may arrive at any later time, any number of times, or never. */
module HomaWorld {
  import opened Bytes
  import opened Chunks
  import opened HomaPacket
  import opened HomaTypes
  import S = HomaSender
  import R = HomaReceiver
  import opened HomaCredit
  import opened HomaFlow
  import opened HomaReassembly

  datatype Host = Host(out: S.Outgoing, rcv: R.ReceiverState, nextId: nat)

  datatype Delivery = Delivery(flow: Flow, data: seq<Byte>)

  /** The hosts, every datagram ever sent, and, to state what is promised, what was handed to the
      senders and what the receivers handed out. */
  datatype World = World(hosts: map<Addr, Host>, net: Net, sent: map<Flow, seq<Byte>>, delivered: seq<Delivery>)

  datatype Event =
    | Submit(host: Addr, dest: Addr, data: seq<Byte>, retransmit: bool, now: Time)
    | Arrive(wire: Wire, order: seq<Key>, now: Time)
    | TickSender(host: Addr, order: seq<Key>, now: Time)
    | TickReceiver(host: Addr, order: seq<Key>, now: Time)
    | Confirm(host: Addr, dest: Addr, id: nat)
    | Finish(host: Addr, dest: Addr, id: nat)

  ghost predicate Initial(w: World) {
    && w.net == {} && w.sent == map[] && w.delivered == []
    && forall h :: h in w.hosts ==> w.hosts[h] == Host(map[], R.Empty, 1)
  }

  ghost predicate Enabled(w: World, e: Event) {
    match e
    case Submit(h, _, data, _, _) => h in w.hosts && |data| < TWO32 && w.hosts[h].nextId < TWO64
    case Arrive(x, _, _) => x in w.net && x.dst in w.hosts && Representable(x.dgram)
    case TickSender(h, order, _) => h in w.hosts && Lists(order, w.hosts[h].out.Keys)
    case TickReceiver(h, order, _) => h in w.hosts && Lists(order, w.hosts[h].rcv.incoming.Keys)
    case Confirm(h, _, _) => h in w.hosts
    case Finish(h, _, _) => h in w.hosts
  }

  /** What a host does with the octets of a datagram. Octets that would run off a receive buffer
      stop the program; NeverOverruns shows that they do not come. */
  function Receive(cfg: Config, host: Host, src: Addr, bytes: seq<Byte>, order: seq<Key>, now: Time): (Host, seq<Action>) {
    match Decode(bytes)
    case None => (host, [])
    case Some(d) =>
      match d.pkt.typ
      case Data =>
        if !R.Admissible(cfg, host.rcv, src, d, now) then (host, [])
        else
          var (rcv, acts) := R.HandleData(cfg, host.rcv, src, d, order, now);
          (host.(rcv := rcv), acts)
      case Grant =>
        var (out, acts) := S.HandleGrant(cfg, host.out, src, d.pkt, now);
        (host.(out := out), acts)
      case Resend =>
        var (out, acts) := S.HandleResend(cfg, host.out, src, d.pkt, now);
        (host.(out := out), acts)
      case Busy => (host.(out := S.HandleBusy(host.out, src, d.pkt, now)), [])
  }

  function Deliveries(h: Addr, acts: seq<Action>): seq<Delivery> {
    if acts == [] then [] else DeliveredBy(h, acts[0]) + Deliveries(h, acts[1..])
  }

  function DeliveredBy(h: Addr, a: Action): seq<Delivery> {
    match a case Deliver(src, id, data) => [Delivery(Flow(src, h, id), data)] case Send(_, _) => []
  }

  /** Host h is now host, and what it put out is on its way. */
  function Post(w: World, h: Addr, host: Host, acts: seq<Action>): World {
    w.(hosts := w.hosts[h := host],
       net := w.net + Emitted(h, acts),
       delivered := w.delivered + Deliveries(h, acts))
  }

  ghost function Apply(cfg: Config, w: World, e: Event): World
    requires Enabled(w, e)
  {
    match e
    case Submit(h, dest, data, retransmit, now) =>
      var (out, acts) := S.Start(cfg, w.hosts[h].out, Key(dest, w.hosts[h].nextId), data, now, retransmit);
      var w' := Register(w, h, dest, data);
      Post(w', h, w'.hosts[h].(out := out), acts)
    case Arrive(x, order, now) =>
      var (host, acts) := Receive(cfg, w.hosts[x.dst], x.src, Encode(x.dgram), order, now);
      Post(w, x.dst, host, acts)
    case TickSender(h, order, now) =>
      var (out, acts) := S.Tick(cfg, w.hosts[h].out, order, now);
      Post(w, h, w.hosts[h].(out := out), acts)
    case TickReceiver(h, order, now) =>
      var (rcv, acts) := R.Tick(cfg, w.hosts[h].rcv, order, now);
      Post(w, h, w.hosts[h].(rcv := rcv), acts)
    case Confirm(h, dest, id) =>
      Post(w, h, w.hosts[h].(out := S.Confirm(w.hosts[h].out, Key(dest, id))), [])
    case Finish(h, dest, id) =>
      Post(w, h, w.hosts[h].(out := S.Finish(w.hosts[h].out, Key(dest, id))), [])
  }

  /** The host hands out its next id and the bytes to send under it go on record. */
  function Register(w: World, h: Addr, dest: Addr, data: seq<Byte>): World
    requires h in w.hosts
  {
    w.(sent := w.sent[Flow(h, dest, w.hosts[h].nextId) := data],
       hosts := w.hosts[h := w.hosts[h].(nextId := w.hosts[h].nextId + 1)])
  }

  // ----- the invariant -----

  function DataFlow(x: Wire): Flow { Flow(x.src, x.dst, x.dgram.pkt.msgId) }

  function CreditFlow(x: Wire): Flow { Flow(x.dst, x.src, x.dgram.pkt.msgId) }

  ghost predicate WireOk(cfg: Config, net: Net, sent: map<Flow, seq<Byte>>, x: Wire) {
    && Representable(x.dgram)
    && match x.dgram.pkt.typ
       case Data => DataFlow(x) in sent && DataOk(cfg, DataFlow(x), sent[DataFlow(x)], x)
       case Grant => CreditFlow(x) in sent && x.dgram.pkt.offset <= |sent[CreditFlow(x)]|
       case Resend => CreditFlow(x) in sent && ResendOk(cfg, net, CreditFlow(x), sent[CreditFlow(x)], x.dgram.pkt)
       case Busy => true
  }

  ghost predicate NetOk(cfg: Config, net: Net, sent: map<Flow, seq<Byte>>) {
    forall x :: x in net ==> WireOk(cfg, net, sent, x)
  }

  ghost predicate SentOk(hosts: map<Addr, Host>, sent: map<Flow, seq<Byte>>) {
    forall f :: f in sent ==>
      |sent[f]| < TWO32 && f.id < TWO64 && f.src in hosts && f.id < hosts[f.src].nextId
  }

  ghost predicate OutsOk(cfg: Config, net: Net, sent: map<Flow, seq<Byte>>, h: Addr, out: S.Outgoing) {
    forall k :: k in out ==>
      Flow(h, k.peer, k.id) in sent && OutOk(cfg, net, Flow(h, k.peer, k.id), sent[Flow(h, k.peer, k.id)], out[k])
  }

  ghost predicate InsOk(cfg: Config, net: Net, sent: map<Flow, seq<Byte>>, h: Addr, incoming: R.Incoming) {
    forall k :: k in incoming ==>
      Flow(k.peer, h, k.id) in sent && InOk(cfg, net, Flow(k.peer, h, k.id), sent[Flow(k.peer, h, k.id)], incoming[k])
  }

  ghost predicate HostOk(cfg: Config, net: Net, sent: map<Flow, seq<Byte>>, h: Addr, host: Host) {
    OutsOk(cfg, net, sent, h, host.out) && InsOk(cfg, net, sent, h, host.rcv.incoming)
  }

  ghost predicate DeliveriesOk(sent: map<Flow, seq<Byte>>, delivered: seq<Delivery>) {
    forall d :: d in delivered ==> d.flow in sent && d.data == sent[d.flow]
  }

  ghost predicate Inv(cfg: Config, w: World) {
    && SentOk(w.hosts, w.sent)
    && NetOk(cfg, w.net, w.sent)
    && (forall h :: h in w.hosts ==> HostOk(cfg, w.net, w.sent, h, w.hosts[h]))
    && DeliveriesOk(w.sent, w.delivered)
  }

  // ----- more datagrams -----

  lemma WireOkMonotone(cfg: Config, net: Net, net': Net, sent: map<Flow, seq<Byte>>, x: Wire)
    requires WireOk(cfg, net, sent, x) && net <= net'
    ensures WireOk(cfg, net', sent, x)
  {
    match x.dgram.pkt.typ
    case Resend => ResendOkMonotone(cfg, net, net', CreditFlow(x), sent[CreditFlow(x)], x.dgram.pkt);
    case _ =>
  }

  lemma InsOkMonotone(cfg: Config, net: Net, net': Net, sent: map<Flow, seq<Byte>>, h: Addr, incoming: R.Incoming)
    requires InsOk(cfg, net, sent, h, incoming) && net <= net'
    ensures InsOk(cfg, net', sent, h, incoming)
  {
    forall k | k in incoming
      ensures InOk(cfg, net', Flow(k.peer, h, k.id), sent[Flow(k.peer, h, k.id)], incoming[k])
    {
      InOkMonotone(cfg, net, net', Flow(k.peer, h, k.id), sent[Flow(k.peer, h, k.id)], incoming[k]);
    }
  }

  /** x is not the last of several chunks of f, or was there before. */
  ghost predicate Harmless(net: Net, f: Flow, x: Wire) {
    x in net || x.dgram.pkt.typ != Data || DataFlow(x) != f || x.dgram.pkt.offset == 0
  }

  lemma NotLast(ps: nat, net: Net, net': Net, f: Flow, data: seq<Byte>)
    requires ps > 0 && |data| < TWO32 && f.id < TWO64
    requires forall x :: x in net' ==> Harmless(net, f, x)
    ensures LastSent(ps, net', f, data) ==> LastSent(ps, net, f, data)
  {
    if |data| > ps {
      var c := FloorTo(|data| - 1, ps);
      ChunkWireFields(ps, f, data, c);
      assert ChunkWire(ps, f, data, c) in net' ==> Harmless(net, f, ChunkWire(ps, f, data, c));
    }
  }

  lemma OutsOkFrame(cfg: Config, net: Net, net': Net, sent: map<Flow, seq<Byte>>, h: Addr, out: S.Outgoing)
    requires OutsOk(cfg, net, sent, h, out) && net <= net'
    requires forall f :: f in sent ==> |sent[f]| < TWO32 && f.id < TWO64
    requires forall k, x :: k in out && x in net' ==> Harmless(net, Flow(h, k.peer, k.id), x)
    ensures OutsOk(cfg, net', sent, h, out)
  {
    forall k | k in out
      ensures OutOk(cfg, net', Flow(h, k.peer, k.id), sent[Flow(h, k.peer, k.id)], out[k])
    {
      var f := Flow(h, k.peer, k.id);
      NotLast(cfg.packetSize, net, net', f, sent[f]);
      OutOkFrame(cfg, net, net', f, sent[f], out[k]);
    }
  }

  /** One host's step keeps everything right if its own records and datagrams are right. */
  lemma PostOk(cfg: Config, w: World, h: Addr, host: Host, acts: seq<Action>)
    requires Inv(cfg, w) && h in w.hosts && host.nextId >= w.hosts[h].nextId
    requires var net' := w.net + Emitted(h, acts);
      && HostOk(cfg, net', w.sent, h, host)
      && forall x :: x in Emitted(h, acts) ==> WireOk(cfg, net', w.sent, x)
    requires DeliveriesOk(w.sent, Deliveries(h, acts))
    ensures Inv(cfg, Post(w, h, host, acts))
  {
    var net' := w.net + Emitted(h, acts);
    var w' := Post(w, h, host, acts);
    forall x | x in net' ensures WireOk(cfg, net', w.sent, x) {
      if x in w.net { WireOkMonotone(cfg, w.net, net', w.sent, x); }
    }
    forall h2 | h2 in w.hosts && h2 != h ensures HostOk(cfg, net', w.sent, h2, w.hosts[h2]) {
      OutsOkFrame(cfg, w.net, net', w.sent, h2, w.hosts[h2].out);
      InsOkMonotone(cfg, w.net, net', w.sent, h2, w.hosts[h2].rcv.incoming);
    }
  }

  // ----- the sender's steps -----

  /** The chunks sent are good datagrams of their message, and no others. */
  lemma ChunkWiresOk(cfg: Config, net: Net, sent: map<Flow, seq<Byte>>, f: Flow,
                     acts: seq<Action>, lo: nat, hi: nat, x: Wire)
    requires f in sent && |sent[f]| < TWO32 && f.id < TWO64
    requires AreChunksIn(cfg.packetSize, Key(f.dst, f.id), sent[f], lo, hi, acts)
    requires x in Emitted(f.src, acts)
    ensures WireOk(cfg, net, sent, x) && DataFlow(x) == f
  {
    ChunksOk(cfg, f, sent[f], lo, hi, acts, x);
    hide DataOk, AreChunksIn, Emitted;
  }

  /** Sending chunks of one message, and updating its record, is a good step. */
  lemma SenderStepOk(cfg: Config, w: World, h: Addr, k: Key, m: S.OutMsg, acts: seq<Action>, lo: nat, hi: nat)
    requires Inv(cfg, w) && h in w.hosts
    requires var f := Flow(h, k.peer, k.id);
      && f in w.sent
      && AreChunksIn(cfg.packetSize, k, w.sent[f], lo, hi, acts)
      && OutOk(cfg, w.net + Emitted(h, acts), f, w.sent[f], m)
    ensures Inv(cfg, Post(w, h, w.hosts[h].(out := w.hosts[h].out[k := m]), acts))
  {
    ChunksAreSends(cfg.packetSize, k, w.sent[Flow(h, k.peer, k.id)], lo, hi, acts);
    OnlySends(h, acts);
    hide AreChunksIn, OutOk, InOk, WireOk, Emitted, Deliveries;
    var f, host := Flow(h, k.peer, k.id), w.hosts[h];
    var net' := w.net + Emitted(h, acts);
    forall x | x in Emitted(h, acts) ensures WireOk(cfg, net', w.sent, x) && DataFlow(x) == f {
      ChunkWiresOk(cfg, net', w.sent, f, acts, lo, hi, x);
    }
    OutsOkFrame(cfg, w.net, net', w.sent, h, host.out - {k});
    InsOkMonotone(cfg, w.net, net', w.sent, h, host.rcv.incoming);
    OutsOkUpdate(cfg, net', w.sent, h, host.out, k, m);
    PostOk(cfg, w, h, host.(out := host.out[k := m]), acts);
  }

  lemma OutsOkUpdate(cfg: Config, net: Net, sent: map<Flow, seq<Byte>>, h: Addr, out: S.Outgoing, k: Key, m: S.OutMsg)
    requires OutsOk(cfg, net, sent, h, out - {k})
    requires Flow(h, k.peer, k.id) in sent && OutOk(cfg, net, Flow(h, k.peer, k.id), sent[Flow(h, k.peer, k.id)], m)
    ensures OutsOk(cfg, net, sent, h, out[k := m])
  {
    forall j | j in out[k := m] && j != k
      ensures j in out - {k} && (out - {k})[j] == out[k := m][j]
    {
    }
  }

  lemma ChunksAreSends(ps: nat, k: Key, data: seq<Byte>, lo: nat, hi: nat, acts: seq<Action>)
    requires ps > 0 && AreChunksIn(ps, k, data, lo, hi, acts)
    ensures forall a :: a in acts ==> a.Send?
  {
  }

  lemma {:induction false} OnlySends(h: Addr, acts: seq<Action>)
    requires forall a :: a in acts ==> a.Send?
    ensures Deliveries(h, acts) == []
  {
    if acts != [] { OnlySends(h, acts[1..]); }
  }
}
