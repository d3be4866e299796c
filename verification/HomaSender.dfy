/** The sending core: cuts messages into packets, sends the unscheduled window at once, the rest
    as grants arrive, answers resend requests, probes when stalled and lingers once done. */
module HomaSender {
  import opened Bytes
  import opened Chunks
  import opened HomaPacket
  import opened HomaTypes

  datatype OutFields = OutFields(
    data: seq<Byte>,
    grantedTo: nat,
    nextSend: nat,
    doneAt: Option<Time>,
    lastProgress: Time,
    retransmit: bool)

  type OutMsg = m: OutFields | m.nextSend <= |m.data|
    witness OutFields([], 0, 0, None, 0, false)

  /** The core's state: the messages not yet reclaimed. */
  type Outgoing = map<Key, OutMsg>

  // ----- one message -----

  /** The packets of [next, limit), each starting where the one before it ended. */
  function PumpSends(key: Key, data: seq<Byte>, next: nat, limit: nat, ps: nat): seq<Action>
    requires ps > 0 && limit <= |data|
    decreases limit - next
  {
    if next >= limit then []
    else
      var e := Min(next + ps, |data|);
      [Send(key.peer, DataDatagram(data, key.id, next, e))] + PumpSends(key, data, e, limit, ps)
  }

  /** Where the next packet starts once [next, limit) has been sent. */
  function PumpEnd(next: nat, limit: nat, ps: nat, len: nat): (r: nat)
    requires ps > 0 && next <= len && limit <= len
    ensures limit <= r <= len && next <= r
    decreases limit - next
  {
    if next >= limit then next else PumpEnd(Min(next + ps, len), limit, ps, len)
  }

  /** `pump`: send what is left of [0, upTo) and record it. */
  function Pumped(cfg: Config, m: OutMsg, upTo: nat, now: Time): OutMsg {
    if m.doneAt.Some? then m
    else
      var limit := Min(upTo, |m.data|);
      var next := PumpEnd(m.nextSend, limit, cfg.packetSize, |m.data|);
      m.(nextSend := next,
         grantedTo := Max(m.grantedTo, limit),
         lastProgress := now,
         doneAt := if next >= |m.data| then Some(now) else None)
  }

  function PumpedSends(cfg: Config, key: Key, m: OutMsg, upTo: nat): seq<Action> {
    if m.doneAt.Some? then []
    else PumpSends(key, m.data, m.nextSend, Min(upTo, |m.data|), cfg.packetSize)
  }

  /** The chunk [start, end) that holds offset. */
  function ChunkRange(data: seq<Byte>, offset: nat, ps: nat): (r: (nat, nat))
    requires ps > 0 && offset <= |data|
    ensures r.0 <= r.1 <= |data| && r.0 <= offset
    ensures offset < |data| ==> offset < r.1
  {
    var start := FloorTo(offset, ps);
    (start, Min(start + ps, |data|))
  }

  function ChunkSend(key: Key, data: seq<Byte>, offset: nat, ps: nat): Action
    requires ps > 0 && offset <= |data|
  {
    var (s, e) := ChunkRange(data, offset, ps);
    Send(key.peer, DataDatagram(data, key.id, s, e))
  }

  /** The chunks that overlap [off, end). */
  function ResendSends(key: Key, data: seq<Byte>, off: nat, end: nat, ps: nat): seq<Action>
    requires ps > 0 && end <= |data|
    decreases end - off
  {
    if off >= end then []
    else
      [ChunkSend(key, data, off, ps)] + ResendSends(key, data, ChunkRange(data, off, ps).1, end, ps)
  }

  /** The end of the range a resend request asks for, cut to the message. */
  function ResendEnd(len: nat, pkt: Packet): nat {
    Min(Min(pkt.offset, len) + pkt.length, len)
  }

  /** A message once a resend request has been answered: the range counts as granted and sent. */
  function Answered(m: OutMsg, pkt: Packet, now: Time): OutMsg {
    var end := ResendEnd(|m.data|, pkt);
    var ahead := m.nextSend < end;
    m.(grantedTo := Max(m.grantedTo, end),
       nextSend := if ahead then end else m.nextSend,
       doneAt := if ahead && end >= |m.data| && m.doneAt.None? then Some(now) else m.doneAt,
       lastProgress := now)
  }

  function AnswerSends(cfg: Config, key: Key, m: OutMsg, pkt: Packet): seq<Action> {
    ResendSends(key, m.data, Min(pkt.offset, |m.data|), ResendEnd(|m.data|, pkt), cfg.packetSize)
  }

  predicate Kept(cfg: Config, m: OutMsg, now: Time) {
    m.doneAt.None? || Since(now, m.doneAt.value) < cfg.linger
  }

  /** Whether a tick sends a finished message's first packet again. */
  predicate Retransmits(cfg: Config, m: OutMsg, now: Time) {
    m.doneAt.Some? && m.retransmit && Since(now, m.lastProgress) >= cfg.retransmitTimeout
  }

  predicate Pokes(cfg: Config, m: OutMsg, now: Time) {
    m.doneAt.None? && Since(now, m.lastProgress) >= cfg.pokeTimeout
  }

  function TickMsg(cfg: Config, m: OutMsg, now: Time): OutMsg {
    if Retransmits(cfg, m, now) || Pokes(cfg, m, now) then m.(lastProgress := now) else m
  }

  function TickMsgSends(cfg: Config, key: Key, m: OutMsg, now: Time): seq<Action> {
    if Retransmits(cfg, m, now) then
      [Send(key.peer, DataDatagram(m.data, key.id, 0, Min(cfg.packetSize, |m.data|)))]
    else if Pokes(cfg, m, now) then
      [ChunkSend(key, m.data, if m.nextSend == 0 then 0 else m.nextSend - 1, cfg.packetSize)]
    else []
  }

  // ----- the whole core -----

  function Fresh(cfg: Config, data: seq<Byte>, now: Time, retransmit: bool): OutMsg {
    OutFields(data, Min(cfg.unscheduledBytes, |data|), 0, None, now, retransmit)
  }

  function Start(cfg: Config, out: Outgoing, key: Key, data: seq<Byte>, now: Time, retransmit: bool): (Outgoing, seq<Action>) {
    var m := Fresh(cfg, data, now, retransmit);
    (out[key := Pumped(cfg, m, m.grantedTo, now)], PumpedSends(cfg, key, m, m.grantedTo))
  }

  function HandleGrant(cfg: Config, out: Outgoing, src: Addr, pkt: Packet, now: Time): (Outgoing, seq<Action>) {
    var key := Key(src, pkt.msgId);
    if key !in out || Min(pkt.offset, |out[key].data|) <= out[key].grantedTo then (out, [])
    else
      var limit := Min(pkt.offset, |out[key].data|);
      (out[key := Pumped(cfg, out[key], limit, now)], PumpedSends(cfg, key, out[key], limit))
  }

  function HandleResend(cfg: Config, out: Outgoing, src: Addr, pkt: Packet, now: Time): (Outgoing, seq<Action>) {
    var key := Key(src, pkt.msgId);
    if key !in out then (out, [])
    else (out[key := Answered(out[key], pkt, now)], AnswerSends(cfg, key, out[key], pkt))
  }

  function HandleBusy(out: Outgoing, src: Addr, pkt: Packet, now: Time): Outgoing {
    var key := Key(src, pkt.msgId);
    if key in out then out[key := out[key].(lastProgress := now)] else out
  }

  /** The messages whose linger has not run out. */
  function Lingering(cfg: Config, out: Outgoing, now: Time): Outgoing {
    map k | k in out && Kept(cfg, out[k], now) :: out[k]
  }

  /** Ticking, one after the other, the messages listed from position i on. */
  function TickFrom(cfg: Config, out: Outgoing, order: seq<Key>, i: nat, now: Time): (r: (Outgoing, seq<Action>))
    ensures r.0.Keys == out.Keys
    decreases |order| - i
  {
    if i >= |order| then (out, [])
    else if order[i] !in out then TickFrom(cfg, out, order, i + 1, now)
    else
      var m := out[order[i]];
      var rest := TickFrom(cfg, out[order[i] := TickMsg(cfg, m, now)], order, i + 1, now);
      (rest.0, TickMsgSends(cfg, order[i], m, now) + rest.1)
  }

  function Tick(cfg: Config, out: Outgoing, order: seq<Key>, now: Time): (Outgoing, seq<Action>) {
    TickFrom(cfg, Lingering(cfg, out, now), order, 0, now)
  }

  function Confirm(out: Outgoing, key: Key): Outgoing {
    if key !in out then out
    else if out[key].doneAt.Some? then out - {key}
    else out[key := out[key].(retransmit := false)]
  }

  function Finish(out: Outgoing, key: Key): Outgoing {
    out - {key}
  }
}
