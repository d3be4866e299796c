/** Credit at the sender alone, for any grants and resend requests whatsoever, those included that no
    receiver sends: nothing is sent past the credit heard of, except that a poke may be. */
module HomaWindow {
  import opened Bytes
  import opened Chunks
  import opened HomaPacket
  import opened HomaTypes
  import opened HomaSender
  import opened HomaRetransmit

  /** The send position is less than a packet past the credit. */
  ghost predicate Within(cfg: Config, m: OutMsg) {
    m.nextSend < m.grantedTo + cfg.packetSize && (m.nextSend == |m.data| ==> m.doneAt.Some?)
  }

  ghost predicate AllWithin(cfg: Config, out: Outgoing) {
    forall k :: k in out ==> Within(cfg, out[k])
  }

  /** The credit that an input gives to the message that k names. */
  function Heard(m: OutMsg, i: Input, k: Key): nat {
    match i
    case Granted(src, pkt) => if Key(src, pkt.msgId) == k then Min(pkt.offset, |m.data|) else 0
    case Asked(src, pkt) => if Key(src, pkt.msgId) == k then ResendEnd(|m.data|, pkt) else 0
    case _ => 0
  }

  ghost predicate StartsBelow(acts: seq<Action>, x: nat) {
    forall a :: a in acts ==> a.Send? && a.dgram.pkt.offset < x
  }

  lemma {:induction false} PumpStartsBelow(key: Key, data: seq<Byte>, next: nat, limit: nat, ps: nat)
    requires ps > 0 && limit <= |data|
    ensures StartsBelow(PumpSends(key, data, next, limit, ps), limit)
    decreases limit - next
  {
    if next < limit {
      PumpStartsBelow(key, data, Min(next + ps, |data|), limit, ps);
    }
  }

  lemma {:induction false} ResendStartsBelow(key: Key, data: seq<Byte>, off: nat, end: nat, ps: nat)
    requires ps > 0 && end <= |data|
    ensures StartsBelow(ResendSends(key, data, off, end, ps), end)
    decreases end - off
  {
    if off < end {
      ResendStartsBelow(key, data, ChunkRange(data, off, ps).1, end, ps);
    }
  }

  lemma {:induction false} PumpEndBelow(next: nat, limit: nat, ps: nat, len: nat)
    requires ps > 0 && next <= len && limit <= len
    ensures var e := PumpEnd(next, limit, ps, len); e == next || e < limit + ps
    decreases limit - next
  {
    if next < limit {
      PumpEndBelow(Min(next + ps, len), limit, ps, len);
    }
  }

  /** The bytes of the packets, one after the other. */
  function Payloads(acts: seq<Action>): seq<Byte> {
    if acts == [] then []
    else (match acts[0] case Send(_, d) => d.payload case Deliver(_, _, _) => []) + Payloads(acts[1..])
  }

  /** Pumping sends every byte from the send position up to where it stops, once and in order, and it does not stop
      short of the limit. */
  lemma {:induction false} PumpConserves(key: Key, data: seq<Byte>, next: nat, limit: nat, ps: nat)
    requires ps > 0 && next <= |data| && limit <= |data|
    ensures var end := PumpEnd(next, limit, ps, |data|);
      limit <= end && Payloads(PumpSends(key, data, next, limit, ps)) == data[next..end]
    decreases limit - next
  {
    if next < limit {
      var e := Min(next + ps, |data|);
      PumpConserves(key, data, e, limit, ps);
      var end := PumpEnd(e, limit, ps, |data|);
      var acts := PumpSends(key, data, next, limit, ps);
      assert acts[1..] == PumpSends(key, data, e, limit, ps);
      assert data[next..end] == data[next..e] + data[e..end];
    } else {
      assert data[next..next] == [];
    }
  }

  lemma PumpedWithin(cfg: Config, m: OutMsg, upTo: nat, now: Time)
    requires m.nextSend < m.grantedTo + cfg.packetSize && (m.doneAt.None? || Within(cfg, m))
    ensures Within(cfg, Pumped(cfg, m, upTo, now))
    ensures m.grantedTo <= Pumped(cfg, m, upTo, now).grantedTo <= Max(m.grantedTo, Min(upTo, |m.data|))
  {
    hide PumpEnd;
    PumpEndBelow(m.nextSend, Min(upTo, |m.data|), cfg.packetSize, |m.data|);
  }

  lemma PumpedSendsBelow(cfg: Config, key: Key, m: OutMsg, upTo: nat, now: Time)
    ensures StartsBelow(PumpedSends(cfg, key, m, upTo), Pumped(cfg, m, upTo, now).grantedTo)
  {
    hide PumpEnd, PumpSends;
    PumpStartsBelow(key, m.data, m.nextSend, Min(upTo, |m.data|), cfg.packetSize);
  }

  lemma {:induction false} TickWithin(cfg: Config, out: Outgoing, order: seq<Key>, i: nat, now: Time)
    requires AllWithin(cfg, out)
    ensures AllWithin(cfg, TickFrom(cfg, out, order, i, now).0)
    ensures forall k :: k in out ==> TickFrom(cfg, out, order, i, now).0[k].grantedTo == out[k].grantedTo
    decreases |order| - i
  {
    if i < |order| {
      if order[i] in out {
        TickWithin(cfg, out[order[i] := TickMsg(cfg, out[order[i]], now)], order, i + 1, now);
      } else {
        TickWithin(cfg, out, order, i + 1, now);
      }
    }
  }

  lemma BeginWithin(cfg: Config, data: seq<Byte>, now: Time, retransmit: bool)
    ensures var m := Fresh(cfg, data, now, retransmit); Within(cfg, Pumped(cfg, m, m.grantedTo, now))
  {
    PumpedWithin(cfg, Fresh(cfg, data, now, retransmit), Min(cfg.unscheduledBytes, |data|), now);
  }

  /** The credit of the message that k names never goes down while the message stays, and goes up by no
      more than the input gives. */
  ghost predicate CreditKept(out: Outgoing, out': Outgoing, i: Input, k: Key) {
    k in out && k in out' && !(i.Begin? && i.key == k) ==>
      out[k].grantedTo <= out'[k].grantedTo <= Max(out[k].grantedTo, Heard(out[k], i, k))
  }

  /** What is sent of a message begins below its credit. */
  ghost predicate SentBelow(out: Outgoing, acts: seq<Action>, k: Key) {
    forall a :: a in acts && About(a, k) ==> k in out && a.dgram.pkt.offset < out[k].grantedTo
  }

  /** A change to one message, with packets of that message only, all below its credit. */
  lemma OneChanged(cfg: Config, out: Outgoing, key: Key, m: OutMsg, acts: seq<Action>, k: Key)
    requires AllWithin(cfg, out) && Within(cfg, m) && StartsBelow(acts, m.grantedTo)
    requires forall a :: a in acts ==> About(a, key)
    ensures AllWithin(cfg, out[key := m]) && SentBelow(out[key := m], acts, k)
  {
    hide Within;
  }

  lemma BeginCredit(cfg: Config, out: Outgoing, key: Key, data: seq<Byte>, retransmit: bool, now: Time, k: Key)
    requires AllWithin(cfg, out)
    ensures var (out', acts) := Start(cfg, out, key, data, now, retransmit);
      AllWithin(cfg, out') && SentBelow(out', acts, k)
  {
    hide AllWithin, Within, SentBelow, StartsBelow, Pumped, PumpSends;
    var m := Fresh(cfg, data, now, retransmit);
    BeginWithin(cfg, data, now, retransmit);
    PumpedSendsBelow(cfg, key, m, m.grantedTo, now);
    PumpSendsAbout(key, data, 0, Min(m.grantedTo, |data|), cfg.packetSize);
    OneChanged(cfg, out, key, Pumped(cfg, m, m.grantedTo, now), PumpedSends(cfg, key, m, m.grantedTo), k);
  }

  lemma GrantCredit(cfg: Config, out: Outgoing, src: Addr, pkt: Packet, now: Time, k: Key)
    requires AllWithin(cfg, out)
    ensures var (out', acts) := HandleGrant(cfg, out, src, pkt, now);
      AllWithin(cfg, out') && CreditKept(out, out', Granted(src, pkt), k) && SentBelow(out', acts, k)
  {
    hide Within, StartsBelow, Pumped, PumpSends;
    var key := Key(src, pkt.msgId);
    if key in out {
      var m, limit := out[key], Min(pkt.offset, |out[key].data|);
      CreditOfWithin(cfg, m);
      PumpedWithin(cfg, m, limit, now);
      PumpedSendsBelow(cfg, key, m, limit, now);
      PumpSendsAbout(key, m.data, m.nextSend, Min(limit, |m.data|), cfg.packetSize);
      OneChanged(cfg, out, key, Pumped(cfg, m, limit, now), PumpedSends(cfg, key, m, limit), k);
    }
  }

  lemma CreditOfWithin(cfg: Config, m: OutMsg)
    requires Within(cfg, m)
    ensures m.nextSend < m.grantedTo + cfg.packetSize
  {
  }

  lemma AskCredit(cfg: Config, out: Outgoing, src: Addr, pkt: Packet, now: Time, k: Key)
    requires AllWithin(cfg, out)
    ensures var (out', acts) := HandleResend(cfg, out, src, pkt, now);
      AllWithin(cfg, out') && CreditKept(out, out', Asked(src, pkt), k) && SentBelow(out', acts, k)
  {
    hide ResendSends;
    var key := Key(src, pkt.msgId);
    if key in out {
      var m, end := out[key], ResendEnd(|out[key].data|, pkt);
      assert Within(cfg, Answered(m, pkt, now));
      ResendStartsBelow(key, m.data, Min(pkt.offset, |m.data|), end, cfg.packetSize);
      ResendSendsAbout(key, m.data, Min(pkt.offset, |m.data|), end, cfg.packetSize);
      OneChanged(cfg, out, key, Answered(m, pkt, now), AnswerSends(cfg, key, m, pkt), k);
    }
  }

  lemma TickCredit(cfg: Config, out: Outgoing, order: seq<Key>, now: Time, k: Key)
    requires AllWithin(cfg, out)
    ensures var out' := Tick(cfg, out, order, now).0; AllWithin(cfg, out') && CreditKept(out, out', Ticked(order), k)
  {
    hide Within;
    TickWithin(cfg, Lingering(cfg, out, now), order, 0, now);
  }

  /** Credit at the sender, one input at a time, whatever the input: what a start, a grant or a resend
      request sends begins below the credit that the sender has heard of. */
  lemma StepWithinCredit(cfg: Config, out: Outgoing, i: Input, now: Time, k: Key)
    requires AllWithin(cfg, out)
    ensures var (out', acts) := Step(cfg, out, i, now);
      AllWithin(cfg, out') && CreditKept(out, out', i, k) && (!i.Ticked? ==> SentBelow(out', acts, k))
  {
    match i
    case Begin(key, data, retransmit) =>
      BeginCredit(cfg, out, key, data, retransmit, now, k);
      hide AllWithin, SentBelow, Pumped, PumpSends;
    case Granted(src, pkt) =>
      GrantCredit(cfg, out, src, pkt, now, k);
      hide AllWithin, SentBelow, Pumped, PumpSends;
    case Asked(src, pkt) =>
      AskCredit(cfg, out, src, pkt, now, k);
      hide AllWithin, SentBelow, ResendSends;
    case Ticked(order) => TickCredit(cfg, out, order, now, k);
    case _ =>
  }

  /** Over every run of the sender, whatever grants, resend requests and ticks it gets, the send position
      is less than a packet past the credit heard of. */
  lemma {:induction false} LifeWithinCredit(cfg: Config, outs: seq<Outgoing>, inputs: seq<Input>, times: seq<Time>,
                                            k: Key, counts: seq<nat>, n: nat)
    requires IsLife(cfg, outs, inputs, times, k, counts) && n < |outs|
    ensures AllWithin(cfg, outs[n])
    ensures n > 0 && !inputs[n - 1].Ticked? ==> SentBelow(outs[n], Step(cfg, outs[n - 1], inputs[n - 1], times[n - 1]).1, k)
  {
    if n > 0 {
      hide Step, Count, AllWithin, SentBelow, CreditKept, Lists;
      LifeWithinCredit(cfg, outs, inputs, times, k, counts, n - 1);
      StepWithinCredit(cfg, outs[n - 1], inputs[n - 1], times[n - 1], k);
      assert outs[n - 1 + 1] == Step(cfg, outs[n - 1], inputs[n - 1], times[n - 1]).0;
    }
  }

  /** What a tick sends for a message is its first packet, if the message is done, or a poke: the chunk of
      the last byte before the send position. The poke starts below the credit exactly if there is any,
      and the send position is not past it or the last byte sent and the last byte credited share a chunk. */
  lemma TickSendsWithin(cfg: Config, key: Key, m: OutMsg, now: Time, a: Action)
    requires Within(cfg, m) && a in TickMsgSends(cfg, key, m, now)
    ensures a.Send? && (a.dgram.pkt.offset == 0 || a.dgram.pkt.offset < m.nextSend)
    ensures m.doneAt.Some? ==> a.dgram.pkt.offset == 0
    ensures m.doneAt.None? && |m.data| < TWO32 ==>
      (a.dgram.pkt.offset < m.grantedTo <==>
        && m.grantedTo > 0
        && (|| m.nextSend <= m.grantedTo
            || FloorTo(m.nextSend - 1, cfg.packetSize) == FloorTo(m.grantedTo - 1, cfg.packetSize)))
  {
    if m.nextSend > 0 && m.grantedTo > 0 {
      var p, q := FloorTo(m.nextSend - 1, cfg.packetSize), FloorTo(m.grantedTo - 1, cfg.packetSize);
      MultipleGap(p, q, cfg.packetSize);
      MultipleGap(q, p, cfg.packetSize);
    }
  }

  /** For a sender on its own it need not: with two-byte packets, a resend request that ends at 7 and a
      grant of 8 leave the send position at 9 with credit 8, and the poke then starts at 8. No receiver
      sends these two: HomaRun.SendsWithinCredit. */
  lemma PokePastCredit(cfg: Config, data: seq<Byte>, key: Key, ask: Packet, grant: Packet)
    requires cfg.packetSize == 2 && cfg.unscheduledBytes == 2 && |data| == 20
    requires ask.offset == 2 && ask.length == 5 && grant.offset == 8
    ensures var m0 := Pumped(cfg, Fresh(cfg, data, 0, false), 2, 0);
      var m1 := Answered(m0, ask, 0);
      var m2 := Pumped(cfg, m1, grant.offset, 0);
      && m2.grantedTo == 8
      && TickMsgSends(cfg, key, m2, cfg.pokeTimeout) == [Send(key.peer, DataDatagram(data, key.id, 8, 10))]
  {
    var m0 := Pumped(cfg, Fresh(cfg, data, 0, false), 2, 0);
    assert PumpEnd(0, 2, 2, 20) == 2 && PumpEnd(7, 8, 2, 20) == 9;
    hide PumpEnd;
    var m1 := Answered(m0, ask, 0);
    assert m1.nextSend == 7 && m1.grantedTo == 7;
    var m2 := Pumped(cfg, m1, grant.offset, 0);
    assert m2.nextSend == 9 && m2.doneAt == None;
    assert Rem(8, 2) == Rem(6, 2) == Rem(4, 2) == Rem(2, 2) == Rem(0, 2) == 0;
  }
}
