/** The sending core as the program runs it: one object whose map of messages every call updates,
    with the packet loops written out. Each method is proved against its function in HomaSender. */
module HomaSenderCore {
  import opened Bytes
  import opened Chunks
  import opened HomaPacket
  import opened HomaTypes
  import opened Spec = HomaSender
  import opened HomaRetransmit

  class SenderCore {
    const cfg: Config
    var out: Outgoing

    constructor (cfg: Config)
      ensures this.cfg == cfg && out == map[]
    {
      this.cfg := cfg;
      out := map[];
    }

    /** The packet loop of `pump`. */
    method SendUpTo(key: Key, data: seq<Byte>, from: nat, limit: nat) returns (next: nat, actions: seq<Action>)
      requires from <= |data| && limit <= |data|
      ensures actions == PumpSends(key, data, from, limit, cfg.packetSize)
      ensures next == PumpEnd(from, limit, cfg.packetSize, |data|)
    {
      actions, next := [], from;
      while next < limit
        invariant from <= next <= |data|
        invariant actions + PumpSends(key, data, next, limit, cfg.packetSize)
               == PumpSends(key, data, from, limit, cfg.packetSize)
        invariant PumpEnd(next, limit, cfg.packetSize, |data|) == PumpEnd(from, limit, cfg.packetSize, |data|)
      {
        var e := Min(next + cfg.packetSize, |data|);
        var act := Send(key.peer, DataDatagram(data, key.id, next, e));
        ConcatAssoc(actions, [act], PumpSends(key, data, e, limit, cfg.packetSize));
        actions, next := actions + [act], e;
      }
    }

    method PumpKey(key: Key, upTo: nat, now: Time) returns (actions: seq<Action>)
      modifies this
      ensures key !in old(out) ==> out == old(out) && actions == []
      ensures key in old(out) ==> out == old(out)[key := Pumped(cfg, old(out)[key], upTo, now)]
      ensures key in old(out) ==> actions == PumpedSends(cfg, key, old(out)[key], upTo)
    {
      actions := [];
      if key !in out { return; }
      var msg: OutMsg := out[key];
      if msg.doneAt.Some? {
        assert out == old(out)[key := msg];
        return;
      }
      var limit := Min(upTo, |msg.data|);
      var next;
      next, actions := SendUpTo(key, msg.data, msg.nextSend, limit);
      msg := msg.(nextSend := next, grantedTo := Max(msg.grantedTo, limit), lastProgress := now);
      if msg.nextSend >= |msg.data| {
        msg := msg.(doneAt := Some(now));
      }
      out := out[key := msg];
    }

    method Start(dest: Addr, id: nat, data: seq<Byte>, now: Time, retransmit: bool) returns (actions: seq<Action>)
      modifies this
      ensures out == Spec.Start(cfg, old(out), Key(dest, id), data, now, retransmit).0
      ensures actions == Spec.Start(cfg, old(out), Key(dest, id), data, now, retransmit).1
    {
      var unscheduled := Min(cfg.unscheduledBytes, |data|);
      var key := Key(dest, id);
      out := out[key := OutFields(data, unscheduled, 0, None, now, retransmit)];
      actions := PumpKey(key, unscheduled, now);
      assert out == old(out)[key := out[key]];
    }

    method HandleGrant(src: Addr, pkt: Packet, now: Time) returns (actions: seq<Action>)
      modifies this
      ensures out == Spec.HandleGrant(cfg, old(out), src, pkt, now).0 && actions == Spec.HandleGrant(cfg, old(out), src, pkt, now).1
    {
      actions := [];
      var key := Key(src, pkt.msgId);
      var newLimit := Min(pkt.offset, if key in out then |out[key].data| else 0);
      if key !in out { return; }
      if newLimit <= out[key].grantedTo { return; }
      actions := PumpKey(key, newLimit, now);
    }

    /** The packet loop of `handle_resend`. */
    method SendRange(key: Key, data: seq<Byte>, start: nat, end: nat) returns (actions: seq<Action>)
      requires end <= |data|
      ensures actions == ResendSends(key, data, start, end, cfg.packetSize)
    {
      actions := [];
      var off := start;
      while off < end
        invariant actions + ResendSends(key, data, off, end, cfg.packetSize)
               == ResendSends(key, data, start, end, cfg.packetSize)
      {
        var (s, e) := ChunkRange(data, off, cfg.packetSize);
        var act := ChunkSend(key, data, off, cfg.packetSize);
        ConcatAssoc(actions, [act], ResendSends(key, data, e, end, cfg.packetSize));
        actions := actions + [act];
        off := Max(e, s + 1);
      }
    }

    method HandleResend(src: Addr, pkt: Packet, now: Time) returns (actions: seq<Action>)
      modifies this
      ensures out == Spec.HandleResend(cfg, old(out), src, pkt, now).0
      ensures actions == Spec.HandleResend(cfg, old(out), src, pkt, now).1
    {
      actions := [];
      var key := Key(src, pkt.msgId);
      if key !in out { return; }
      var msg: OutMsg := out[key];
      var start := Min(pkt.offset, |msg.data|);
      var end := Min(start + pkt.length, |msg.data|);
      actions := SendRange(key, msg.data, start, end);
      var next, done := msg.nextSend, msg.doneAt;
      if next < end {
        next := end;
        if next >= |msg.data| && done.None? {
          done := Some(now);
        }
      }
      out := out[key := msg.(grantedTo := Max(msg.grantedTo, end), nextSend := next, doneAt := done, lastProgress := now)];
    }

    /** A busy answer puts off the message's next poke or retransmission by a whole timeout, and is all
        that happens. */
    method HandleBusy(src: Addr, pkt: Packet, now: Time)
      modifies this
      ensures out == Spec.HandleBusy(old(out), src, pkt, now)
      ensures out.Keys == old(out).Keys
      ensures forall k :: k in out ==> out[k] == old(out)[k].(lastProgress := out[k].lastProgress)
      ensures forall k :: k in out && k != Key(src, pkt.msgId) ==> out[k] == old(out)[k]
      ensures forall t: Time :: Key(src, pkt.msgId) in out && now <= t < now + cfg.pokeTimeout ==>
        !Pokes(cfg, out[Key(src, pkt.msgId)], t)
      ensures forall t: Time :: Key(src, pkt.msgId) in out && now <= t < now + cfg.retransmitTimeout ==>
        !Retransmits(cfg, out[Key(src, pkt.msgId)], t)
    {
      var key := Key(src, pkt.msgId);
      if key in out {
        out := out[key := out[key].(lastProgress := now)];
      }
    }

    /** One packet at most, to the message's receiver and of bytes already sent (or the first ones), and
        then not again for a whole timeout; nothing but the progress time changes. */
    method TickOne(key: Key, msg: OutMsg, now: Time) returns (msg': OutMsg, actions: seq<Action>)
      ensures msg' == TickMsg(cfg, msg, now)
      ensures actions == TickMsgSends(cfg, key, msg, now)
      ensures msg' == msg.(lastProgress := msg'.lastProgress)
      ensures actions == [] ==> msg' == msg
      ensures actions != [] ==> |actions| == 1 && msg'.lastProgress == now
      ensures actions != [] <==>
        if msg.doneAt.Some? then msg.retransmit && Since(now, msg.lastProgress) >= cfg.retransmitTimeout
        else Since(now, msg.lastProgress) >= cfg.pokeTimeout
      ensures actions != [] ==> actions[0] == TickPacket(cfg, key, msg)
    {
      hide DataDatagram, TickPacket;
      TickSendsPacket(cfg, key, msg, now);
      msg', actions := msg, [];
      if msg.doneAt.Some? {
        if msg.retransmit && Since(now, msg.lastProgress) >= cfg.retransmitTimeout {
          actions := [Send(key.peer, DataDatagram(msg.data, key.id, 0, Min(cfg.packetSize, |msg.data|)))];
          msg' := msg.(lastProgress := now);
        }
      } else if Since(now, msg.lastProgress) >= cfg.pokeTimeout {
        var lastOff := if msg.nextSend == 0 then 0 else FloorTo(msg.nextSend - 1, cfg.packetSize);
        var (s, e) := ChunkRange(msg.data, lastOff, cfg.packetSize);
        actions := [Send(key.peer, DataDatagram(msg.data, key.id, s, e))];
        msg' := msg.(lastProgress := now);
      }
    }

    /** A message whose linger has run out goes; for every other, one packet is sent if it is stalled and none if
        it is not. */
    method Tick(order: seq<Key>, now: Time) returns (actions: seq<Action>)
      requires Lists(order, out.Keys)
      modifies this
      ensures out == Spec.Tick(cfg, old(out), order, now).0 && actions == Spec.Tick(cfg, old(out), order, now).1
      ensures forall k :: k in old(out) ==>
        && var m := old(out)[k];
           var goes := m.doneAt.Some? && m.doneAt.value + cfg.linger <= Max(now, m.doneAt.value);
           && (k in out <==> !goes)
           && Copies(actions, k) == if !goes && Stalled(cfg, m, now) then 1 else 0
    {
      forall k | k in out ensures var m, (out', acts) := out[k], Spec.Tick(cfg, out, order, now);
        var goes := m.doneAt.Some? && m.doneAt.value + cfg.linger <= Max(now, m.doneAt.value);
        (k in out' <==> !goes) && Copies(acts, k) == if !goes && Stalled(cfg, m, now) then 1 else 0
      {
        TickExactly(cfg, out, order, now, k);
      }
      hide Copies, Stalled;
      actions := [];
      out := Lingering(cfg, out, now);
      ghost var all := TickFrom(cfg, out, order, 0, now);
      for i := 0 to |order|
        invariant TickFrom(cfg, out, order, i, now).0 == all.0
        invariant actions + TickFrom(cfg, out, order, i, now).1 == all.1
      {
        var key := order[i];
        if key in out {
          var msg, acts := TickOne(key, out[key], now);
          out := out[key := msg];
          ConcatAssoc(actions, acts, TickFrom(cfg, out, order, i + 1, now).1);
          actions := actions + acts;
        }
      }
    }

    /** A done message is gone; one that is not done stays as it is, but will not be retransmitted. */
    method Confirm(dest: Addr, id: nat)
      modifies this
      ensures out == Spec.Confirm(old(out), Key(dest, id))
      ensures forall k :: k != Key(dest, id) ==> (k in out <==> k in old(out)) && (k in out ==> out[k] == old(out)[k])
      ensures Key(dest, id) in out <==> Key(dest, id) in old(out) && old(out)[Key(dest, id)].doneAt.None?
      ensures Key(dest, id) in out ==>
        && var m, m' := old(out)[Key(dest, id)], out[Key(dest, id)];
           m'.data == m.data && m'.nextSend == m.nextSend && m'.grantedTo == m.grantedTo && m'.lastProgress == m.lastProgress
      ensures Key(dest, id) in out ==> forall t :: !Retransmits(cfg, out[Key(dest, id)], t)
    {
      var key := Key(dest, id);
      if key !in out { return; }
      if out[key].doneAt.Some? {
        out := out - {key};
      } else {
        out := out[key := out[key].(retransmit := false)];
      }
    }

    /** The message is gone, and no other. */
    method Finish(dest: Addr, id: nat)
      modifies this
      ensures out == Spec.Finish(old(out), Key(dest, id))
      ensures Key(dest, id) !in out
      ensures forall k :: k != Key(dest, id) ==> (k in out <==> k in old(out)) && (k in out ==> out[k] == old(out)[k])
    {
      out := out - {Key(dest, id)};
    }
  }
}
