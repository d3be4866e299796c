/** The receiving core as the program runs it: one object whose maps and queues every call updates,
    with the scheduling and ticking loops written out. Each method is proved against its function in
    HomaReceiver. */
module HomaReceiverCore {
  import opened Bytes
  import opened Chunks
  import opened HomaPacket
  import opened HomaTypes
  import opened Spec = HomaReceiver
  import HomaCredit
  import opened HomaSrpt
  import opened HomaStarve

  lemma {:induction false} NotIn(keys: seq<Key>, key: Key)
    ensures key !in Without(keys, key)
  {
    if keys != [] { NotIn(keys[1..], key); }
  }

  class ReceiverCore {
    const cfg: Config
    var incoming: Incoming
    var granting: seq<Key>
    var completed: set<Key>
    var completedOrder: seq<Key>
    var starveQueue: Deadlines

    ghost function State(): ReceiverState
      reads this
    {
      ReceiverState(incoming, granting, completed, completedOrder, starveQueue)
    }

    constructor (cfg: Config)
      ensures this.cfg == cfg && State() == Empty
    {
      this.cfg := cfg;
      incoming, granting, completed, completedOrder, starveQueue := map[], [], {}, [], [];
    }

    /** The credit goes to the received bytes plus an increment, cut to the message, and never back, and
        the grant sent says where it ends; or nothing happens, for want of the message, or because half
        an increment is outstanding or there is nothing to add. */
    method IssueGrant(key: Key, now: Time, force: bool) returns (actions: seq<Action>)
      modifies this
      ensures State() == Spec.IssueGrant(cfg, old(State()), key, now, force).0
      ensures actions == Spec.IssueGrant(cfg, old(State()), key, now, force).1
      ensures forall k :: k != key ==> (k in incoming <==> k in old(incoming)) && (k in incoming ==> incoming[k] == old(incoming)[k])
      ensures actions == [] ==> unchanged(this)
      ensures actions == [] <==>
        || key !in old(incoming)
        || var m := old(incoming)[key];
           && !force
           && (|| Outstanding(m) >= cfg.grantIncrement / 2
               || Min(m.receivedBytes + cfg.grantIncrement, m.totalLen) <= m.grantedTo)
      ensures actions != [] ==>
        && key in old(incoming) && key in incoming
        && var m := old(incoming)[key];
           && incoming[key] == m.(grantedTo := Max(m.grantedTo, Min(m.receivedBytes + cfg.grantIncrement, m.totalLen)), lastGrant := now)
           && |actions| == 1 && actions[0].Send? && actions[0].dest == key.peer
           && actions[0].dgram.pkt.typ == Grant && actions[0].dgram.pkt.msgId == key.id
           && actions[0].dgram.pkt.offset == AsU32(incoming[key].grantedTo)
           && actions[0].dgram.pkt.length == AsU32(incoming[key].grantedTo - m.grantedTo)
           && actions[0].dgram.pkt.priority == PriorityForLen(m.totalLen) && actions[0].dgram.payload == []
    {
      actions := [];
      if key !in incoming { return; }
      var msg := incoming[key];
      var outstanding := if msg.grantedTo >= msg.receivedBytes then msg.grantedTo - msg.receivedBytes else 0;
      if !force && outstanding >= cfg.grantIncrement / 2 { return; }
      var target := Max(Min(msg.receivedBytes + cfg.grantIncrement, msg.totalLen), msg.grantedTo);
      if target == msg.grantedTo && !force { return; }
      actions := [Send(key.peer, Datagram(
        Packet(Grant, PriorityForLen(msg.totalLen), key.id, 0, AsU32(target), AsU32(target - msg.grantedTo)), []))];
      incoming := incoming[key := msg.(grantedTo := target, lastGrant := now)];
      starveQueue := Push(starveQueue, (now + cfg.starveThreshold, key));
    }

    /** Who is to be granted: the shortest, and whoever has waited too long. */
    method Select(order: seq<Key>, now: Time) returns (selected: seq<Key>)
      ensures selected == Selected(cfg, incoming, order, now)
    {
      var cands: seq<Key> := [];
      for i := 0 to |order|
        invariant cands + Candidates(incoming, order, i) == Candidates(incoming, order, 0)
      {
        if order[i] in incoming && incoming[order[i]].NeedsCredit() {
          ConcatAssoc(cands, [order[i]], Candidates(incoming, order, i + 1));
          cands := cands + [order[i]];
        }
      }
      assert cands == Candidates(incoming, order, 0);
      var ranked := RankAll(incoming, cands);
      selected := ranked[..Min(Max(cfg.overcommit, 1), |ranked|)];
      for i := 0 to |order|
        invariant AddStarving(cfg, incoming, order, i, selected, now) == Selected(cfg, incoming, order, now)
      {
        var key := order[i];
        if key in incoming && Starving(cfg, incoming[key], now) && key !in selected {
          selected := selected + [key];
        }
      }
    }

    method Schedule(order: seq<Key>, now: Time) returns (actions: seq<Action>)
      modifies this
      ensures State() == Spec.Schedule(cfg, old(State()), order, now).0
      ensures actions == Spec.Schedule(cfg, old(State()), order, now).1
    {
      var selected := Select(order, now);
      granting := selected;
      actions := [];
      ghost var all := GrantFrom(cfg, State(), selected, 0, now);
      for i := 0 to |selected|
        invariant GrantFrom(cfg, State(), selected, i, now).0 == all.0
        invariant actions + GrantFrom(cfg, State(), selected, i, now).1 == all.1
      {
        var acts := IssueGrant(selected[i], now, false);
        ConcatAssoc(actions, acts, GrantFrom(cfg, State(), selected, i + 1, now).1);
        actions := actions + acts;
      }
    }

    /** Whoever has a deadline that has come, needs credit, is outside the granting set and due, is granted. */
    method StarveCheck(order: seq<Key>, now: Time) returns (actions: seq<Action>)
      modifies this
      ensures State() == Spec.StarveCheck(cfg, old(State()), order, now).0
      ensures actions == Spec.StarveCheck(cfg, old(State()), order, now).1
      ensures Sorted(old(starveQueue)) && Lists(order, old(incoming).Keys) ==>
        forall k, t :: (t, k) in old(starveQueue) && t <= now && Neglected(cfg, old(State()), k, now) && old(incoming)[k].NeedsCredit() ==>
          k in granting && k in incoming && Served(cfg, incoming[k])
    {
      if Sorted(starveQueue) && Lists(order, incoming.Keys) {
        forall k, t | (t, k) in starveQueue && t <= now && Neglected(cfg, State(), k, now) && incoming[k].NeedsCredit()
          ensures var s' := Spec.StarveCheck(cfg, State(), order, now).0; k in s'.granting && k in s'.incoming && Served(cfg, s'.incoming[k])
        {
          StarveCheckSaves(cfg, State(), order, now, k, t);
        }
      }
      hide Served, Sorted, Lists, Neglected;
      actions := [];
      ghost var all := Spec.StarveCheck(cfg, State(), order, now);
      while starveQueue != []
        invariant Spec.StarveCheck(cfg, State(), order, now) == all
        invariant actions == []
        decreases |starveQueue|
      {
        var (t, key) := starveQueue[0];
        if t > now { return; }
        starveQueue := starveQueue[1..];
        if key in incoming && key !in granting
           && incoming[key].grantedTo < incoming[key].totalLen
           && Since(now, incoming[key].lastGrant) >= cfg.starveThreshold {
          actions := Schedule(order, now);
          return;
        }
      }
    }

    /** The message leaves the table and the granting set, and is remembered as delivered; only the
        longest remembered one may be forgotten for it. */
    method DeliverKey(key: Key, data: seq<Byte>) returns (action: Action)
      modifies this
      ensures State() == DeliverTo(old(State()), key) && action == Deliver(key.peer, key.id, data)
      ensures key !in incoming && key !in granting
      ensures forall k :: k != key ==> (k in incoming <==> k in old(incoming)) && (k in incoming ==> incoming[k] == old(incoming)[k])
      ensures completedOrder != [] && completedOrder[|completedOrder| - 1] == key
      ensures |old(completedOrder)| <= COMPLETED_CACHE ==> |completedOrder| <= COMPLETED_CACHE
      ensures old(completed) - completed <= set k | k in old(completedOrder)[..Min(1, |old(completedOrder)|)]
      ensures key !in old(completedOrder) ==> key in completed
    {
      NotIn(granting, key);
      incoming := incoming - {key};
      granting := Without(granting, key);
      completed := completed + {key};
      completedOrder := completedOrder + [key];
      if |completedOrder| > COMPLETED_CACHE {
        var oldest := completedOrder[0];
        completedOrder := completedOrder[1..];
        completed := completed - {oldest};
      }
      action := Deliver(key.peer, key.id, data);
    }

    /** The tail of `handle_data`, for a packet that did not finish its message. */
    method ContinueKey(key: Key, isNew: bool, order: seq<Key>, now: Time) returns (actions: seq<Action>)
      modifies this
      ensures State() == Continue(cfg, old(State()), key, isNew, order, now).0
      ensures actions == Continue(cfg, old(State()), key, isNew, order, now).1
    {
      actions := [];
      if isNew {
        actions := Schedule(order, now);
      } else if key in granting {
        actions := IssueGrant(key, now, false);
      }
      var rest := StarveCheck(order, now);
      actions := actions + rest;
    }

    /** Take a packet's bytes in. The copy panics, with nothing changed yet, if they would run past the
        end of the buffer. */
    method AcceptKey(key: Key, d: Datagram, now: Time) returns (ok: bool)
      modifies this
      ensures ok <==> Fits(cfg, MsgFor(cfg, old(State()), key, d.pkt, now), d)
      ensures ok ==> State() == Accept(cfg, old(State()), key, d, now)
      ensures !ok ==> unchanged(this)
    {
      if key !in incoming {
        starveQueue := Push(starveQueue, (now + cfg.starveThreshold, key));
        incoming := incoming[key := NewMsg(cfg, d.pkt.msgLen, now)];
      }
      var msg := incoming[key];
      var offset, idx := d.pkt.offset, Quot(d.pkt.offset, cfg.packetSize);
      if d.pkt.msgLen != 0 && idx < |msg.received| && !msg.received[idx] && offset + |d.payload| <= d.pkt.msgLen {
        if offset + |d.payload| > |msg.buf| {
          return false;
        }
        incoming := incoming[key := msg.(
          buf := Overwrite(msg.buf, offset, d.payload),
          received := msg.received[idx := true],
          receivedBytes := msg.receivedBytes + |d.payload|,
          lastProgress := now,
          unansweredResends := 0)];
      }
      ok := true;
      assert incoming == Accept(cfg, old(State()), key, d, now).incoming;
    }

    /** Takes every packet; ok says that the copy into the buffer did not panic. */
    method HandleData(src: Addr, d: Datagram, order: seq<Key>, now: Time) returns (ok: bool, actions: seq<Action>)
      modifies this
      ensures ok <==> Admissible(cfg, old(State()), src, d, now)
      ensures ok ==> State() == Spec.HandleData(cfg, old(State()), src, d, order, now).0
      ensures ok ==> actions == Spec.HandleData(cfg, old(State()), src, d, order, now).1
      ensures !ok ==> unchanged(this) && actions == []
      ensures
        var key := Key(src, d.pkt.msgId);
        var late, long, full := key in old(completed), d.pkt.msgLen > MAX_MSG_LEN, key !in old(incoming) && |old(incoming)| >= cfg.maxIncoming;
        && (late || long || full ==>
              && unchanged(this)
              && actions == if late || long then [] else [Send(src, Datagram(Packet(Busy, 0, d.pkt.msgId, 0, 0, 0), []))])
        && (ok && !(late || long || full) ==>
              key in incoming || (actions != [] && actions[0].Deliver? && Key(actions[0].src, actions[0].msgId) == key))
    {
      ok, actions := true, [];
      var key := Key(src, d.pkt.msgId);
      if key in completed || d.pkt.msgLen > MAX_MSG_LEN { return; }
      var isNew := key !in incoming;
      if isNew && |incoming| >= cfg.maxIncoming {
        actions := [Send(src, Datagram(Packet(Busy, 0, d.pkt.msgId, 0, 0, 0), []))];
        return;
      }
      ok := AcceptKey(key, d, now);
      if !ok { return; }
      if d.pkt.msgLen == 0 || incoming[key].Complete() {
        var action := DeliverKey(key, if d.pkt.msgLen == 0 then [] else incoming[key].buf);
        var rest := Schedule(order, now);
        actions := [action] + rest;
      } else {
        HomaCredit.ContinueEvolves(cfg, State(), key, isNew, order, now);
        actions := ContinueKey(key, isNew, order, now);
      }
    }

    /** One message's share of `tick`: no bytes change and no credit goes down, one packet at most is
        sent, and the message is dropped only after as many unanswered requests as are allowed. */
    method TickOne(key: Key, now: Time) returns (actions: seq<Action>)
      modifies this
      ensures State() == TickKey(cfg, old(State()), key, now).0
      ensures actions == TickKey(cfg, old(State()), key, now).1
      ensures forall k :: k != key ==> (k in incoming <==> k in old(incoming)) && (k in incoming ==> incoming[k] == old(incoming)[k])
      ensures completed == old(completed) && completedOrder == old(completedOrder)
      ensures |actions| <= 1
      ensures key in incoming ==>
        && key in old(incoming)
        && var m, m' := old(incoming)[key], incoming[key];
           && m'.buf == m.buf && m'.received == m.received && m'.receivedBytes == m.receivedBytes && m'.totalLen == m.totalLen
           && m.grantedTo <= m'.grantedTo
      ensures key in old(incoming) && key !in incoming ==>
        old(incoming)[key].unansweredResends >= MAX_UNANSWERED_RESENDS && key !in granting
    {
      NotIn(granting, key);
      actions := [];
      if key !in incoming { return; }
      var msg := incoming[key];
      if Since(now, msg.lastProgress) < cfg.resendTimeout { return; }
      var missing := FirstMissing(msg.received, 0);
      if missing.Some? && ChunkStart(cfg.packetSize, missing.value) < msg.grantedTo {
        var off := ChunkStart(cfg.packetSize, missing.value);
        actions := [ResendOf(cfg, key, msg, off)];
        if msg.unansweredResends + 1 > MAX_UNANSWERED_RESENDS {
          incoming := incoming - {key};
          granting := Without(granting, key);
        } else {
          incoming := incoming[key := msg.(lastProgress := now, unansweredResends := msg.unansweredResends + 1)];
        }
      } else if Since(now, msg.lastProgress) >= cfg.grantTimeout {
        incoming := incoming[key := msg.(lastProgress := now)];
        if key in granting {
          actions := IssueGrant(key, now, true);
        }
      }
    }

    method Tick(order: seq<Key>, now: Time) returns (actions: seq<Action>)
      requires Lists(order, incoming.Keys)
      modifies this
      ensures State() == Spec.Tick(cfg, old(State()), order, now).0
      ensures actions == Spec.Tick(cfg, old(State()), order, now).1
    {
      actions := [];
      ghost var all := TickFrom(cfg, State(), order, 0, now);
      for i := 0 to |order|
        invariant TickFrom(cfg, State(), order, i, now).0 == all.0
        invariant actions + TickFrom(cfg, State(), order, i, now).1 == all.1
      {
        var acts := TickOne(order[i], now);
        ConcatAssoc(actions, acts, TickFrom(cfg, State(), order, i + 1, now).1);
        actions := actions + acts;
      }
      var rest := Schedule(order, now);
      actions := actions + rest;
    }
  }
}
