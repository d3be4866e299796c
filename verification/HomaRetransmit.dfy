/** How often a finished message's first packet is sent again before it is confirmed, and that a
    message that is gone stays gone. */
module HomaRetransmit {
  import opened Bytes
  import opened Chunks
  import opened HomaPacket
  import opened HomaTypes
  import opened HomaSender

  datatype Input =
    | Begin(key: Key, data: seq<Byte>, retransmit: bool)
    | Granted(src: Addr, pkt: Packet)
    | Asked(src: Addr, pkt: Packet)
    | Busied(src: Addr, pkt: Packet)
    | Ticked(order: seq<Key>)
    | Confirmed(key: Key)
    | Finished(key: Key)

  function Step(cfg: Config, out: Outgoing, i: Input, now: Time): (Outgoing, seq<Action>) {
    match i
    case Begin(key, data, retransmit) => Start(cfg, out, key, data, now, retransmit)
    case Granted(src, pkt) => HandleGrant(cfg, out, src, pkt, now)
    case Asked(src, pkt) => HandleResend(cfg, out, src, pkt, now)
    case Busied(src, pkt) => (HandleBusy(out, src, pkt, now), [])
    case Ticked(order) => Tick(cfg, out, order, now)
    case Confirmed(key) => (Confirm(out, key), [])
    case Finished(key) => (Finish(out, key), [])
  }

  // ----- a message that is gone -----

  /** a is a datagram of the message that key names. */
  predicate About(a: Action, key: Key) {
    a.Send? && a.dest == key.peer && a.dgram.pkt.msgId == key.id
  }

  lemma {:induction false} PumpSendsAbout(key: Key, data: seq<Byte>, next: nat, limit: nat, ps: nat)
    requires ps > 0 && limit <= |data|
    ensures forall a :: a in PumpSends(key, data, next, limit, ps) ==> About(a, key)
    decreases limit - next
  {
    if next < limit { PumpSendsAbout(key, data, Min(next + ps, |data|), limit, ps); }
  }

  lemma {:induction false} ResendSendsAbout(key: Key, data: seq<Byte>, off: nat, end: nat, ps: nat)
    requires ps > 0 && end <= |data|
    ensures forall a :: a in ResendSends(key, data, off, end, ps) ==> About(a, key)
    decreases end - off
  {
    if off < end { ResendSendsAbout(key, data, ChunkRange(data, off, ps).1, end, ps); }
  }

  lemma {:induction false} TickFromAbout(cfg: Config, out: Outgoing, order: seq<Key>, i: nat, now: Time, k: Key)
    requires k !in out
    ensures k !in TickFrom(cfg, out, order, i, now).0
    ensures forall a :: a in TickFrom(cfg, out, order, i, now).1 ==> !About(a, k)
    decreases |order| - i
  {
    if i < |order| {
      if order[i] in out {
        var m := out[order[i]];
        TickFromAbout(cfg, out[order[i] := TickMsg(cfg, m, now)], order, i + 1, now, k);
        assert forall a :: a in TickMsgSends(cfg, order[i], m, now) ==> About(a, order[i]);
      } else {
        TickFromAbout(cfg, out, order, i + 1, now, k);
      }
    }
  }

  /** Once a message is confirmed done, finished or reclaimed, nothing is sent for it again. */
  lemma GoneStaysGone(cfg: Config, out: Outgoing, i: Input, now: Time, k: Key)
    requires k !in out && !(i.Begin? && i.key == k)
    ensures var (out', acts) := Step(cfg, out, i, now); k !in out' && forall a :: a in acts ==> !About(a, k)
  {
    match i
    case Begin(key, data, _) =>
      PumpSendsAbout(key, data, 0, Min(Min(cfg.unscheduledBytes, |data|), |data|), cfg.packetSize);
    case Granted(src, pkt) =>
      var key := Key(src, pkt.msgId);
      if key in out {
        var m := out[key];
        PumpSendsAbout(key, m.data, m.nextSend, Min(Min(pkt.offset, |m.data|), |m.data|), cfg.packetSize);
      }
    case Asked(src, pkt) =>
      var key := Key(src, pkt.msgId);
      if key in out {
        var m := out[key];
        ResendSendsAbout(key, m.data, Min(pkt.offset, |m.data|), ResendEnd(|m.data|, pkt), cfg.packetSize);
      }
    case Ticked(order) => TickFromAbout(cfg, Lingering(cfg, out, now), order, 0, now, k);
    case Busied(_, _) =>
    case Confirmed(_) =>
    case Finished(_) =>
  }

  // ----- how often -----

  /** How many of the actions are datagrams of the message that k names. */
  function Copies(acts: seq<Action>, k: Key): nat {
    if acts == [] then 0 else (if About(acts[0], k) then 1 else 0) + Copies(acts[1..], k)
  }

  lemma {:induction false} CopiesConcat(a: seq<Action>, b: seq<Action>, k: Key)
    ensures Copies(a + b, k) == Copies(a, k) + Copies(b, k)
  {
    if a == [] {
      assert a + b == b;
    } else {
      CopiesConcat(a[1..], b, k);
      assert (a + b)[1..] == a[1..] + b;
    }
  }

  /** A tick visits each message once: what it does to message k. */
  lemma {:induction false} TickFromAt(cfg: Config, out: Outgoing, order: seq<Key>, i: nat, now: Time, k: Key)
    requires i <= |order| && Lists(order, {}) && k in out
    ensures var (out', acts) := TickFrom(cfg, out, order, i, now);
      && out'[k] == (if k in order[i..] then TickMsg(cfg, out[k], now) else out[k])
      && Copies(acts, k) == (if k in order[i..] then |TickMsgSends(cfg, k, out[k], now)| else 0)
      && (k in order[i..] ==> forall a :: a in TickMsgSends(cfg, k, out[k], now) ==> a in acts)
    decreases |order| - i
  {
    if i < |order| {
      assert order[i..] == [order[i]] + order[i + 1..];
      if order[i] in out {
        var m := out[order[i]];
        var out' := out[order[i] := TickMsg(cfg, m, now)];
        var acts := TickMsgSends(cfg, order[i], m, now);
        TickFromAt(cfg, out', order, i + 1, now, k);
        CopiesConcat(acts, TickFrom(cfg, out', order, i + 1, now).1, k);
        assert Copies(acts, k) == if k == order[i] && acts != [] then 1 else 0;
        assert k !in order[i + 1..] || k != order[i];
      } else {
        TickFromAt(cfg, out, order, i + 1, now, k);
      }
    }
  }

  /** How many packets ticks have sent for message k since it was done, after one more input;
      beginning the message starts the count anew. */
  function Count(cfg: Config, out: Outgoing, i: Input, now: Time, k: Key, resent: nat): nat {
    if i.Begin? && i.key == k then 0
    else if i.Ticked? && k in out && out[k].doneAt.Some? then resent + Copies(Step(cfg, out, i, now).1, k)
    else resent
  }

  /** A done message's last activity is at least as many timeouts after it was done as packets were
      sent for it since, and every packet so far went out before the linger ran out. */
  ghost predicate InTime(cfg: Config, out: Outgoing, k: Key, resent: nat, clock: Time) {
    && (resent > 0 ==> resent * cfg.retransmitTimeout < cfg.linger)
    && (k in out ==>
          && out[k].lastProgress <= clock
          && (out[k].doneAt.None? ==> resent == 0)
          && (out[k].doneAt.Some? ==> out[k].doneAt.value + resent * cfg.retransmitTimeout <= out[k].lastProgress))
  }

  lemma TickInTime(cfg: Config, out: Outgoing, order: seq<Key>, k: Key, resent: nat, clock: Time, now: Time)
    requires InTime(cfg, out, k, resent, clock) && clock <= now && Lists(order, out.Keys) && k in out
    ensures InTime(cfg, Step(cfg, out, Ticked(order), now).0, k, Count(cfg, out, Ticked(order), now, k, resent), now)
  {
    hide TickFrom, Copies, About, Lists;
    var kept := Lingering(cfg, out, now);
    assert order[0..] == order;
    assert Lists(order, kept.Keys) && Lists(order, {}) by { FewerListed(order, out.Keys, kept.Keys); }
    if k in kept {
      TickFromAt(cfg, kept, order, 0, now, k);
      assert k in order by { ListedIn(order, out.Keys, k); }
      assert (resent + 1) * cfg.retransmitTimeout == resent * cfg.retransmitTimeout + cfg.retransmitTimeout;
    } else {
      TickFromAbout(cfg, kept, order, 0, now, k);
      NoCopies(TickFrom(cfg, kept, order, 0, now).1, k);
    }
  }

  lemma FewerListed(order: seq<Key>, keys: set<Key>, fewer: set<Key>)
    requires Lists(order, keys) && fewer <= keys
    ensures Lists(order, fewer) && Lists(order, {})
  {
  }

  lemma ListedIn(order: seq<Key>, keys: set<Key>, k: Key)
    requires Lists(order, keys) && k in keys
    ensures k in order
  {
  }

  lemma {:induction false} NoCopies(acts: seq<Action>, k: Key)
    requires forall a :: a in acts ==> !About(a, k)
    ensures Copies(acts, k) == 0
  {
    if acts != [] { NoCopies(acts[1..], k); }
  }

  lemma StepInTime(cfg: Config, out: Outgoing, i: Input, k: Key, resent: nat, clock: Time, now: Time)
    requires InTime(cfg, out, k, resent, clock) && clock <= now
    requires i.Ticked? ==> Lists(i.order, out.Keys)
    ensures InTime(cfg, Step(cfg, out, i, now).0, k, Count(cfg, out, i, now, k, resent), now)
  {
    if k !in out && !(i.Begin? && i.key == k) {
      GoneStaysGone(cfg, out, i, now, k);
    } else if i.Ticked? {
      TickInTime(cfg, out, i.order, k, resent, clock, now);
    } else if k in Step(cfg, out, i, now).0 {
      TouchedInTime(cfg, out, i, k, now);
      hide Step, Tick;
    }
  }

  /** What inputs other than ticks do to a message. */
  lemma TouchedInTime(cfg: Config, out: Outgoing, i: Input, k: Key, now: Time)
    requires !i.Ticked? && k in Step(cfg, out, i, now).0
    ensures var m' := Step(cfg, out, i, now).0[k];
      if i.Begin? && i.key == k then m'.lastProgress == now && (m'.doneAt.Some? ==> m'.doneAt.value == now)
      else
        && k in out
        && (m'.lastProgress == out[k].lastProgress || m'.lastProgress == now)
        && (m'.doneAt == out[k].doneAt
            || (out[k].doneAt.None? && m'.doneAt == Some(now) && m'.lastProgress == now))
  {
    hide PumpSends, ResendSends, PumpEnd, Tick;
  }

  /** A sender's life from its start: the states, the clock at each step, and k's count. */
  ghost predicate IsLife(cfg: Config, outs: seq<Outgoing>, inputs: seq<Input>, times: seq<Time>, k: Key, counts: seq<nat>) {
    && |outs| == |counts| == |inputs| + 1 && |times| == |inputs|
    && outs[0] == map[] && counts[0] == 0
    && (forall i, j :: 0 <= i < j < |times| ==> times[i] <= times[j])
    && forall i :: 0 <= i < |inputs| ==>
         && (inputs[i].Ticked? ==> Lists(inputs[i].order, outs[i].Keys))
         && outs[i + 1] == Step(cfg, outs[i], inputs[i], times[i]).0
         && counts[i + 1] == Count(cfg, outs[i], inputs[i], times[i], k, counts[i])
  }

  lemma {:induction false} LifeInTime(cfg: Config, outs: seq<Outgoing>, inputs: seq<Input>, times: seq<Time>,
                                      k: Key, counts: seq<nat>, n: nat)
    requires IsLife(cfg, outs, inputs, times, k, counts) && n < |outs|
    ensures InTime(cfg, outs[n], k, counts[n], if n == 0 then 0 else times[n - 1])
  {
    if n == 0 {
      StartInTime(cfg, k);
    } else {
      hide Step, Count, InTime, Lists;
      LifeInTime(cfg, outs, inputs, times, k, counts, n - 1);
      StepInTime(cfg, outs[n - 1], inputs[n - 1], k, counts[n - 1], if n == 1 then 0 else times[n - 2], times[n - 1]);
      assert outs[n - 1 + 1] == Step(cfg, outs[n - 1], inputs[n - 1], times[n - 1]).0;
      assert counts[n - 1 + 1] == Count(cfg, outs[n - 1], inputs[n - 1], times[n - 1], k, counts[n - 1]);
    }
  }

  lemma StartInTime(cfg: Config, k: Key)
    ensures InTime(cfg, map[], k, 0, 0)
  {
  }

  /** Bounded retransmission: with a clock that does not run backwards, the n-th packet that ticks
      send for a done message goes out with n timeouts fitting inside the linger. */
  lemma BoundedRetransmission(cfg: Config, outs: seq<Outgoing>, inputs: seq<Input>, times: seq<Time>,
                              k: Key, counts: seq<nat>, n: nat)
    requires IsLife(cfg, outs, inputs, times, k, counts) && n < |outs| && counts[n] > 0
    ensures counts[n] * cfg.retransmitTimeout < cfg.linger
  {
    LifeInTime(cfg, outs, inputs, times, k, counts, n);
  }

  /** For good: after a message is gone, and unless it is begun anew, no later step sends for it. */
  lemma {:induction false} GoneForGood(cfg: Config, outs: seq<Outgoing>, inputs: seq<Input>, times: seq<Time>,
                                       k: Key, counts: seq<nat>, i: nat, n: nat)
    requires IsLife(cfg, outs, inputs, times, k, counts) && i <= n < |inputs|
    requires k !in outs[i] && forall j :: i <= j < |inputs| ==> !(inputs[j].Begin? && inputs[j].key == k)
    ensures k !in outs[n]
    ensures forall a :: a in Step(cfg, outs[n], inputs[n], times[n]).1 ==> !About(a, k)
  {
    hide Step, Count, Lists;
    if i < n {
      GoneForGood(cfg, outs, inputs, times, k, counts, i, n - 1);
      GoneStaysGone(cfg, outs[n - 1], inputs[n - 1], times[n - 1], k);
      assert outs[n - 1 + 1] == Step(cfg, outs[n - 1], inputs[n - 1], times[n - 1]).0;
    }
    GoneStaysGone(cfg, outs[n], inputs[n], times[n], k);
  }

  /** The message that k names goes with this input: it is finished, or it is done and either confirmed
      or its linger has run out. */
  predicate Goes(cfg: Config, m: OutMsg, i: Input, now: Time, k: Key) {
    || i == Finished(k)
    || (m.doneAt.Some? && (i == Confirmed(k) || (i.Ticked? && Since(now, m.doneAt.value) >= cfg.linger)))
  }

  /** From the step that confirms, finishes or reclaims a message, nothing is sent for it any more. */
  lemma SilentOnceGone(cfg: Config, outs: seq<Outgoing>, inputs: seq<Input>, times: seq<Time>,
                       k: Key, counts: seq<nat>, i: nat, n: nat)
    requires IsLife(cfg, outs, inputs, times, k, counts) && i <= n < |inputs|
    requires k in outs[i] && Goes(cfg, outs[i][k], inputs[i], times[i], k)
    requires forall j :: i <= j < |inputs| ==> !(inputs[j].Begin? && inputs[j].key == k)
    ensures forall a :: a in Step(cfg, outs[n], inputs[n], times[n]).1 ==> !About(a, k)
  {
    if inputs[i].Ticked? {
      TickFromAbout(cfg, Lingering(cfg, outs[i], times[i]), inputs[i].order, 0, times[i], k);
    }
    assert outs[i + 1] == Step(cfg, outs[i], inputs[i], times[i]).0;
    if i < n {
      hide Step;
      GoneForGood(cfg, outs, inputs, times, k, counts, i + 1, n);
    }
  }

  // ----- that it happens -----

  /** The packet a tick sends for a message: the first one if the message is done, else the chunk that holds the
      last octet sent. */
  function TickPacket(cfg: Config, k: Key, m: OutMsg): Action {
    var c := if m.doneAt.Some? || m.nextSend == 0 then 0 else FloorTo(m.nextSend - 1, cfg.packetSize);
    Send(k.peer, DataDatagram(m.data, k.id, c, Min(c + cfg.packetSize, |m.data|)))
  }

  /** A done message that is not confirmed has been idle for the retransmission timeout, or one that is not done
      for the poke timeout. */
  predicate Stalled(cfg: Config, m: OutMsg, now: Time) {
    if m.doneAt.Some? then m.retransmit && m.lastProgress + cfg.retransmitTimeout <= Max(now, m.lastProgress)
    else m.lastProgress + cfg.pokeTimeout <= Max(now, m.lastProgress)
  }

  /** Exactly what a tick does for each message: it goes if its linger has run out; otherwise one packet is sent
      for it if it is stalled, and none if it is not. */
  lemma TickExactly(cfg: Config, out: Outgoing, order: seq<Key>, now: Time, k: Key)
    requires Lists(order, out.Keys) && k in out
    ensures var m, (out', acts) := out[k], Tick(cfg, out, order, now);
      var goes := m.doneAt.Some? && m.doneAt.value + cfg.linger <= Max(now, m.doneAt.value);
      && (k in out' <==> !goes)
      && Copies(acts, k) == (if !goes && Stalled(cfg, m, now) then 1 else 0)
      && (!goes && Stalled(cfg, m, now) ==> TickPacket(cfg, k, m) in acts && out'[k] == m.(lastProgress := now))
      && (!goes && !Stalled(cfg, m, now) ==> out'[k] == m)
  {
    hide TickFrom, Copies, About, Lists;
    var kept := Lingering(cfg, out, now);
    assert order[0..] == order;
    assert Lists(order, kept.Keys) && Lists(order, {}) by { FewerListed(order, out.Keys, kept.Keys); }
    if k in kept {
      TickFromAt(cfg, kept, order, 0, now, k);
      assert k in order by { ListedIn(order, out.Keys, k); }
      TickSendsPacket(cfg, k, out[k], now);
    } else {
      TickFromAbout(cfg, kept, order, 0, now, k);
      NoCopies(TickFrom(cfg, kept, order, 0, now).1, k);
    }
  }

  lemma TickSendsPacket(cfg: Config, k: Key, m: OutMsg, now: Time)
    ensures TickMsgSends(cfg, k, m, now) == if Stalled(cfg, m, now) then [TickPacket(cfg, k, m)] else []
    ensures TickMsg(cfg, m, now) == if Stalled(cfg, m, now) then m.(lastProgress := now) else m
  {
    hide DataDatagram;
    if m.nextSend > 0 {
      var c := FloorTo(m.nextSend - 1, cfg.packetSize);
      FloorIs(c, m.nextSend - 1, cfg.packetSize);
    }
  }

  /** Nothing but ticks concerns the message: it is not started, finished or confirmed, and its receiver neither
      asks for anything nor is busy. */
  predicate Quiet(i: Input, k: Key) {
    match i
    case Begin(key, _, _) => key != k
    case Asked(src, pkt) => Key(src, pkt.msgId) != k
    case Busied(src, pkt) => Key(src, pkt.msgId) != k
    case Confirmed(key) => key != k
    case Finished(key) => key != k
    case _ => true
  }

  /** When the last tick was among the steps from a up to n, or when step a - 1 was if there was none. */
  function LastTick(inputs: seq<Input>, times: seq<Time>, a: nat, n: nat): Time
    requires 0 < a <= n <= |inputs| == |times|
  {
    if n == a then times[a - 1]
    else if inputs[n - 1].Ticked? then times[n - 1]
    else LastTick(inputs, times, a, n - 1)
  }

  /** From step a to step n nothing but ticks concerns message k, they come at most gap apart, and its linger,
      from step a - 1 on, does not run out. */
  ghost predicate Unanswered(cfg: Config, inputs: seq<Input>, times: seq<Time>, k: Key, a: nat, n: nat, gap: Time) {
    && 0 < a <= n <= |inputs| == |times|
    && forall j: nat :: a <= j < n ==>
         && Quiet(inputs[j], k)
         && times[j] < times[a - 1] + cfg.linger
         && times[j] <= LastTick(inputs, times, a, j) + gap
  }

  /** A quiet input other than a tick leaves a done message alone. */
  lemma QuietKeeps(cfg: Config, out: Outgoing, i: Input, now: Time, k: Key)
    requires k in out && out[k].doneAt.Some? && Quiet(i, k) && !i.Ticked?
    ensures k in Step(cfg, out, i, now).0 && Step(cfg, out, i, now).0[k] == out[k]
  {
    hide PumpSends, PumpEnd, ResendSends, Tick;
  }

  /** The message was done at t0, is still unconfirmed, and its last activity is no more than resent periods later;
      the last tick came within a timeout of that activity. */
  ghost predicate KeptUp(cfg: Config, out: Outgoing, k: Key, t0: Time, resent: nat, tick: Time, gap: Time) {
    && k in out && out[k].doneAt == Some(t0) && out[k].retransmit
    && t0 <= out[k].lastProgress <= t0 + resent * (cfg.retransmitTimeout + gap)
    && tick <= out[k].lastProgress + cfg.retransmitTimeout
  }

  lemma TickKeepsUp(cfg: Config, out: Outgoing, order: seq<Key>, now: Time, k: Key, t0: Time, resent: nat, tick: Time, gap: Time)
    requires KeptUp(cfg, out, k, t0, resent, tick, gap) && Lists(order, out.Keys) && t0 <= now < t0 + cfg.linger && now <= tick + gap
    requires out[k].lastProgress <= now
    ensures KeptUp(cfg, Tick(cfg, out, order, now).0, k, t0, Count(cfg, out, Ticked(order), now, k, resent), now, gap)
  {
    TickExactly(cfg, out, order, now, k);
    hide Tick, Copies, TickPacket, Lists;
    assert (resent + 1) * (cfg.retransmitTimeout + gap) == resent * (cfg.retransmitTimeout + gap) + (cfg.retransmitTimeout + gap);
  }

  lemma {:induction false} LifeKeepsUp(cfg: Config, outs: seq<Outgoing>, inputs: seq<Input>, times: seq<Time>,
                                       k: Key, counts: seq<nat>, a: nat, n: nat, gap: Time)
    requires IsLife(cfg, outs, inputs, times, k, counts) && Unanswered(cfg, inputs, times, k, a, n, gap)
    requires |outs| == |counts| == |inputs| + 1
    requires KeptUp(cfg, outs[a], k, times[a - 1], counts[a], times[a - 1], gap)
    ensures KeptUp(cfg, outs[n], k, times[a - 1], counts[n], LastTick(inputs, times, a, n), gap)
  {
    hide Step, Lists, Quiet, KeptUp, Count, InTime, IsLife, Unanswered;
    LastTickNear(cfg, inputs, times, k, a, n, gap);
    if a < n {
      UnansweredBefore(cfg, inputs, times, k, a, n, gap);
      LifeKeepsUp(cfg, outs, inputs, times, k, counts, a, n - 1, gap);
      LifeStep(cfg, outs, inputs, times, k, counts, a, n - 1);
      StepKeepsUp(cfg, outs[n - 1], inputs[n - 1], times[n - 1], k, times[a - 1], counts[n - 1],
                  LastTick(inputs, times, a, n - 1), gap, times[n - 2]);
    }
  }

  lemma LifeStep(cfg: Config, outs: seq<Outgoing>, inputs: seq<Input>, times: seq<Time>, k: Key, counts: seq<nat>, a: nat, j: nat)
    requires IsLife(cfg, outs, inputs, times, k, counts) && 0 < a <= j < |inputs|
    ensures |times| == |inputs| && |outs| == |counts| == |inputs| + 1
    ensures times[a - 1] <= times[j - 1] <= times[j] && InTime(cfg, outs[j], k, counts[j], times[j - 1])
    ensures inputs[j].Ticked? ==> Lists(inputs[j].order, outs[j].Keys)
    ensures outs[j + 1] == Step(cfg, outs[j], inputs[j], times[j]).0
    ensures counts[j + 1] == Count(cfg, outs[j], inputs[j], times[j], k, counts[j])
  {
    hide Step, Lists, Count, InTime;
    LifeInTime(cfg, outs, inputs, times, k, counts, j);
  }

  lemma StepKeepsUp(cfg: Config, out: Outgoing, i: Input, now: Time, k: Key, t0: Time, resent: nat, tick: Time, gap: Time, clock: Time)
    requires KeptUp(cfg, out, k, t0, resent, tick, gap) && Quiet(i, k) && (i.Ticked? ==> Lists(i.order, out.Keys))
    requires t0 <= clock <= now < t0 + cfg.linger && now <= tick + gap && InTime(cfg, out, k, resent, clock)
    ensures KeptUp(cfg, Step(cfg, out, i, now).0, k, t0, Count(cfg, out, i, now, k, resent), if i.Ticked? then now else tick, gap)
  {
    if i.Ticked? {
      TickKeepsUp(cfg, out, i.order, now, k, t0, resent, tick, gap);
    } else {
      QuietKeeps(cfg, out, i, now, k);
      hide Step, Tick;
    }
  }

  /** A message that is done and not confirmed is sent again and again until it lingers out: if ticks come at most
      gap apart, and its receiver says nothing, then t after it was done at least t / (timeout + gap) - 1 packets
      have been sent for it. */
  lemma RetransmissionGoesOn(cfg: Config, outs: seq<Outgoing>, inputs: seq<Input>, times: seq<Time>,
                             k: Key, counts: seq<nat>, a: nat, n: nat, gap: Time)
    requires IsLife(cfg, outs, inputs, times, k, counts) && Unanswered(cfg, inputs, times, k, a, n, gap)
    requires k in outs[a] && outs[a][k].doneAt == Some(times[a - 1]) && outs[a][k].retransmit && outs[a][k].lastProgress == times[a - 1]
    ensures times[n - 1] - times[a - 1] <= (counts[n] + 1) * (cfg.retransmitTimeout + gap)
  {
    hide Step, Count, Lists, IsLife, Unanswered, LastTick, InTime;
    LifeLengths(cfg, outs, inputs, times, k, counts);
    LastTickNear(cfg, inputs, times, k, a, n, gap);
    DoneNow(cfg, outs[a], k, times[a - 1], counts[a], gap);
    LifeKeepsUp(cfg, outs, inputs, times, k, counts, a, n, gap);
    KeptUpBound(cfg, outs[n], k, times[a - 1], counts[n], LastTick(inputs, times, a, n), gap, times[n - 1]);
  }

  lemma LifeLengths(cfg: Config, outs: seq<Outgoing>, inputs: seq<Input>, times: seq<Time>, k: Key, counts: seq<nat>)
    requires IsLife(cfg, outs, inputs, times, k, counts)
    ensures |outs| == |counts| == |inputs| + 1 && |times| == |inputs|
  {
  }

  lemma DoneNow(cfg: Config, out: Outgoing, k: Key, t0: Time, resent: nat, gap: Time)
    requires k in out && out[k].doneAt == Some(t0) && out[k].retransmit && out[k].lastProgress == t0
    ensures KeptUp(cfg, out, k, t0, resent, t0, gap)
  {
    assert 0 <= resent * (cfg.retransmitTimeout + gap);
  }

  lemma KeptUpBound(cfg: Config, out: Outgoing, k: Key, t0: Time, resent: nat, tick: Time, gap: Time, clock: Time)
    requires KeptUp(cfg, out, k, t0, resent, tick, gap) && clock <= tick + gap
    ensures clock - t0 <= (resent + 1) * (cfg.retransmitTimeout + gap)
  {
    var p := cfg.retransmitTimeout + gap;
    assert (resent + 1) * p == resent * p + p;
  }

  lemma LastTickNear(cfg: Config, inputs: seq<Input>, times: seq<Time>, k: Key, a: nat, n: nat, gap: Time)
    requires Unanswered(cfg, inputs, times, k, a, n, gap)
    ensures 0 < a <= n <= |inputs| == |times| && times[n - 1] <= LastTick(inputs, times, a, n) + gap
  {
  }

  lemma UnansweredBefore(cfg: Config, inputs: seq<Input>, times: seq<Time>, k: Key, a: nat, n: nat, gap: Time)
    requires Unanswered(cfg, inputs, times, k, a, n, gap) && a < n
    ensures Unanswered(cfg, inputs, times, k, a, n - 1, gap) && Quiet(inputs[n - 1], k)
    ensures times[n - 1] < times[a - 1] + cfg.linger && times[n - 1] <= LastTick(inputs, times, a, n - 1) + gap
  {
    hide Quiet, LastTick;
  }

  // ----- where it starts -----

  /** A message just started: its data and flag as given, the clock at now, the unscheduled window as credit and sent,
      and done exactly if that was all of it. */
  lemma Begun(cfg: Config, out: Outgoing, key: Key, data: seq<Byte>, retransmit: bool, now: Time)
    ensures var out' := Step(cfg, out, Begin(key, data, retransmit), now).0;
      && key in out'
      && var m := out'[key];
         && m.data == data && m.retransmit == retransmit && m.lastProgress == now
         && m.grantedTo == Min(cfg.unscheduledBytes, |data|) <= m.nextSend
         && m.doneAt == (if m.nextSend == |data| then Some(now) else None)
  {
    hide PumpSends;
  }

  /** The receiver's word counts as progress: a grant beyond the credit, a request and a busy answer each put off the
      message's next poke or retransmission by a whole timeout, and no such word changes its data or flag. */
  lemma WordIsProgress(cfg: Config, out: Outgoing, i: Input, now: Time, k: Key)
    requires k in out && (i.Granted? || i.Asked? || i.Busied?) && Key(i.src, i.pkt.msgId) == k
    requires i.Granted? ==> out[k].doneAt.None? && Min(i.pkt.offset, |out[k].data|) > out[k].grantedTo
    ensures var out' := Step(cfg, out, i, now).0;
      k in out' && out'[k].lastProgress == now && out'[k].data == out[k].data && out'[k].retransmit == out[k].retransmit
  {
    hide PumpSends, ResendSends, PumpEnd;
  }

  /** Nothing else does: a grant within the credit, and anything about other messages, leaves the record alone. */
  lemma OtherWordsDoNot(cfg: Config, out: Outgoing, i: Input, now: Time, k: Key)
    requires k in out && !i.Ticked?
    requires match i
      case Begin(key, _, _) => key != k
      case Granted(src, pkt) => Key(src, pkt.msgId) != k || Min(pkt.offset, |out[k].data|) <= out[k].grantedTo
      case Asked(src, pkt) => Key(src, pkt.msgId) != k
      case Busied(src, pkt) => Key(src, pkt.msgId) != k
      case Confirmed(key) => key != k
      case Finished(key) => key != k
      case Ticked(_) => true
    ensures var out' := Step(cfg, out, i, now).0; k in out' && out'[k] == out[k]
  {
    hide PumpSends, ResendSends, PumpEnd, Tick;
  }
}
