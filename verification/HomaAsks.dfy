/** What a receiver's tick does for each message: exactly when it asks, for what, and when it gives up. */
module HomaAsks {
  import opened Bytes
  import opened Chunks
  import opened HomaPacket
  import opened HomaTypes
  import opened HomaReceiver
  import opened HomaCredit

  /** a is a packet about message k. */
  predicate Concerns(a: Action, k: Key) {
    a.Send? && KeyOf(a) == k
  }

  /** a asks for octets of message k. */
  predicate AsksFor(a: Action, k: Key) {
    Concerns(a, k) && a.dgram.pkt.typ == PacketType.Resend
  }

  /** g is the first chunk that has not arrived, and it starts below the credit. */
  ghost predicate OpenGap(cfg: Config, m: InMsg, g: nat) {
    && g < |m.received| && !m.received[g]
    && (forall i: nat :: i < g ==> m.received[i])
    && ChunkStart(cfg.packetSize, g) < m.grantedTo
  }

  /** Nothing has arrived for the time given. */
  predicate IdleFor(m: InMsg, now: Time, t: Time) {
    m.lastProgress + t <= Max(now, m.lastProgress)
  }

  /** The request for the octets from chunk g to the end of the credit, an increment at most. */
  function Request(cfg: Config, k: Key, m: InMsg, g: nat): Action
    requires ChunkStart(cfg.packetSize, g) < m.grantedTo
  {
    var off := ChunkStart(cfg.packetSize, g);
    Send(k.peer, Datagram(
      Packet(PacketType.Resend, PriorityForLen(m.totalLen), k.id, 0, AsU32(off), AsU32(Min(m.grantedTo - off, cfg.grantIncrement))), []))
  }

  /** What one message's share of a tick comes to: what is sent, and what becomes of the record. */
  datatype Share = Share(sends: seq<Action>, record: Option<InMsg>)

  function ShareOf(cfg: Config, k: Key, m: InMsg, granting: bool, now: Time): Share {
    var gap := FirstMissing(m.received, 0);
    if Since(now, m.lastProgress) < cfg.resendTimeout then Share([], Some(m))
    else if gap.Some? && ChunkStart(cfg.packetSize, gap.value) < m.grantedTo then
      Share([Request(cfg, k, m, gap.value)],
            if m.unansweredResends >= MAX_UNANSWERED_RESENDS then None
            else Some(m.(lastProgress := now, unansweredResends := m.unansweredResends + 1)))
    else if Since(now, m.lastProgress) < cfg.grantTimeout then Share([], Some(m))
    else if granting then
      Share([GrantOf(cfg, k, m)], Some(m.(lastProgress := now, grantedTo := Target(cfg, m), lastGrant := now)))
    else Share([], Some(m.(lastProgress := now)))
  }

  /** s' holds record for k. */
  ghost predicate Has(s': ReceiverState, k: Key, record: Option<InMsg>) {
    if record.Some? then k in s'.incoming && s'.incoming[k] == record.value else k !in s'.incoming
  }

  lemma TickKeyIs(cfg: Config, s: ReceiverState, k: Key, now: Time)
    requires k in s.incoming
    ensures var share := ShareOf(cfg, k, s.incoming[k], k in s.granting, now);
      TickKey(cfg, s, k, now).1 == share.sends && Has(TickKey(cfg, s, k, now).0, k, share.record)
  {
    hide FirstMissing, Push, Without, ChunkStart;
  }

  lemma {:induction false} WithoutOther(keys: seq<Key>, key: Key, k: Key)
    ensures k != key ==> (k in Without(keys, key) <==> k in keys)
  {
    if keys != [] { WithoutOther(keys[1..], key, k); }
  }

  /** The shares of other messages. */
  lemma TickKeyOther(cfg: Config, s: ReceiverState, key: Key, now: Time, k: Key)
    requires key != k
    ensures var (s', acts) := TickKey(cfg, s, key, now);
      && Has(s', k, if k in s.incoming then Some(s.incoming[k]) else None)
      && (k in s'.granting <==> k in s.granting)
      && forall a :: a in acts ==> !Concerns(a, k)
  {
    hide FirstMissing, Push, Without, ChunkStart, Target, Extends;
    WithoutOther(s.granting, key, k);
  }

  /** A message that is gone has no share. */
  lemma {:induction false} TickFromGone(cfg: Config, s: ReceiverState, order: seq<Key>, i: nat, now: Time, k: Key)
    requires i <= |order| && k !in order[i..]
    ensures var (s', acts) := TickFrom(cfg, s, order, i, now);
      && Has(s', k, if k in s.incoming then Some(s.incoming[k]) else None)
      && forall a :: a in acts ==> !Concerns(a, k)
    decreases |order| - i
  {
    hide TickKey;
    if i < |order| {
      assert order[i..] == [order[i]] + order[i + 1..];
      TickKeyOther(cfg, s, order[i], now, k);
      TickFromGone(cfg, TickKey(cfg, s, order[i], now).0, order, i + 1, now, k);
    }
  }

  /** Ticking one message after the other gives each its share. */
  lemma {:induction false} TickFromShares(cfg: Config, s: ReceiverState, order: seq<Key>, i: nat, now: Time, k: Key)
    requires i <= |order| && Lists(order, {}) && k in s.incoming && k in order[i..]
    ensures var (s', acts), share := TickFrom(cfg, s, order, i, now), ShareOf(cfg, k, s.incoming[k], k in s.granting, now);
      && Has(s', k, share.record)
      && forall a :: Concerns(a, k) ==> (a in acts <==> a in share.sends)
    decreases |order| - i
  {
    hide TickKey, ShareOf;
    assert order[i..] == [order[i]] + order[i + 1..];
    if order[i] == k {
      assert k !in order[i + 1..];
      TickKeyIs(cfg, s, k, now);
      TickFromGone(cfg, TickKey(cfg, s, k, now).0, order, i + 1, now, k);
    } else {
      TickKeyOther(cfg, s, order[i], now, k);
      TickFromShares(cfg, TickKey(cfg, s, order[i], now).0, order, i + 1, now, k);
    }
  }

  lemma {:induction false} GrantFromGrants(cfg: Config, s: ReceiverState, keys: seq<Key>, i: nat, now: Time, a: Action)
    requires a in GrantFrom(cfg, s, keys, i, now).1
    ensures a.Send? && a.dgram.pkt.typ == Grant
    decreases |keys| - i
  {
    hide Push, Target, Extends;
    if a !in IssueGrant(cfg, s, keys[i], now, false).1 {
      GrantFromGrants(cfg, IssueGrant(cfg, s, keys[i], now, false).0, keys, i + 1, now, a);
    }
  }

  lemma ScheduleAsksNothing(cfg: Config, s: ReceiverState, order: seq<Key>, now: Time, k: Key)
    ensures forall a :: a in Schedule(cfg, s, order, now).1 ==> !AsksFor(a, k)
  {
    hide GrantFrom, Selected;
    var selected := Selected(cfg, s.incoming, order, now);
    forall a | a in Schedule(cfg, s, order, now).1 ensures !AsksFor(a, k) {
      GrantFromGrants(cfg, s.(granting := selected), selected, 0, now, a);
    }
  }

  lemma RequestIsNoGrant(cfg: Config, k: Key, m: InMsg, g: nat)
    requires ChunkStart(cfg.packetSize, g) < m.grantedTo
    ensures AsksFor(Request(cfg, k, m, g), k) && !AsksFor(GrantOf(cfg, k, m), k)
  {
    hide ChunkStart, Target;
  }

  lemma GapIsFirst(m: InMsg, g: nat)
    requires g < |m.received| && !m.received[g] && forall i: nat :: i < g ==> m.received[i]
    ensures FirstMissing(m.received, 0) == Some(g)
  {
    assert !m.received[g];
  }

  /** Exactly when a tick asks: the message has been idle for the resend timeout and its first missing chunk starts
      below its credit. It then asks once, from that chunk on, and gives the message up if and only if as many
      requests as allowed went unanswered before. */
  lemma TickAsksExactly(cfg: Config, s: ReceiverState, order: seq<Key>, now: Time, k: Key, g: nat)
    requires Lists(order, s.incoming.Keys) && k in s.incoming && OpenGap(cfg, s.incoming[k], g)
    ensures var m, (s', acts) := s.incoming[k], Tick(cfg, s, order, now);
      && (forall a :: AsksFor(a, k) ==> (a in acts <==> IdleFor(m, now, cfg.resendTimeout) && a == Request(cfg, k, m, g)))
      && (k in s'.incoming <==> !(IdleFor(m, now, cfg.resendTimeout) && m.unansweredResends >= MAX_UNANSWERED_RESENDS))
      && (k in s'.incoming && IdleFor(m, now, cfg.resendTimeout) ==>
            s'.incoming[k].lastProgress == now && s'.incoming[k].unansweredResends == m.unansweredResends + 1)
  {
    hide TickFrom, Schedule, FirstMissing, ChunkStart, Request, Target, Evolves;
    var m := s.incoming[k];
    GapIsFirst(m, g);
    RequestIsNoGrant(cfg, k, m, g);
    ListsIn(order, s.incoming.Keys, k);
    TickFromShares(cfg, s, order, 0, now, k);
    var s1 := TickFrom(cfg, s, order, 0, now).0;
    ScheduleAsksNothing(cfg, s1, order, now, k);
    ScheduleTimers(cfg, s1, order, now, k);
  }

  lemma ListsIn(order: seq<Key>, keys: set<Key>, k: Key)
    requires Lists(order, keys) && k in keys
    ensures order[0..] == order && k in order && Lists(order, {})
  {
  }

  /** Scheduling keeps every record, and its timers but for that of the last grant. */
  lemma {:induction false} GrantFromTimers(cfg: Config, s: ReceiverState, keys: seq<Key>, i: nat, now: Time, k: Key)
    ensures var s' := GrantFrom(cfg, s, keys, i, now).0;
      && (k in s'.incoming <==> k in s.incoming)
      && (k in s.incoming ==>
            s'.incoming[k].lastProgress == s.incoming[k].lastProgress && s'.incoming[k].unansweredResends == s.incoming[k].unansweredResends)
    decreases |keys| - i
  {
    hide Push, Target, Extends;
    if i < |keys| {
      GrantFromTimers(cfg, IssueGrant(cfg, s, keys[i], now, false).0, keys, i + 1, now, k);
    }
  }

  lemma ScheduleTimers(cfg: Config, s: ReceiverState, order: seq<Key>, now: Time, k: Key)
    ensures var s' := Schedule(cfg, s, order, now).0;
      && (k in s'.incoming <==> k in s.incoming)
      && (k in s.incoming ==>
            s'.incoming[k].lastProgress == s.incoming[k].lastProgress && s'.incoming[k].unansweredResends == s.incoming[k].unansweredResends)
  {
    hide GrantFrom, Selected;
    var selected := Selected(cfg, s.incoming, order, now);
    GrantFromTimers(cfg, s.(granting := selected), selected, 0, now, k);
  }

  /** With nothing missing below its credit a message is never asked for nor given up; if it is being granted and has
      been idle for both timeouts, its credit is extended and announced. */
  lemma TickGrantsWhenIdle(cfg: Config, s: ReceiverState, order: seq<Key>, now: Time, k: Key)
    requires Lists(order, s.incoming.Keys) && k in s.incoming && forall g: nat :: !OpenGap(cfg, s.incoming[k], g)
    ensures var m, (s', acts) := s.incoming[k], Tick(cfg, s, order, now);
      && k in s'.incoming
      && (forall a :: a in acts ==> !AsksFor(a, k))
      && (IdleFor(m, now, cfg.resendTimeout) && IdleFor(m, now, cfg.grantTimeout) && k in s.granting ==>
            && s'.incoming[k].grantedTo >= Min(m.receivedBytes + cfg.grantIncrement, m.totalLen)
            && s'.incoming[k].lastProgress == now
            && GrantOf(cfg, k, m) in acts)
  {
    var m := s.incoming[k];
    var gap := FirstMissing(m.received, 0);
    if gap.Some? { assert !OpenGap(cfg, m, gap.value); }
    hide TickFrom, Schedule, FirstMissing, ChunkStart, OpenGap, Evolves;
    ListsIn(order, s.incoming.Keys, k);
    TickFromShares(cfg, s, order, 0, now, k);
    var s1 := TickFrom(cfg, s, order, 0, now).0;
    ScheduleAsksNothing(cfg, s1, order, now, k);
    ScheduleTimers(cfg, s1, order, now, k);
    ScheduleRaises(cfg, s1, order, now, k);
  }

  lemma ScheduleRaises(cfg: Config, s: ReceiverState, order: seq<Key>, now: Time, k: Key)
    ensures var s' := Schedule(cfg, s, order, now).0;
      k in s.incoming && k in s'.incoming ==> s'.incoming[k].grantedTo >= s.incoming[k].grantedTo
  {
    hide Schedule;
    ScheduleEvolves(cfg, s, order, now);
    var (s', acts) := Schedule(cfg, s, order, now);
    if k in s'.incoming { assert Regranted(cfg, acts, k, s.incoming[k], s'.incoming[k]); }
  }

  // ----- what counts as progress -----

  /** Scheduling after a packet leaves the timers of progress alone. */
  lemma {:induction false} StarveCheckTimers(cfg: Config, s: ReceiverState, order: seq<Key>, now: Time, k: Key)
    ensures var s' := StarveCheck(cfg, s, order, now).0;
      && (k in s'.incoming <==> k in s.incoming)
      && (k in s.incoming ==>
            s'.incoming[k].lastProgress == s.incoming[k].lastProgress && s'.incoming[k].unansweredResends == s.incoming[k].unansweredResends)
    decreases |s.starveQueue|
  {
    hide Schedule;
    if s.starveQueue != [] {
      ScheduleTimers(cfg, s.(starveQueue := s.starveQueue[1..]), order, now, k);
      StarveCheckTimers(cfg, s.(starveQueue := s.starveQueue[1..]), order, now, k);
    }
  }

  lemma ContinueTimers(cfg: Config, s: ReceiverState, key: Key, isNew: bool, order: seq<Key>, now: Time, k: Key)
    requires k in s.incoming
    ensures var s' := Continue(cfg, s, key, isNew, order, now).0;
      && k in s'.incoming
      && s'.incoming[k].lastProgress == s.incoming[k].lastProgress && s'.incoming[k].unansweredResends == s.incoming[k].unansweredResends
  {
    hide Schedule, StarveCheck, Push, Target, Extends;
    ScheduleTimers(cfg, s, order, now, k);
    var s1 :=
      if isNew then Schedule(cfg, s, order, now).0
      else if key in s.granting then IssueGrant(cfg, s, key, now, false).0
      else s;
    StarveCheckTimers(cfg, s1, order, now, k);
  }

  lemma StoreTimers(cfg: Config, m: InMsg, d: Datagram, now: Time)
    requires Fits(cfg, m, d)
    ensures var m' := Store(cfg, m, d, now);
      if Fills(cfg, m, d) then m'.lastProgress == now && m'.unansweredResends == 0
      else m'.lastProgress == m.lastProgress && m'.unansweredResends == m.unansweredResends
  {
  }

  /** A packet of a message being received starts its timers anew, and forgets the requests not answered, if and only
      if it fills a chunk that was missing. */
  lemma ProgressIff(cfg: Config, s: ReceiverState, src: Addr, d: Datagram, order: seq<Key>, now: Time)
    requires Admissible(cfg, s, src, d, now) && d.pkt.msgLen > 0
    requires var k := Key(src, d.pkt.msgId); k in s.incoming && !Refused(cfg, s, k, d.pkt)
    ensures var k, s' := Key(src, d.pkt.msgId), HandleData(cfg, s, src, d, order, now).0;
      k in s'.incoming ==>
        && var m, m', idx := s.incoming[k], s'.incoming[k], Quot(d.pkt.offset, cfg.packetSize);
           if idx < |m.received| && !m.received[idx] && d.pkt.offset + |d.payload| <= d.pkt.msgLen
           then m'.lastProgress == now && m'.unansweredResends == 0
           else m'.lastProgress == m.lastProgress && m'.unansweredResends == m.unansweredResends
  {
    hide Store, Schedule, Continue, Push, Quot, Without;
    var k := Key(src, d.pkt.msgId);
    StoreTimers(cfg, s.incoming[k], d, now);
    var s1 := Accept(cfg, s, k, d, now);
    if Finished(s1, k, d) {
      ScheduleTimers(cfg, DeliverTo(s1, k), order, now, k);
    } else {
      ContinueTimers(cfg, s1, k, false, order, now, k);
    }
  }
}
