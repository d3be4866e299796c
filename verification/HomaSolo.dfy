/** A receiver that is receiving one message and nothing else: what each call does, exactly. */
module HomaSolo {
  import opened Bytes
  import opened Chunks
  import opened HomaPacket
  import opened HomaTypes
  import opened HomaReceiver
  import opened HomaCredit

  /** The message, as the receiver names it: from host 0, under id 1. */
  const K := Key(0, 1)

  ghost predicate OnlyK(q: Deadlines) {
    forall e :: e in q ==> e.1 == K
  }

  ghost predicate Alone(s: ReceiverState, incoming: Incoming) {
    s.incoming == incoming && s.completed == {} && OnlyK(s.starveQueue)
  }

  /** The message is being received, as m, and nothing else is or was. */
  ghost predicate Solo(s: ReceiverState, m: InMsg, granting: seq<Key>) {
    Alone(s, map[K := m]) && s.granting == granting
  }

  /** m after the grant, if any, that an unforced call gives it. */
  function Extended(cfg: Config, m: InMsg, now: Time): InMsg {
    if Extends(cfg, m, false) then m.(grantedTo := Target(cfg, m), lastGrant := now) else m
  }

  lemma {:induction false} PushOnlyK(q: Deadlines, t: Time)
    requires OnlyK(q)
    ensures OnlyK(Push(q, (t, K)))
  {
    if q != [] && !Sooner((t, K), q[0]) { PushOnlyK(q[1..], t); }
  }

  lemma GrantIs(cfg: Config, s: ReceiverState, m: InMsg, granting: seq<Key>, now: Time)
    requires Solo(s, m, granting)
    ensures Solo(IssueGrant(cfg, s, K, now, false).0, Extended(cfg, m, now), granting)
    ensures Solo(IssueGrant(cfg, s, K, now, true).0, m.(grantedTo := Target(cfg, m), lastGrant := now), granting)
  {
    hide Push;
    PushOnlyK(s.starveQueue, now + cfg.starveThreshold);
    var m' := m.(grantedTo := Target(cfg, m), lastGrant := now);
    assert map[K := m][K := m'] == map[K := m'];
  }

  lemma {:induction false} StarveIs(cfg: Config, s: ReceiverState, m: InMsg, now: Time)
    requires Solo(s, m, [K])
    ensures Solo(StarveCheck(cfg, s, [K], now).0, m, [K])
    decreases |s.starveQueue|
  {
    if s.starveQueue != [] && s.starveQueue[0].0 <= now {
      assert s.starveQueue[0].1 == K;
      hide Schedule;
      StarveIs(cfg, s.(starveQueue := s.starveQueue[1..]), m, now);
    }
  }

  lemma SelectedIs(cfg: Config, m: InMsg, now: Time)
    ensures Selected(cfg, map[K := m], [K], now) == if m.NeedsCredit() then [K] else []
  {
    var incoming := map[K := m];
    assert Candidates(incoming, [K], 1) == [];
    assert Candidates(incoming, [K], 0) == if m.NeedsCredit() then [K] else [];
    assert RankAll(incoming, []) == [] && [K][1..] == [];
    assert RankAll(incoming, [K]) == Rank(incoming, K, []) == [K];
    assert Shortest(cfg, incoming, [K]) == if m.NeedsCredit() then [K] else [];
    var shortest := Shortest(cfg, incoming, [K]);
    assert AddStarving(cfg, incoming, [K], 1, shortest, now) == shortest;
  }

  lemma ScheduleIs(cfg: Config, s: ReceiverState, m: InMsg, now: Time)
    requires Alone(s, map[K := m])
    ensures m.NeedsCredit() ==> Solo(Schedule(cfg, s, [K], now).0, Extended(cfg, m, now), [K])
    ensures !m.NeedsCredit() ==> Solo(Schedule(cfg, s, [K], now).0, m, [])
  {
    hide Selected, IssueGrant, Extended;
    SelectedIs(cfg, m, now);
    if m.NeedsCredit() {
      var s0 := s.(granting := [K]);
      GrantIs(cfg, s0, m, [K], now);
      var (s1, acts) := IssueGrant(cfg, s0, K, now, false);
      assert GrantFrom(cfg, s1, [K], 1, now) == (s1, []);
    }
  }

  lemma ScheduleNone(cfg: Config, s: ReceiverState, now: Time)
    requires Alone(s, map[])
    ensures Alone(Schedule(cfg, s, [K], now).0, map[])
  {
    assert Candidates(map[], [K], 1) == [];
    assert Candidates(map[], [K], 0) == [];
    assert RankAll(map[], []) == [];
    assert Shortest(cfg, map[], [K]) == [];
    assert AddStarving(cfg, map[], [K], 1, [], now) == [];
  }

  // ----- packets -----

  /** A packet that does not finish the message. */
  lemma DataIs(cfg: Config, s: ReceiverState, m: InMsg, d: Datagram, now: Time)
    requires Solo(s, m, [K]) && d.pkt.msgId == 1 && 0 < d.pkt.msgLen <= MAX_MSG_LEN && Fits(cfg, m, d)
    requires !Store(cfg, m, d, now).Complete()
    ensures Admissible(cfg, s, 0, d, now)
    ensures Solo(HandleData(cfg, s, 0, d, [K], now).0, Extended(cfg, Store(cfg, m, d, now), now), [K])
  {
    hide Store, Fits, Extended, IssueGrant, StarveCheck;
    var m1 := Store(cfg, m, d, now);
    var s1 := Accept(cfg, s, K, d, now);
    assert map[K := m][K := m1] == map[K := m1];
    assert Solo(s1, m1, [K]);
    GrantIs(cfg, s1, m1, [K], now);
    StarveIs(cfg, IssueGrant(cfg, s1, K, now, false).0, Extended(cfg, m1, now), now);
  }

  /** The first packet of the message. */
  lemma FirstIs(cfg: Config, s: ReceiverState, d: Datagram, now: Time)
    requires Alone(s, map[]) && cfg.maxIncoming >= 1
    requires d.pkt.msgId == 1 && 0 < d.pkt.msgLen <= MAX_MSG_LEN && Fits(cfg, NewMsg(cfg, d.pkt.msgLen, now), d)
    requires Store(cfg, NewMsg(cfg, d.pkt.msgLen, now), d, now).NeedsCredit()
    ensures Admissible(cfg, s, 0, d, now)
    ensures Solo(HandleData(cfg, s, 0, d, [K], now).0,
                 Extended(cfg, Store(cfg, NewMsg(cfg, d.pkt.msgLen, now), d, now), now), [K])
  {
    hide Store, Fits, Extended, Schedule, StarveCheck, NewMsg, Push;
    var m1 := Store(cfg, NewMsg(cfg, d.pkt.msgLen, now), d, now);
    var s1 := Accept(cfg, s, K, d, now);
    PushOnlyK(s.starveQueue, now + cfg.starveThreshold);
    assert map[][K := m1] == map[K := m1];
    ScheduleIs(cfg, s1, m1, now);
    StarveIs(cfg, Schedule(cfg, s1, [K], now).0, Extended(cfg, m1, now), now);
  }

  /** The packet that finishes the message. */
  lemma LastIs(cfg: Config, s: ReceiverState, m: InMsg, granting: seq<Key>, d: Datagram, now: Time)
    requires Solo(s, m, granting) && d.pkt.msgId == 1 && 0 < d.pkt.msgLen <= MAX_MSG_LEN && Fits(cfg, m, d)
    requires Store(cfg, m, d, now).Complete()
    ensures Admissible(cfg, s, 0, d, now)
    ensures Deliver(0, 1, Store(cfg, m, d, now).buf) in HandleData(cfg, s, 0, d, [K], now).1
  {
    hide Store, Schedule, DeliverTo, Fits;
    var s1 := Accept(cfg, s, K, d, now);
    assert s1.incoming[K] == Store(cfg, m, d, now);
    var acts := HandleData(cfg, s, 0, d, [K], now).1;
    assert acts[0] == Deliver(0, 1, Store(cfg, m, d, now).buf);
  }

  // ----- ticks -----

  /** m once its first gap has been asked for. */
  function Asked(m: InMsg, now: Time): InMsg {
    m.(lastProgress := now, unansweredResends := m.unansweredResends + 1)
  }

  ghost predicate Stale(cfg: Config, m: InMsg, now: Time) {
    Since(now, m.lastProgress) >= cfg.resendTimeout && Since(now, m.lastProgress) >= cfg.grantTimeout
  }

  /** The first gap starts below the credit. */
  predicate GapBelow(cfg: Config, m: InMsg) {
    var gap := FirstMissing(m.received, 0);
    gap.Some? && ChunkStart(cfg.packetSize, gap.value) < m.grantedTo
  }

  function AskFor(cfg: Config, m: InMsg): Action
    requires GapBelow(cfg, m)
  {
    ResendOf(cfg, K, m, ChunkStart(cfg.packetSize, FirstMissing(m.received, 0).value))
  }

  /** A tick with one message is that message's share, then scheduling. */
  lemma TickSplits(cfg: Config, s: ReceiverState, now: Time)
    ensures var (s1, acts) := TickKey(cfg, s, K, now);
      Tick(cfg, s, [K], now) == (Schedule(cfg, s1, [K], now).0, acts + Schedule(cfg, s1, [K], now).1)
  {
    hide TickKey, Schedule;
    var (s1, acts) := TickKey(cfg, s, K, now);
    assert TickFrom(cfg, s1, [K], 1, now) == (s1, []);
    assert TickFrom(cfg, s, [K], 0, now) == (s1, acts + []);
    assert acts + [] == acts;
  }

  lemma AskIs(cfg: Config, s: ReceiverState, m: InMsg, granting: seq<Key>, now: Time)
    requires Solo(s, m, granting) && Stale(cfg, m, now) && GapBelow(cfg, m) && m.unansweredResends < MAX_UNANSWERED_RESENDS
    ensures AskFor(cfg, m) in Tick(cfg, s, [K], now).1
    ensures m.NeedsCredit() ==> Solo(Tick(cfg, s, [K], now).0, Extended(cfg, Asked(m, now), now), [K])
    ensures !m.NeedsCredit() ==> Solo(Tick(cfg, s, [K], now).0, Asked(m, now), [])
  {
    hide Schedule, Extended, ResendOf, FirstMissing, ChunkStart;
    TickSplits(cfg, s, now);
    var s1 := TickKey(cfg, s, K, now).0;
    assert map[K := m][K := Asked(m, now)] == map[K := Asked(m, now)];
    ScheduleIs(cfg, s1, Asked(m, now), now);
  }

  /** With no gap below it, the credit is extended by force. */
  lemma ForceIs(cfg: Config, s: ReceiverState, m: InMsg, now: Time)
    requires Solo(s, m, [K]) && Stale(cfg, m, now) && !GapBelow(cfg, m)
    ensures var m' := m.(lastProgress := now, grantedTo := Target(cfg, m), lastGrant := now);
      && (m'.NeedsCredit() ==> Solo(Tick(cfg, s, [K], now).0, Extended(cfg, m', now), [K]))
      && (!m'.NeedsCredit() ==> Solo(Tick(cfg, s, [K], now).0, m', []))
  {
    hide Schedule, Extended, IssueGrant, FirstMissing, ChunkStart;
    TickSplits(cfg, s, now);
    var m1 := m.(lastProgress := now);
    var s1 := s.(incoming := s.incoming[K := m1]);
    assert map[K := m][K := m1] == map[K := m1];
    GrantIs(cfg, s1, m1, [K], now);
    var m' := m.(lastProgress := now, grantedTo := Target(cfg, m), lastGrant := now);
    assert m1.(grantedTo := Target(cfg, m1), lastGrant := now) == m';
    ScheduleIs(cfg, TickKey(cfg, s, K, now).0, m', now);
  }

  lemma GiveUpIs(cfg: Config, s: ReceiverState, m: InMsg, granting: seq<Key>, now: Time)
    requires Solo(s, m, granting) && Stale(cfg, m, now) && GapBelow(cfg, m) && m.unansweredResends == MAX_UNANSWERED_RESENDS
    ensures Alone(Tick(cfg, s, [K], now).0, map[])
  {
    hide Schedule, ResendOf, FirstMissing, ChunkStart, Without;
    TickSplits(cfg, s, now);
    var s1 := TickKey(cfg, s, K, now).0;
    assert map[K := m] - {K} == map[];
    ScheduleNone(cfg, s1, now);
  }
}
