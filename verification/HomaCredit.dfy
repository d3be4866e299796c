/** What scheduling and ticking may do to the messages being received: move their credit to the
    one target their received bytes determine, ask for their first gap, or give them up. */
module HomaCredit {
  import opened Bytes
  import opened Chunks
  import opened HomaPacket
  import opened HomaTypes
  import opened HomaReceiver

  function KeyOf(a: Action): Key
    requires a.Send?
  {
    Key(a.dest, a.dgram.pkt.msgId)
  }

  /** A grant up to m's target. */
  ghost predicate IsGrant(cfg: Config, m: InMsg, pkt: Packet) {
    pkt.typ == Grant && pkt.offset == AsU32(Target(cfg, m))
  }

  /** Credit m already has, or its target if a grant among the actions says so. */
  ghost predicate Backed(cfg: Config, acts: seq<Action>, k: Key, m: InMsg, credit: nat) {
    || credit == m.grantedTo
    || (credit == Target(cfg, m) && exists a :: a in acts && a.Send? && KeyOf(a) == k && IsGrant(cfg, m, a.dgram.pkt))
  }

  /** m' is m with, at most, its credit moved to the target, and announced, and its timers changed. */
  ghost predicate Regranted(cfg: Config, acts: seq<Action>, k: Key, m: InMsg, m': InMsg) {
    && m'.totalLen == m.totalLen
    && m'.buf == m.buf
    && m'.received == m.received
    && m'.receivedBytes == m.receivedBytes
    && Backed(cfg, acts, k, m, m'.grantedTo)
  }

  /** A request for m's first gap that stays inside the credit given. */
  ghost predicate IsResend(cfg: Config, acts: seq<Action>, k: Key, m: InMsg, pkt: Packet) {
    && pkt.typ == PacketType.Resend
    && var gap := FirstMissing(m.received, 0);
       && gap.Some?
       && pkt.offset == AsU32(ChunkStart(cfg.packetSize, gap.value))
       && exists credit: nat ::
            Backed(cfg, acts, k, m, credit) && ResendWithin(cfg, ChunkStart(cfg.packetSize, gap.value), credit, pkt.length)
  }

  ghost predicate ResendWithin(cfg: Config, off: nat, granted: nat, length: nat) {
    off < granted && length == AsU32(Min(granted - off, cfg.grantIncrement))
  }

  /** The header-only packets a receiver sends about a message it is receiving. */
  ghost predicate IsCreditAct(cfg: Config, incoming: Incoming, acts: seq<Action>, a: Action) {
    && a.Send?
    && a.dgram.payload == []
    && a.dgram.pkt.priority < 8
    && a.dgram.pkt.msgLen == 0
    && a.dgram.pkt.length < TWO32
    && KeyOf(a) in incoming
    && var m := incoming[KeyOf(a)];
       (IsGrant(cfg, m, a.dgram.pkt) || IsResend(cfg, acts, KeyOf(a), m, a.dgram.pkt))
  }

  ghost predicate Evolves(cfg: Config, s: ReceiverState, s': ReceiverState, acts: seq<Action>) {
    && s'.incoming.Keys <= s.incoming.Keys
    && (forall k :: k in s'.incoming ==> Regranted(cfg, acts, k, s.incoming[k], s'.incoming[k]))
    && s'.completed == s.completed
    && s'.completedOrder == s.completedOrder
    && (forall a :: a in acts ==> IsCreditAct(cfg, s.incoming, acts, a))
  }

  lemma BackedMore(cfg: Config, acts: seq<Action>, more: seq<Action>, k: Key, m: InMsg, credit: nat)
    requires Backed(cfg, acts, k, m, credit)
    requires forall a :: a in acts ==> a in more
    ensures Backed(cfg, more, k, m, credit)
  {
  }

  lemma BackedTwice(cfg: Config, acts: seq<Action>, rest: seq<Action>, k: Key, m: InMsg, m': InMsg, credit: nat)
    requires Regranted(cfg, acts, k, m, m') && Backed(cfg, rest, k, m', credit)
    ensures Backed(cfg, acts + rest, k, m, credit)
  {
    assert Target(cfg, m') == Target(cfg, m);
    if credit == m'.grantedTo {
      BackedMore(cfg, acts, acts + rest, k, m, credit);
    } else {
      var a :| a in rest && a.Send? && KeyOf(a) == k && IsGrant(cfg, m', a.dgram.pkt);
      assert a in acts + rest && IsGrant(cfg, m, a.dgram.pkt);
    }
  }

  lemma CreditActMore(cfg: Config, incoming: Incoming, acts: seq<Action>, more: seq<Action>, a: Action)
    requires IsCreditAct(cfg, incoming, acts, a)
    requires forall b :: b in acts ==> b in more
    ensures IsCreditAct(cfg, incoming, more, a)
  {
    var k, m := KeyOf(a), incoming[KeyOf(a)];
    if !IsGrant(cfg, m, a.dgram.pkt) {
      var off := ChunkStart(cfg.packetSize, FirstMissing(m.received, 0).value);
      var credit: nat :| Backed(cfg, acts, k, m, credit) && ResendWithin(cfg, off, credit, a.dgram.pkt.length);
      BackedMore(cfg, acts, more, k, m, credit);
    }
  }

  lemma CreditActLater(cfg: Config, s0: ReceiverState, s1: ReceiverState, acts: seq<Action>, rest: seq<Action>, a: Action)
    requires Evolves(cfg, s0, s1, acts) && IsCreditAct(cfg, s1.incoming, rest, a)
    ensures IsCreditAct(cfg, s0.incoming, acts + rest, a)
  {
    var k := KeyOf(a);
    var m, m' := s0.incoming[k], s1.incoming[k];
    assert Regranted(cfg, acts, k, m, m') && Target(cfg, m') == Target(cfg, m);
    if !IsGrant(cfg, m', a.dgram.pkt) {
      var off := ChunkStart(cfg.packetSize, FirstMissing(m'.received, 0).value);
      var credit: nat :| Backed(cfg, rest, k, m', credit) && ResendWithin(cfg, off, credit, a.dgram.pkt.length);
      BackedTwice(cfg, acts, rest, k, m, m', credit);
    }
  }

  lemma EvolvesTransitive(cfg: Config, s0: ReceiverState, s1: ReceiverState, s2: ReceiverState,
                          acts: seq<Action>, rest: seq<Action>)
    requires Evolves(cfg, s0, s1, acts) && Evolves(cfg, s1, s2, rest)
    ensures Evolves(cfg, s0, s2, acts + rest)
  {
    forall k | k in s2.incoming ensures Regranted(cfg, acts + rest, k, s0.incoming[k], s2.incoming[k]) {
      BackedTwice(cfg, acts, rest, k, s0.incoming[k], s1.incoming[k], s2.incoming[k].grantedTo);
    }
    forall a | a in acts + rest ensures IsCreditAct(cfg, s0.incoming, acts + rest, a) {
      if a in acts {
        CreditActMore(cfg, s0.incoming, acts, acts + rest, a);
      } else {
        CreditActLater(cfg, s0, s1, acts, rest, a);
      }
    }
  }

  lemma IssueGrantEvolves(cfg: Config, s: ReceiverState, key: Key, now: Time, force: bool)
    ensures var (s', acts) := IssueGrant(cfg, s, key, now, force);
      Evolves(cfg, s, s', acts) && s'.incoming.Keys == s.incoming.Keys && s'.granting == s.granting
  {
    if key in s.incoming && Extends(cfg, s.incoming[key], force) {
      var a := GrantOf(cfg, key, s.incoming[key]);
      assert a in [a] && KeyOf(a) == key && IsGrant(cfg, s.incoming[key], a.dgram.pkt);
    }
  }

  lemma {:induction false} GrantFromEvolves(cfg: Config, s: ReceiverState, keys: seq<Key>, i: nat, now: Time)
    ensures var (s', acts) := GrantFrom(cfg, s, keys, i, now);
      Evolves(cfg, s, s', acts) && s'.incoming.Keys == s.incoming.Keys && s'.granting == s.granting
    decreases |keys| - i
  {
    if i < |keys| {
      var (s', acts) := IssueGrant(cfg, s, keys[i], now, false);
      IssueGrantEvolves(cfg, s, keys[i], now, false);
      GrantFromEvolves(cfg, s', keys, i + 1, now);
      var (s'', rest) := GrantFrom(cfg, s', keys, i + 1, now);
      EvolvesTransitive(cfg, s, s', s'', acts, rest);
    }
  }

  lemma ScheduleEvolves(cfg: Config, s: ReceiverState, order: seq<Key>, now: Time)
    ensures var (s', acts) := Schedule(cfg, s, order, now);
      Evolves(cfg, s, s', acts) && s'.incoming.Keys == s.incoming.Keys
  {
    var selected := Selected(cfg, s.incoming, order, now);
    GrantFromEvolves(cfg, s.(granting := selected), selected, 0, now);
  }

  lemma {:induction false} StarveCheckEvolves(cfg: Config, s: ReceiverState, order: seq<Key>, now: Time)
    ensures var (s', acts) := StarveCheck(cfg, s, order, now);
      Evolves(cfg, s, s', acts) && s'.incoming.Keys == s.incoming.Keys
    decreases |s.starveQueue|
  {
    if s.starveQueue != [] {
      var s' := s.(starveQueue := s.starveQueue[1..]);
      ScheduleEvolves(cfg, s', order, now);
      StarveCheckEvolves(cfg, s', order, now);
    }
  }

  lemma ContinueEvolves(cfg: Config, s: ReceiverState, key: Key, isNew: bool, order: seq<Key>, now: Time)
    ensures var (s', acts) := Continue(cfg, s, key, isNew, order, now);
      Evolves(cfg, s, s', acts) && s'.incoming.Keys == s.incoming.Keys
  {
    ScheduleEvolves(cfg, s, order, now);
    IssueGrantEvolves(cfg, s, key, now, false);
    var (s', acts) :=
      if isNew then Schedule(cfg, s, order, now)
      else if key in s.granting then IssueGrant(cfg, s, key, now, false)
      else (s, []);
    StarveCheckEvolves(cfg, s', order, now);
    var (s'', rest) := StarveCheck(cfg, s', order, now);
    EvolvesTransitive(cfg, s, s', s'', acts, rest);
  }

  lemma TouchEvolves(cfg: Config, s: ReceiverState, key: Key, m': InMsg)
    requires key in s.incoming && Regranted(cfg, [], key, s.incoming[key], m')
    ensures Evolves(cfg, s, s.(incoming := s.incoming[key := m']), [])
  {
  }

  lemma ResendOfIsCreditAct(cfg: Config, incoming: Incoming, key: Key)
    requires key in incoming
    ensures var m := incoming[key];
      var gap := FirstMissing(m.received, 0);
      gap.Some? && ChunkStart(cfg.packetSize, gap.value) < m.grantedTo ==>
        var a := ResendOf(cfg, key, m, ChunkStart(cfg.packetSize, gap.value)); IsCreditAct(cfg, incoming, [a], a)
  {
    var m := incoming[key];
    var gap := FirstMissing(m.received, 0);
    if gap.Some? && ChunkStart(cfg.packetSize, gap.value) < m.grantedTo {
      var a := ResendOf(cfg, key, m, ChunkStart(cfg.packetSize, gap.value));
      assert Backed(cfg, [a], key, m, m.grantedTo);
    }
  }

  lemma GiveUpEvolves(cfg: Config, s: ReceiverState, key: Key, a: Action)
    requires key in s.incoming && IsCreditAct(cfg, s.incoming, [a], a)
    ensures Evolves(cfg, s, Remove(s, key), [a])
  {
    hide IsCreditAct, Without;
  }

  lemma AskEvolves(cfg: Config, s: ReceiverState, key: Key, m': InMsg, a: Action)
    requires key in s.incoming && Regranted(cfg, [], key, s.incoming[key], m') && IsCreditAct(cfg, s.incoming, [a], a)
    ensures Evolves(cfg, s, s.(incoming := s.incoming[key := m']), [a])
  {
    BackedMore(cfg, [], [a], key, s.incoming[key], m'.grantedTo);
    hide IsCreditAct;
  }

  lemma TickKeyEvolves(cfg: Config, s: ReceiverState, key: Key, now: Time)
    ensures var (s', acts) := TickKey(cfg, s, key, now); Evolves(cfg, s, s', acts)
  {
    var (s', acts) := TickKey(cfg, s, key, now);
    if key !in s.incoming || Since(now, s.incoming[key].lastProgress) < cfg.resendTimeout {
      return;
    }
    var m := s.incoming[key];
    var gap := FirstMissing(m.received, 0);
    var m1 := m.(lastProgress := now);
    var s1 := s.(incoming := s.incoming[key := m1]);
    assert Regranted(cfg, [], key, m, m1);
    if gap.Some? && ChunkStart(cfg.packetSize, gap.value) < m.grantedTo {
      ResendOfIsCreditAct(cfg, s.incoming, key);
      var a := ResendOf(cfg, key, m, ChunkStart(cfg.packetSize, gap.value));
      hide Evolves, IsCreditAct, ResendOf, FirstMissing;
      if m.unansweredResends + 1 > MAX_UNANSWERED_RESENDS {
        GiveUpEvolves(cfg, s, key, a);
      } else {
        AskEvolves(cfg, s, key, m1.(unansweredResends := m.unansweredResends + 1), a);
      }
    } else if Since(now, m.lastProgress) >= cfg.grantTimeout {
      TouchEvolves(cfg, s, key, m1);
      IssueGrantEvolves(cfg, s1, key, now, true);
      var (s2, rest) := IssueGrant(cfg, s1, key, now, true);
      EvolvesTransitive(cfg, s, s1, s2, [], rest);
      assert [] + rest == rest;
    }
  }

  lemma {:induction false} TickFromEvolves(cfg: Config, s: ReceiverState, order: seq<Key>, i: nat, now: Time)
    ensures var (s', acts) := TickFrom(cfg, s, order, i, now); Evolves(cfg, s, s', acts)
    decreases |order| - i
  {
    if i < |order| {
      var (s', acts) := TickKey(cfg, s, order[i], now);
      TickKeyEvolves(cfg, s, order[i], now);
      TickFromEvolves(cfg, s', order, i + 1, now);
      var (s'', rest) := TickFrom(cfg, s', order, i + 1, now);
      EvolvesTransitive(cfg, s, s', s'', acts, rest);
    }
  }

  lemma TickEvolves(cfg: Config, s: ReceiverState, order: seq<Key>, now: Time)
    ensures var (s', acts) := Tick(cfg, s, order, now); Evolves(cfg, s, s', acts)
  {
    TickFromEvolves(cfg, s, order, 0, now);
    var (s', acts) := TickFrom(cfg, s, order, 0, now);
    ScheduleEvolves(cfg, s', order, now);
    var (s'', rest) := Schedule(cfg, s', order, now);
    EvolvesTransitive(cfg, s, s', s'', acts, rest);
  }
}
