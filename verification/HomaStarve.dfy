/** Nobody starves: the queue of deadlines reaches every message that waits for credit, and a message that
    has waited for the threshold is granted at the next packet or tick. */
module HomaStarve {
  import opened Bytes
  import opened HomaPacket
  import opened HomaTypes
  import opened HomaReceiver
  import opened HomaCredit
  import opened HomaSrpt
  import opened HomaLedger

  // ----- the queue -----

  ghost predicate Sorted(q: Deadlines) {
    forall i, j :: 0 <= i < j < |q| ==> q[i].0 <= q[j].0
  }

  /** Pushing keeps the order and adds the entry and nothing else. */
  lemma {:induction false} PushFacts(q: Deadlines, e: (Time, Key))
    requires Sorted(q)
    ensures Sorted(Push(q, e))
    ensures forall x :: x in Push(q, e) <==> x in q || x == e
  {
    if q != [] && !Sooner(e, q[0]) {
      PushFacts(q[1..], e);
      assert q == [q[0]] + q[1..];
      var r := Push(q[1..], e);
      forall i | 0 <= i < |r| ensures q[0].0 <= r[i].0 {
        assert r[i] in r;
      }
    }
  }

  // ----- one check -----

  /** The message needs credit. */
  predicate Waits(s: ReceiverState, k: Key) {
    k in s.incoming && s.incoming[k].NeedsCredit()
  }

  /** Its last grant is the threshold ago. */
  predicate Due(cfg: Config, m: InMsg, now: Time) {
    now >= m.lastGrant + cfg.starveThreshold
  }

  /** What makes the check schedule: the message is short of credit, outside the granting set, and due. */
  predicate Neglected(cfg: Config, s: ReceiverState, k: Key, now: Time) {
    && k in s.incoming && k !in s.granting
    && s.incoming[k].grantedTo < s.incoming[k].totalLen
    && Since(now, s.incoming[k].lastGrant) >= cfg.starveThreshold
  }

  /** Scheduling grants every message that is due. */
  lemma ScheduleSaves(cfg: Config, s: ReceiverState, order: seq<Key>, now: Time, k: Key)
    requires Lists(order, s.incoming.Keys) && Waits(s, k) && Since(now, s.incoming[k].lastGrant) >= cfg.starveThreshold
    ensures var s' := Schedule(cfg, s, order, now).0; k in s'.granting && k in s'.incoming && Served(cfg, s'.incoming[k])
  {
    ScheduleIsSrpt(cfg, s, order, now, k);
  }

  /** A message with a deadline that has come, outside the granting set, in need of credit and last granted
      the threshold ago, is granted and served by the check, wherever in the queue its deadline is. */
  lemma {:induction false} StarveCheckSaves(cfg: Config, s: ReceiverState, order: seq<Key>, now: Time, k: Key, t: Time)
    requires Sorted(s.starveQueue) && Lists(order, s.incoming.Keys)
    requires (t, k) in s.starveQueue && t <= now
    requires Waits(s, k) && k !in s.granting && Since(now, s.incoming[k].lastGrant) >= cfg.starveThreshold
    ensures var s' := StarveCheck(cfg, s, order, now).0; k in s'.granting && k in s'.incoming && Served(cfg, s'.incoming[k])
    decreases |s.starveQueue|
  {
    hide Schedule, Served, Lists;
    var q := s.starveQueue;
    assert q[0].0 <= t;
    var s1 := s.(starveQueue := q[1..]);
    var key := q[0].1;
    if Neglected(cfg, s, key, now) {
      ScheduleSaves(cfg, s1, order, now, k);
    } else {
      assert q == [q[0]] + q[1..];
      StarveCheckSaves(cfg, s1, order, now, k, t);
    }
  }

  // ----- the deadlines -----

  /** The deadline that the last grant set is still in the queue. */
  ghost predicate HasDeadline(cfg: Config, s: ReceiverState, k: Key)
    requires k in s.incoming
  {
    (s.incoming[k].lastGrant + cfg.starveThreshold, k) in s.starveQueue
  }

  /** Whoever waits has a deadline to come, or is due. */
  ghost predicate Watched(cfg: Config, s: ReceiverState, now: Time) {
    && Sorted(s.starveQueue)
    && forall k :: Waits(s, k) ==> s.incoming[k].lastGrant <= now && (HasDeadline(cfg, s, k) || Due(cfg, s.incoming[k], now))
  }

  /** And whoever is due without a deadline is being granted. */
  ghost predicate Guarded(cfg: Config, s: ReceiverState, now: Time) {
    && Sorted(s.starveQueue)
    && forall k :: Waits(s, k) ==>
         && s.incoming[k].lastGrant <= now
         && (HasDeadline(cfg, s, k) || (k in s.granting && Due(cfg, s.incoming[k], now)))
  }

  /** Whoever waits outside the granting set was granted within the threshold. */
  ghost predicate NobodyStarves(cfg: Config, s: ReceiverState, now: Time) {
    forall k :: Waits(s, k) && k !in s.granting ==> Since(now, s.incoming[k].lastGrant) < cfg.starveThreshold
  }

  lemma GuardedIsWatched(cfg: Config, s: ReceiverState, clock: Time, now: Time)
    requires Guarded(cfg, s, clock) && clock <= now
    ensures Guarded(cfg, s, now) && Watched(cfg, s, now)
  {
  }

  lemma IssueGrantGuards(cfg: Config, s: ReceiverState, key: Key, now: Time, force: bool)
    requires Guarded(cfg, s, now)
    ensures Guarded(cfg, IssueGrant(cfg, s, key, now, force).0, now)
  {
    hide Push, Sorted, Target, Extends;
    if key in s.incoming && Extends(cfg, s.incoming[key], force) {
      PushFacts(s.starveQueue, (now + cfg.starveThreshold, key));
      var s' := IssueGrant(cfg, s, key, now, force).0;
      forall k | Waits(s', k)
        ensures s'.incoming[k].lastGrant <= now
        ensures HasDeadline(cfg, s', k) || (k in s'.granting && Due(cfg, s'.incoming[k], now))
      {
        if k != key { assert Waits(s, k); }
      }
    }
  }

  lemma {:induction false} GrantFromGuards(cfg: Config, s: ReceiverState, keys: seq<Key>, i: nat, now: Time)
    requires Guarded(cfg, s, now)
    ensures Guarded(cfg, GrantFrom(cfg, s, keys, i, now).0, now)
    decreases |keys| - i
  {
    hide Guarded, IssueGrant;
    if i < |keys| {
      IssueGrantGuards(cfg, s, keys[i], now, false);
      GrantFromGuards(cfg, IssueGrant(cfg, s, keys[i], now, false).0, keys, i + 1, now);
    }
  }

  /** Scheduling takes in all who are due. */
  lemma ScheduleGuards(cfg: Config, s: ReceiverState, order: seq<Key>, now: Time)
    requires Watched(cfg, s, now) && Lists(order, s.incoming.Keys)
    ensures var s' := Schedule(cfg, s, order, now).0; Guarded(cfg, s', now) && NobodyStarves(cfg, s', now)
  {
    hide Selected, GrantFrom;
    var selected := Selected(cfg, s.incoming, order, now);
    var s0 := s.(granting := selected);
    forall k | Waits(s, k) && Due(cfg, s.incoming[k], now) ensures k in selected {
      SelectsDue(cfg, s.incoming, order, now, k);
    }
    GrantFromGuards(cfg, s0, selected, 0, now);
    ScheduleEvolves(cfg, s, order, now);
    var (s', acts) := Schedule(cfg, s, order, now);
    forall k | Waits(s', k) && k !in s'.granting ensures Since(now, s'.incoming[k].lastGrant) < cfg.starveThreshold {
      WaitedBefore(cfg, s, s', acts, k);
      ScheduleIsSrpt(cfg, s, order, now, k);
    }
  }

  lemma SelectsDue(cfg: Config, incoming: Incoming, order: seq<Key>, now: Time, k: Key)
    requires Lists(order, incoming.Keys) && k in incoming && incoming[k].NeedsCredit() && Due(cfg, incoming[k], now)
    ensures k in Selected(cfg, incoming, order, now)
  {
    assert order[0..] == order;
    AddStarvingFacts(cfg, incoming, order, 0, Shortest(cfg, incoming, order), now, k);
    hide AddStarving, Shortest;
  }

  /** Credit only grows, so who waits now waited before. */
  lemma WaitedBefore(cfg: Config, s: ReceiverState, s': ReceiverState, acts: seq<Action>, k: Key)
    requires Evolves(cfg, s, s', acts) && Waits(s', k)
    ensures Waits(s, k)
  {
    assert Regranted(cfg, acts, k, s.incoming[k], s'.incoming[k]);
  }

  lemma {:induction false} StarveCheckGuards(cfg: Config, s: ReceiverState, order: seq<Key>, now: Time)
    requires Guarded(cfg, s, now) && Lists(order, s.incoming.Keys)
    ensures var s' := StarveCheck(cfg, s, order, now).0; Guarded(cfg, s', now) && NobodyStarves(cfg, s', now)
    decreases |s.starveQueue|
  {
    hide Schedule, Lists;
    var q := s.starveQueue;
    if q == [] || q[0].0 > now {
      LateQueue(cfg, s, now);
    } else {
      var key, s1 := q[0].1, s.(starveQueue := q[1..]);
      PopKeeps(cfg, s, now);
      hide Guarded, Watched, NobodyStarves;
      if Neglected(cfg, s, key, now) {
        ScheduleGuards(cfg, s1, order, now);
      } else {
        StarveCheckGuards(cfg, s1, order, now);
      }
    }
  }

  /** If no deadline has come, nobody outside the granting set is due. */
  lemma LateQueue(cfg: Config, s: ReceiverState, now: Time)
    requires Guarded(cfg, s, now) && (s.starveQueue == [] || s.starveQueue[0].0 > now)
    ensures NobodyStarves(cfg, s, now)
  {
    var q := s.starveQueue;
    forall k | Waits(s, k) && k !in s.granting ensures Since(now, s.incoming[k].lastGrant) < cfg.starveThreshold {
      assert HasDeadline(cfg, s, k);
      var i :| 0 <= i < |q| && q[i] == (s.incoming[k].lastGrant + cfg.starveThreshold, k);
      assert q[0].0 <= q[i].0;
    }
  }

  /** Popping a deadline that has come leaves its message due. */
  lemma PopKeeps(cfg: Config, s: ReceiverState, now: Time)
    requires Guarded(cfg, s, now) && s.starveQueue != [] && s.starveQueue[0].0 <= now
    ensures var key, s1 := s.starveQueue[0].1, s.(starveQueue := s.starveQueue[1..]);
      && Watched(cfg, s1, now)
      && (!Neglected(cfg, s, key, now) ==> Guarded(cfg, s1, now))
  {
    var q, s1 := s.starveQueue, s.(starveQueue := s.starveQueue[1..]);
    assert q == [q[0]] + q[1..];
    forall k | Waits(s1, k)
      ensures s1.incoming[k].lastGrant <= now
      ensures HasDeadline(cfg, s1, k) || Due(cfg, s1.incoming[k], now)
      ensures HasDeadline(cfg, s1, k) || k in s1.granting || k == q[0].1
    {
      assert Waits(s, k);
    }
  }

  // ----- packets -----

  /** No record in the table is complete. */
  ghost predicate NoneComplete(s: ReceiverState) {
    forall k :: k in s.incoming ==> !s.incoming[k].Complete()
  }

  lemma EvolvesNoneComplete(cfg: Config, s: ReceiverState, s': ReceiverState, acts: seq<Action>)
    requires NoneComplete(s) && Evolves(cfg, s, s', acts)
    ensures NoneComplete(s')
  {
    forall k | k in s'.incoming ensures !s'.incoming[k].Complete() {
      assert Regranted(cfg, acts, k, s.incoming[k], s'.incoming[k]);
    }
  }

  lemma StoreWaits(cfg: Config, m: InMsg, d: Datagram, now: Time)
    requires Fits(cfg, m, d)
    ensures var m' := Store(cfg, m, d, now);
      m'.lastGrant == m.lastGrant && m'.grantedTo == m.grantedTo && m'.totalLen == m.totalLen
  {
  }

  /** One record more, or one changed but for its last grant and credit, with a deadline if it is new. */
  lemma RecordGuards(cfg: Config, s: ReceiverState, s': ReceiverState, key: Key, m: InMsg, now: Time)
    requires Guarded(cfg, s, now) && NoneComplete(s) && s'.incoming == s.incoming[key := m] && s'.granting == s.granting
    requires key in s.incoming ==>
      && s'.starveQueue == s.starveQueue
      && m.lastGrant == s.incoming[key].lastGrant && m.grantedTo == s.incoming[key].grantedTo && m.totalLen == s.incoming[key].totalLen
    requires key !in s.incoming ==> m.lastGrant == now && s'.starveQueue == Push(s.starveQueue, (now + cfg.starveThreshold, key))
    ensures Guarded(cfg, s', now)
  {
    hide Push, Sorted;
    PushFacts(s.starveQueue, (now + cfg.starveThreshold, key));
    forall k | Waits(s', k)
      ensures s'.incoming[k].lastGrant <= now
      ensures HasDeadline(cfg, s', k) || (k in s'.granting && Due(cfg, s'.incoming[k], now))
    {
      if k in s.incoming { assert Waits(s, k); }
    }
  }

  lemma AcceptGuards(cfg: Config, s: ReceiverState, key: Key, d: Datagram, now: Time)
    requires Guarded(cfg, s, now) && NoneComplete(s) && Fits(cfg, MsgFor(cfg, s, key, d.pkt, now), d)
    ensures Guarded(cfg, Accept(cfg, s, key, d, now), now)
  {
    hide Push, Store, Fits, Guarded, NoneComplete;
    StoreWaits(cfg, MsgFor(cfg, s, key, d.pkt, now), d, now);
    var s' := Accept(cfg, s, key, d, now);
    RecordGuards(cfg, s, s', key, s'.incoming[key], now);
  }

  lemma {:induction false} WithoutKeeps(keys: seq<Key>, key: Key, k: Key)
    ensures k != key && k in keys ==> k in Without(keys, key)
  {
    if keys != [] { WithoutKeeps(keys[1..], key, k); }
  }

  /** Taking a message out leaves the others as they were. */
  lemma RemoveGuards(cfg: Config, s: ReceiverState, s': ReceiverState, key: Key, now: Time)
    requires Guarded(cfg, s, now) && s'.incoming == s.incoming - {key} && s'.granting == Without(s.granting, key)
    requires s'.starveQueue == s.starveQueue
    ensures Guarded(cfg, s', now)
  {
    hide Without, Sorted;
    forall k | Waits(s', k)
      ensures s'.incoming[k].lastGrant <= now
      ensures HasDeadline(cfg, s', k) || (k in s'.granting && Due(cfg, s'.incoming[k], now))
    {
      assert Waits(s, k);
      WithoutKeeps(s.granting, key, k);
    }
  }

  lemma FinishGuards(cfg: Config, s: ReceiverState, key: Key, order: seq<Key>, now: Time)
    requires Guarded(cfg, s, now) && Lists(order, s.incoming.Keys) && NoneComplete(s.(incoming := s.incoming - {key}))
    ensures var s' := Schedule(cfg, DeliverTo(s, key), order, now).0;
      Guarded(cfg, s', now) && NobodyStarves(cfg, s', now) && NoneComplete(s')
  {
    hide Schedule, Guarded, Watched, NobodyStarves;
    var s1 := DeliverTo(s, key);
    RemoveGuards(cfg, s, s1, key, now);
    GuardedIsWatched(cfg, s1, now, now);
    ScheduleGuards(cfg, s1, order, now);
    ScheduleEvolves(cfg, s1, order, now);
    EvolvesNoneComplete(cfg, s1, Schedule(cfg, s1, order, now).0, Schedule(cfg, s1, order, now).1);
  }

  lemma ContinueGuards(cfg: Config, s: ReceiverState, key: Key, isNew: bool, order: seq<Key>, now: Time)
    requires Guarded(cfg, s, now) && NoneComplete(s) && Lists(order, s.incoming.Keys)
    ensures var s' := Continue(cfg, s, key, isNew, order, now).0;
      Guarded(cfg, s', now) && NobodyStarves(cfg, s', now) && NoneComplete(s')
  {
    hide Schedule, IssueGrant, StarveCheck, Guarded, Watched, NobodyStarves, NoneComplete, Evolves, Lists;
    GuardedIsWatched(cfg, s, now, now);
    ScheduleEvolves(cfg, s, order, now);
    IssueGrantEvolves(cfg, s, key, now, false);
    if isNew {
      ScheduleGuards(cfg, s, order, now);
    } else {
      IssueGrantGuards(cfg, s, key, now, false);
    }
    var s1 :=
      if isNew then Schedule(cfg, s, order, now).0
      else if key in s.granting then IssueGrant(cfg, s, key, now, false).0
      else s;
    StarveCheckGuards(cfg, s1, order, now);
    ContinueEvolves(cfg, s, key, isNew, order, now);
    EvolvesNoneComplete(cfg, s, Continue(cfg, s, key, isNew, order, now).0, Continue(cfg, s, key, isNew, order, now).1);
  }

  lemma AcceptComplete(cfg: Config, s: ReceiverState, key: Key, d: Datagram, now: Time)
    requires NoneComplete(s) && Fits(cfg, MsgFor(cfg, s, key, d.pkt, now), d)
    ensures var s1 := Accept(cfg, s, key, d, now);
      && s1.incoming.Keys == s.incoming.Keys + {key}
      && NoneComplete(s1.(incoming := s1.incoming - {key}))
      && (!s1.incoming[key].Complete() ==> NoneComplete(s1))
  {
    hide Store, Fits, Push, NewMsg;
  }

  /** After a packet that is not refused, nobody starves. */
  lemma DataGuards(cfg: Config, s: ReceiverState, src: Addr, d: Datagram, order: seq<Key>, now: Time)
    requires Guarded(cfg, s, now) && NoneComplete(s) && Admissible(cfg, s, src, d, now)
    requires Lists(order, s.incoming.Keys + {Key(src, d.pkt.msgId)})
    ensures var s' := HandleData(cfg, s, src, d, order, now).0;
      && Guarded(cfg, s', now) && NoneComplete(s')
      && (!Refused(cfg, s, Key(src, d.pkt.msgId), d.pkt) ==> NobodyStarves(cfg, s', now))
  {
    hide Guarded, NobodyStarves, NoneComplete, Accept, Fits, Schedule, Continue, DeliverTo;
    var key := Key(src, d.pkt.msgId);
    if !Refused(cfg, s, key, d.pkt) {
      AcceptGuards(cfg, s, key, d, now);
      AcceptComplete(cfg, s, key, d, now);
      var s1 := Accept(cfg, s, key, d, now);
      if Finished(s1, key, d) {
        FinishGuards(cfg, s1, key, order, now);
      } else {
        ContinueGuards(cfg, s1, key, key !in s.incoming, order, now);
      }
    }
  }

  // ----- ticks -----

  /** Changing a record's timers other than that of its last grant. */
  lemma TouchGuards(cfg: Config, s: ReceiverState, key: Key, m: InMsg, now: Time)
    requires Guarded(cfg, s, now) && key in s.incoming
    requires m == s.incoming[key].(lastProgress := m.lastProgress, unansweredResends := m.unansweredResends)
    ensures Guarded(cfg, s.(incoming := s.incoming[key := m]), now)
  {
    hide Sorted;
    var s' := s.(incoming := s.incoming[key := m]);
    forall k | Waits(s', k)
      ensures s'.incoming[k].lastGrant <= now
      ensures HasDeadline(cfg, s', k) || (k in s'.granting && Due(cfg, s'.incoming[k], now))
    {
      assert Waits(s, k);
    }
  }

  lemma TickKeyGuards(cfg: Config, s: ReceiverState, key: Key, now: Time)
    requires Guarded(cfg, s, now)
    ensures Guarded(cfg, TickKey(cfg, s, key, now).0, now)
  {
    hide Guarded, IssueGrant, ResendOf, FirstMissing, Without;
    if key in s.incoming {
      var m := s.incoming[key];
      RemoveGuards(cfg, s, Remove(s, key), key, now);
      TouchGuards(cfg, s, key, m.(lastProgress := now, unansweredResends := m.unansweredResends + 1), now);
      TouchGuards(cfg, s, key, m.(lastProgress := now), now);
      IssueGrantGuards(cfg, s.(incoming := s.incoming[key := m.(lastProgress := now)]), key, now, true);
    }
  }

  lemma {:induction false} TickFromGuards(cfg: Config, s: ReceiverState, order: seq<Key>, i: nat, now: Time)
    requires Guarded(cfg, s, now)
    ensures Guarded(cfg, TickFrom(cfg, s, order, i, now).0, now)
    decreases |order| - i
  {
    hide Guarded, TickKey;
    if i < |order| {
      TickKeyGuards(cfg, s, order[i], now);
      TickFromGuards(cfg, TickKey(cfg, s, order[i], now).0, order, i + 1, now);
    }
  }

  lemma TickGuards(cfg: Config, s: ReceiverState, order: seq<Key>, now: Time)
    requires Guarded(cfg, s, now) && NoneComplete(s) && Lists(order, s.incoming.Keys)
    ensures var s' := HomaReceiver.Tick(cfg, s, order, now).0;
      Guarded(cfg, s', now) && NoneComplete(s') && NobodyStarves(cfg, s', now)
  {
    hide Guarded, Watched, NobodyStarves, TickFrom, Schedule;
    TickFromGuards(cfg, s, order, 0, now);
    TickFromEvolves(cfg, s, order, 0, now);
    var s1 := TickFrom(cfg, s, order, 0, now).0;
    GuardedIsWatched(cfg, s1, now, now);
    ScheduleGuards(cfg, s1, order, now);
    TickEvolves(cfg, s, order, now);
    EvolvesNoneComplete(cfg, s, HomaReceiver.Tick(cfg, s, order, now).0, HomaReceiver.Tick(cfg, s, order, now).1);
  }

  // ----- whole runs -----

  /** The input lists the map's keys, that of a new message included. */
  ghost predicate Listed(s: ReceiverState, i: Input) {
    match i
    case Arrival(src, d, order, _) => Lists(order, s.incoming.Keys + {Key(src, d.pkt.msgId)})
    case Tick(order, _) => Lists(order, s.incoming.Keys)
  }

  /** A run on a clock that does not go back. */
  ghost predicate IsTimely(cfg: Config, ss: seq<ReceiverState>, inputs: seq<Input>) {
    && |ss| == |inputs| + 1 && ss[0] == Empty
    && (forall i, j :: 0 <= i < j < |inputs| ==> inputs[i].now <= inputs[j].now)
    && forall i: nat :: i < |inputs| ==>
         Allowed(cfg, ss[i], inputs[i]) && Listed(ss[i], inputs[i]) && ss[i + 1] == Step(cfg, ss[i], inputs[i]).0
  }

  /** Not a packet that is refused. */
  predicate Heeded(cfg: Config, s: ReceiverState, i: Input) {
    i.Arrival? ==> !Refused(cfg, s, Key(i.src, i.dgram.pkt.msgId), i.dgram.pkt)
  }

  lemma StepGuards(cfg: Config, s: ReceiverState, i: Input, clock: Time)
    requires Guarded(cfg, s, clock) && NoneComplete(s) && clock <= i.now && Allowed(cfg, s, i) && Listed(s, i)
    ensures var s' := Step(cfg, s, i).0;
      Guarded(cfg, s', i.now) && NoneComplete(s') && (Heeded(cfg, s, i) ==> NobodyStarves(cfg, s', i.now))
  {
    hide Guarded, NoneComplete, NobodyStarves, HandleData, HomaReceiver.Tick, Refused, Admissible;
    GuardedIsWatched(cfg, s, clock, i.now);
    match i
    case Arrival(src, d, order, now) => DataGuards(cfg, s, src, d, order, now);
    case Tick(order, now) => TickGuards(cfg, s, order, now);
  }

  lemma {:induction false} RunGuards(cfg: Config, ss: seq<ReceiverState>, inputs: seq<Input>, n: nat)
    requires IsTimely(cfg, ss, inputs) && n < |ss|
    ensures Guarded(cfg, ss[n], if n == 0 then 0 else inputs[n - 1].now) && NoneComplete(ss[n])
  {
    hide Guarded, NoneComplete, Step, Listed, NobodyStarves, Admissible;
    if n == 0 {
      EmptyGuards(cfg);
    } else {
      RunGuards(cfg, ss, inputs, n - 1);
      assert Allowed(cfg, ss[n - 1], inputs[n - 1]) && Listed(ss[n - 1], inputs[n - 1]) && ss[n - 1 + 1] == Step(cfg, ss[n - 1], inputs[n - 1]).0;
      StepGuards(cfg, ss[n - 1], inputs[n - 1], if n == 1 then 0 else inputs[n - 2].now);
    }
  }

  lemma EmptyGuards(cfg: Config)
    ensures Guarded(cfg, Empty, 0) && NoneComplete(Empty)
  {
  }

  /** Over every run on a clock that does not go back, after every tick and every packet that is not refused:
      every message that needs credit and is not being granted was granted within the threshold. */
  lemma RunStarvesNobody(cfg: Config, ss: seq<ReceiverState>, inputs: seq<Input>, n: nat)
    requires IsTimely(cfg, ss, inputs) && n < |inputs| && Heeded(cfg, ss[n], inputs[n])
    ensures NobodyStarves(cfg, ss[n + 1], inputs[n].now)
  {
    hide Guarded, NoneComplete, Step, Listed, NobodyStarves, Heeded, Admissible;
    RunGuards(cfg, ss, inputs, n);
    assert Allowed(cfg, ss[n], inputs[n]) && Listed(ss[n], inputs[n]) && ss[n + 1] == Step(cfg, ss[n], inputs[n]).0;
    StepGuards(cfg, ss[n], inputs[n], if n == 0 then 0 else inputs[n - 1].now);
  }

  // ----- shortest first, call by call -----

  /** As many messages as are granted at once, all granted, none with more left to receive than k. */
  ghost predicate InFront(cfg: Config, s: ReceiverState, k: Key, ahead: set<Key>)
    requires k in s.incoming
  {
    && |ahead| == Max(cfg.overcommit, 1) && k !in ahead
    && forall j :: j in ahead ==> j in s.granting && j in s.incoming && s.incoming[j].Remaining() <= s.incoming[k].Remaining()
  }

  /** Whoever waits outside the granting set waits behind a full set of shorter ones. */
  ghost predicate Ranked(cfg: Config, s: ReceiverState) {
    forall k :: Waits(s, k) && k !in s.granting ==> exists ahead :: InFront(cfg, s, k, ahead)
  }

  lemma RemainingKept(cfg: Config, s: ReceiverState, s': ReceiverState, acts: seq<Action>, k: Key)
    requires Evolves(cfg, s, s', acts) && k in s'.incoming
    ensures s'.incoming[k].Remaining() == s.incoming[k].Remaining()
  {
    assert Regranted(cfg, acts, k, s.incoming[k], s'.incoming[k]);
  }

  lemma ScheduleRanks(cfg: Config, s: ReceiverState, order: seq<Key>, now: Time)
    requires Lists(order, s.incoming.Keys)
    ensures Ranked(cfg, Schedule(cfg, s, order, now).0)
  {
    hide Schedule, Evolves;
    ScheduleEvolves(cfg, s, order, now);
    var (s', acts) := Schedule(cfg, s, order, now);
    forall k | Waits(s', k) && k !in s'.granting ensures exists ahead :: InFront(cfg, s', k, ahead) {
      WaitedBefore(cfg, s, s', acts, k);
      ScheduleIsSrpt(cfg, s, order, now, k);
      var ahead :| Outranks(cfg, s.incoming, s'.granting, k, ahead);
      RemainingKept(cfg, s, s', acts, k);
      forall j | j in ahead ensures s'.incoming[j].Remaining() <= s'.incoming[k].Remaining() {
        RemainingKept(cfg, s, s', acts, j);
      }
      assert InFront(cfg, s', k, ahead);
    }
  }

  lemma {:induction false} StarveCheckRanks(cfg: Config, s: ReceiverState, order: seq<Key>, now: Time)
    requires Ranked(cfg, s) && Lists(order, s.incoming.Keys)
    ensures Ranked(cfg, StarveCheck(cfg, s, order, now).0)
    decreases |s.starveQueue|
  {
    hide Schedule, Lists;
    if s.starveQueue != [] {
      var s1 := s.(starveQueue := s.starveQueue[1..]);
      RankedAlike(cfg, s, s1);
      hide Ranked;
      ScheduleRanks(cfg, s1, order, now);
      StarveCheckRanks(cfg, s1, order, now);
    }
  }

  lemma RankedAlike(cfg: Config, s: ReceiverState, s': ReceiverState)
    requires Ranked(cfg, s) && s'.incoming == s.incoming && s'.granting == s.granting
    ensures Ranked(cfg, s')
  {
    forall k | Waits(s', k) && k !in s'.granting ensures exists ahead :: InFront(cfg, s', k, ahead) {
      assert Waits(s, k);
      var ahead :| InFront(cfg, s, k, ahead);
      assert InFront(cfg, s', k, ahead);
    }
  }

  /** After the first packet of a message, after one that finishes a message, and after a tick, the shortest messages
      are the ones being granted. */
  lemma ShortestFirst(cfg: Config, s: ReceiverState, i: Input)
    requires Allowed(cfg, s, i) && Listed(s, i)
    requires i.Arrival? ==>
      && Heeded(cfg, s, i)
      && (Key(i.src, i.dgram.pkt.msgId) !in s.incoming || Key(i.src, i.dgram.pkt.msgId) !in Step(cfg, s, i).0.incoming)
    ensures Ranked(cfg, Step(cfg, s, i).0)
  {
    hide Schedule, StarveCheck, Ranked, Evolves, Fits, TickFrom, IssueGrant;
    match i
    case Tick(order, now) =>
      TickFromEvolves(cfg, s, order, 0, now);
      KeysShrink(cfg, s, TickFrom(cfg, s, order, 0, now).0, TickFrom(cfg, s, order, 0, now).1);
      ScheduleRanks(cfg, TickFrom(cfg, s, order, 0, now).0, order, now);
    case Arrival(src, d, order, now) =>
      var key := Key(src, d.pkt.msgId);
      var s1 := Accept(cfg, s, key, d, now);
      assert s1.incoming.Keys == s.incoming.Keys + {key};
      if Finished(s1, key, d) {
        ScheduleRanks(cfg, DeliverTo(s1, key), order, now);
      } else {
        ContinueEvolves(cfg, s1, key, key !in s.incoming, order, now);
        ScheduleEvolves(cfg, s1, order, now);
        ScheduleRanks(cfg, s1, order, now);
        StarveCheckRanks(cfg, Schedule(cfg, s1, order, now).0, order, now);
      }
  }

  lemma KeysShrink(cfg: Config, s: ReceiverState, s': ReceiverState, acts: seq<Action>)
    requires Evolves(cfg, s, s', acts)
    ensures s'.incoming.Keys <= s.incoming.Keys
  {
  }
}
