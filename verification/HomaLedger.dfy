/** What a receiver keeps over any sequence of packets and ticks, whoever sent the packets: its
    credit discipline, and its memory of what it has delivered. */
module HomaLedger {
  import opened Bytes
  import opened HomaPacket
  import opened HomaTypes
  import opened HomaReceiver
  import opened HomaCredit

  datatype Input =
    | Arrival(src: Addr, dgram: Datagram, order: seq<Key>, now: Time)
    | Tick(order: seq<Key>, now: Time)

  ghost predicate Allowed(cfg: Config, s: ReceiverState, i: Input) {
    i.Arrival? ==> Admissible(cfg, s, i.src, i.dgram, i.now)
  }

  function Step(cfg: Config, s: ReceiverState, i: Input): (ReceiverState, seq<Action>)
    requires i.Arrival? ==> Admissible(cfg, s, i.src, i.dgram, i.now)
  {
    match i
    case Arrival(src, d, order, now) => HandleData(cfg, s, src, d, order, now)
    case Tick(order, now) => HomaReceiver.Tick(cfg, s, order, now)
  }

  // ----- credit -----

  /** Credit stays inside the message and within an increment of what has arrived. */
  ghost predicate Disciplined(cfg: Config, m: InMsg) {
    && m.grantedTo <= m.totalLen
    && m.grantedTo <= Max(cfg.unscheduledBytes, m.receivedBytes + cfg.grantIncrement)
  }

  ghost predicate AllDisciplined(cfg: Config, s: ReceiverState) {
    forall k :: k in s.incoming ==> Disciplined(cfg, s.incoming[k])
  }

  /** Messages that stay keep their length and lose neither bytes nor credit. */
  ghost predicate Grows(s: ReceiverState, s': ReceiverState) {
    forall k :: k in s.incoming && k in s'.incoming ==>
      && s'.incoming[k].totalLen == s.incoming[k].totalLen
      && s'.incoming[k].receivedBytes >= s.incoming[k].receivedBytes
      && s'.incoming[k].grantedTo >= s.incoming[k].grantedTo
  }

  lemma EvolvesDisciplined(cfg: Config, s: ReceiverState, s': ReceiverState, acts: seq<Action>)
    requires AllDisciplined(cfg, s) && Evolves(cfg, s, s', acts)
    ensures AllDisciplined(cfg, s') && Grows(s, s')
  {
    forall k | k in s'.incoming
      ensures Disciplined(cfg, s'.incoming[k])
      ensures s'.incoming[k].grantedTo >= s.incoming[k].grantedTo
      ensures s'.incoming[k].totalLen == s.incoming[k].totalLen
      ensures s'.incoming[k].receivedBytes >= s.incoming[k].receivedBytes
    {
      assert Regranted(cfg, acts, k, s.incoming[k], s'.incoming[k]);
    }
  }

  lemma AcceptDisciplined(cfg: Config, s: ReceiverState, k: Key, d: Datagram, now: Time)
    requires AllDisciplined(cfg, s) && Fits(cfg, MsgFor(cfg, s, k, d.pkt, now), d)
    ensures AllDisciplined(cfg, Accept(cfg, s, k, d, now)) && Grows(s, Accept(cfg, s, k, d, now))
  {
  }

  /** Credit discipline at the receiver, one input at a time: within one incarnation of a message
      the credit never decreases, never exceeds the message, and never exceeds the larger of the
      unscheduled window and an increment past the bytes received. */
  lemma CreditDiscipline(cfg: Config, s: ReceiverState, i: Input)
    requires AllDisciplined(cfg, s) && Allowed(cfg, s, i)
    ensures var s' := Step(cfg, s, i).0; AllDisciplined(cfg, s') && Grows(s, s')
  {
    match i
    case Tick(order, now) =>
      TickEvolves(cfg, s, order, now);
      var (s', acts) := HomaReceiver.Tick(cfg, s, order, now);
      EvolvesDisciplined(cfg, s, s', acts);
    case Arrival(src, d, order, now) =>
      var k := Key(src, d.pkt.msgId);
      if !Refused(cfg, s, k, d.pkt) {
        AcceptDisciplined(cfg, s, k, d, now);
        var s1 := Accept(cfg, s, k, d, now);
        if Finished(s1, k, d) {
          var s2 := DeliverTo(s1, k);
          ScheduleEvolves(cfg, s2, order, now);
          var (s3, acts) := Schedule(cfg, s2, order, now);
          EvolvesDisciplined(cfg, s2, s3, acts);
        } else {
          ContinueEvolves(cfg, s1, k, k !in s.incoming, order, now);
          var (s3, acts) := Continue(cfg, s1, k, k !in s.incoming, order, now);
          EvolvesDisciplined(cfg, s1, s3, acts);
        }
      }
  }

  // ----- what has been delivered -----

  /** The keys of the messages handed out, in order. */
  function Handed(acts: seq<Action>): seq<Key> {
    if acts == [] then [] else HandedBy(acts[0]) + Handed(acts[1..])
  }

  function HandedBy(a: Action): seq<Key> {
    match a case Deliver(src, id, _) => [Key(src, id)] case Send(_, _) => []
  }

  /** The last n elements, or all of them. */
  function LastOf(log: seq<Key>, n: nat): seq<Key> {
    log[|log| - Min(n, |log|)..]
  }

  /** No message is handed out twice within COMPLETED_CACHE + 1 deliveries. */
  ghost predicate Spaced(log: seq<Key>) {
    forall i, j :: 0 <= i < j < |log| && j - i <= COMPLETED_CACHE ==> log[i] != log[j]
  }

  /** The receiver remembers exactly the last COMPLETED_CACHE deliveries of log, and is receiving
      none of them. */
  ghost predicate Remembers(s: ReceiverState, log: seq<Key>) {
    && s.completedOrder == LastOf(log, COMPLETED_CACHE)
    && (forall k :: k in s.completed <==> k in s.completedOrder)
    && (forall k :: k in s.incoming ==> k !in s.completed)
    && Spaced(log)
  }

  lemma {:induction false} SendsHandNothing(acts: seq<Action>)
    requires forall a :: a in acts ==> a.Send?
    ensures Handed(acts) == []
  {
    if acts != [] { SendsHandNothing(acts[1..]); }
  }

  lemma EvolvesRemembers(cfg: Config, s: ReceiverState, s': ReceiverState, acts: seq<Action>, log: seq<Key>)
    requires Remembers(s, log) && Evolves(cfg, s, s', acts)
    ensures Remembers(s', log) && Handed(acts) == []
  {
    SendsHandNothing(acts);
  }

  /** Remembering one more delivery, and forgetting the oldest if need be. */
  lemma RememberOne(log: seq<Key>, k: Key)
    requires Spaced(log) && k !in LastOf(log, COMPLETED_CACHE)
    ensures Spaced(log + [k])
    ensures var remembered := LastOf(log, COMPLETED_CACHE) + [k];
      && LastOf(log + [k], COMPLETED_CACHE) == (if |remembered| > COMPLETED_CACHE then remembered[1..] else remembered)
      && (|remembered| > COMPLETED_CACHE ==> remembered[0] !in remembered[1..])
  {
    var kept, log' := LastOf(log, COMPLETED_CACHE), log + [k];
    var remembered := kept + [k];
    forall i | 0 <= i < |log| && |log| - i <= COMPLETED_CACHE ensures log[i] != k {
      assert log[i] == kept[i - (|log| - |kept|)];
    }
    if |remembered| > COMPLETED_CACHE {
      var b := |log'| - |remembered|;
      assert log'[b] == remembered[0];
      forall i | 0 <= i < |remembered[1..]| ensures remembered[1..][i] != remembered[0] {
        assert log'[b + i + 1] == remembered[1..][i];
      }
    }
  }

  lemma DeliverRemembers(s: ReceiverState, log: seq<Key>, k: Key)
    requires Remembers(s.(incoming := s.incoming - {k}), log) && k !in s.completed
    ensures Remembers(DeliverTo(s, k), log + [k])
  {
    hide Spaced, LastOf, Without;
    RememberOne(log, k);
    var remembered := s.completedOrder + [k];
    assert remembered == [remembered[0]] + remembered[1..];
    forall j ensures j in DeliverTo(s, k).completed <==> j in DeliverTo(s, k).completedOrder {
      assert j in remembered <==> j in s.completedOrder || j == k;
    }
  }

  lemma StepRemembers(cfg: Config, s: ReceiverState, i: Input, log: seq<Key>)
    requires Remembers(s, log) && Allowed(cfg, s, i)
    ensures var (s', acts) := Step(cfg, s, i); Remembers(s', log + Handed(acts))
  {
    match i
    case Tick(order, now) =>
      TickEvolves(cfg, s, order, now);
      var (s', acts) := HomaReceiver.Tick(cfg, s, order, now);
      EvolvesRemembers(cfg, s, s', acts, log);
      assert log + [] == log;
    case Arrival(src, d, order, now) =>
      PacketRemembers(cfg, s, src, d, order, now, log);
  }

  lemma FinishRemembers(cfg: Config, s: ReceiverState, k: Key, data: seq<Byte>, order: seq<Key>, now: Time, log: seq<Key>)
    requires Remembers(s.(incoming := s.incoming - {k}), log) && k !in s.completed
    ensures var (s', rest) := Schedule(cfg, DeliverTo(s, k), order, now);
      Remembers(s', log + Handed([Deliver(k.peer, k.id, data)] + rest))
  {
    hide Remembers, DeliverTo, Schedule;
    DeliverRemembers(s, log, k);
    var s2 := DeliverTo(s, k);
    ScheduleEvolves(cfg, s2, order, now);
    var (s3, rest) := Schedule(cfg, s2, order, now);
    EvolvesRemembers(cfg, s2, s3, rest, log + [k]);
    var acts := [Deliver(k.peer, k.id, data)] + rest;
    assert acts[1..] == rest;
    assert Handed(acts) == [k] + Handed(rest) == [k];
  }

  lemma AcceptRemembers(cfg: Config, s: ReceiverState, k: Key, d: Datagram, now: Time, log: seq<Key>)
    requires Remembers(s, log) && Fits(cfg, MsgFor(cfg, s, k, d.pkt, now), d) && k !in s.completed
    ensures var s1 := Accept(cfg, s, k, d, now);
      && s1.completed == s.completed
      && Remembers(s1, log) && Remembers(s1.(incoming := s1.incoming - {k}), log)
  {
    hide Store, MsgFor, Spaced, LastOf;
  }

  lemma PacketRemembers(cfg: Config, s: ReceiverState, src: Addr, d: Datagram, order: seq<Key>, now: Time, log: seq<Key>)
    requires Remembers(s, log) && Admissible(cfg, s, src, d, now)
    ensures var (s', acts) := HandleData(cfg, s, src, d, order, now); Remembers(s', log + Handed(acts))
  {
    hide Remembers, Continue, DeliverTo, Schedule, Store, Push;
    var k := Key(src, d.pkt.msgId);
    assert log + [] == log;
    if Refused(cfg, s, k, d.pkt) {
      SendsHandNothing(RefusalSends(cfg, s, k, d.pkt));
    } else {
      AcceptRemembers(cfg, s, k, d, now, log);
      var s1 := Accept(cfg, s, k, d, now);
      if Finished(s1, k, d) {
        FinishRemembers(cfg, s1, k, if d.pkt.msgLen == 0 then [] else s1.incoming[k].buf, order, now, log);
      } else {
        ContinueEvolves(cfg, s1, k, k !in s.incoming, order, now);
        var (s3, acts) := Continue(cfg, s1, k, k !in s.incoming, order, now);
        EvolvesRemembers(cfg, s1, s3, acts, log);
      }
    }
  }

  // ----- whole runs -----

  /** The states a receiver passes through from its start, and its deliveries so far at each. */
  ghost predicate IsReception(cfg: Config, ss: seq<ReceiverState>, logs: seq<seq<Key>>, inputs: seq<Input>) {
    && |ss| == |logs| == |inputs| + 1
    && ss[0] == Empty && logs[0] == []
    && forall i :: 0 <= i < |inputs| ==>
         && Allowed(cfg, ss[i], inputs[i])
         && var (s', acts) := Step(cfg, ss[i], inputs[i]);
            ss[i + 1] == s' && logs[i + 1] == logs[i] + Handed(acts)
  }

  /** At most once, within the window: over every run, what is remembered is exactly the last
      deliveries, none of them is being received again, and any two deliveries of the same message
      are more than COMPLETED_CACHE deliveries apart. */
  lemma {:induction false} AtMostOnce(cfg: Config, ss: seq<ReceiverState>, logs: seq<seq<Key>>, inputs: seq<Input>, n: nat)
    requires IsReception(cfg, ss, logs, inputs) && n < |ss|
    ensures Remembers(ss[n], logs[n]) && AllDisciplined(cfg, ss[n])
  {
    hide Remembers, Step, AllDisciplined, Handed;
    if n == 0 {
      NothingYet(cfg);
    } else {
      AtMostOnce(cfg, ss, logs, inputs, n - 1);
      assert Allowed(cfg, ss[n - 1], inputs[n - 1]) && ss[n - 1 + 1] == Step(cfg, ss[n - 1], inputs[n - 1]).0
          && logs[n - 1 + 1] == logs[n - 1] + Handed(Step(cfg, ss[n - 1], inputs[n - 1]).1);
      StepRemembers(cfg, ss[n - 1], inputs[n - 1], logs[n - 1]);
      CreditDiscipline(cfg, ss[n - 1], inputs[n - 1]);
    }
  }

  lemma NothingYet(cfg: Config)
    ensures Remembers(Empty, []) && AllDisciplined(cfg, Empty)
  {
  }
}
