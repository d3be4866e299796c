/** The other side of connection affinity: a flow that has been idle for longer than the timeout, or is new, goes
    where the current table says, and a sweep removes it. */
module EdgeExpiry {
  import opened Bytes
  import opened Lru
  import opened Edge
  import opened MaglevTable
  import opened EdgeAffinity

  /** Whatever the table holds for flow f was last used at that time (for None, it holds nothing). */
  ghost predicate Seen(conns: seq<Conn>, f: FiveTuple, last: Option<nat>) {
    forall i: nat :: i < |conns| && conns[i].key == f ==> last == Some(conns[i].entry.lastSeen)
  }

  lemma FilterSeen(conns: seq<Conn>, rule: Rule, f: FiveTuple, last: Option<nat>)
    requires Seen(conns, f, last)
    ensures Seen(Filter(conns, rule), f, last)
  {
    hide Filter;
    forall i: nat | i < |Filter(conns, rule)| && Filter(conns, rule)[i].key == f
      ensures last == Some(Filter(conns, rule)[i].entry.lastSeen)
    {
      FilterFrom(conns, rule, i);
    }
  }

  /** Without a flow's connections nothing of it is left. */
  lemma OthersUnseen(conns: seq<Conn>, f: FiveTuple)
    ensures Seen(Others(conns, f), f, None)
  {
    hide Filter;
    forall i: nat | i < |Others(conns, f)| ensures Others(conns, f)[i].key != f {
      FilterFrom(conns, NotKey(f), i);
    }
  }

  lemma {:induction false} FindSeen(conns: seq<Conn>, f: FiveTuple, last: Option<nat>)
    requires Seen(conns, f, last) && Find(conns, f).Some?
    ensures last == Some(Find(conns, f).value.lastSeen)
  {
    var n := |conns| - 1;
    if conns[n].key != f {
      assert Seen(conns[..n], f, last);
      FindSeen(conns[..n], f, last);
    }
  }

  lemma UnseenIsNone(conns: seq<Conn>, f: FiveTuple)
    requires Find(conns, f).None?
    ensures Seen(conns, f, None)
  {
    FindNone(conns, f);
  }

  /** Looking up and inserting another flow. */
  lemma OtherFlowSeen(conns: seq<Conn>, capacity: nat, timeout: nat, key: FiveTuple, entry: Entry, f: FiveTuple, last: Option<nat>)
    requires Seen(conns, f, last) && key != f && capacity > 0
    ensures var conns', found := Lookup(conns, timeout, key, entry.lastSeen).0, Lookup(conns, timeout, key, entry.lastSeen).1;
      Seen(conns', f, last) && Seen(Insert(conns', capacity, key, entry), f, last)
  {
    hide Filter, Find, Expired;
    FilterSeen(conns, NotKey(key), f, last);
    var conns' := Lookup(conns, timeout, key, entry.lastSeen).0;
    FilterSeen(conns', NotKey(key), f, last);
  }

  /** Looking up and, after a miss, inserting the flow itself. */
  lemma OwnFlowSeen(conns: seq<Conn>, capacity: nat, timeout: nat, f: FiveTuple, backend: nat, now: nat)
    requires capacity > 0
    ensures var conns', found := Lookup(conns, timeout, f, now).0, Lookup(conns, timeout, f, now).1;
      && (found.Some? ==> Seen(conns', f, Some(now)))
      && (found.None? ==> Seen(Insert(conns', capacity, f, Entry(backend, now)), f, Some(now)))
  {
    hide Filter, Expired;
    OthersUnseen(conns, f);
    var conns' := Lookup(conns, timeout, f, now).0;
    OthersUnseen(conns', f);
    if Find(conns', f).None? { UnseenIsNone(conns', f); }
    hide Find, Others;
  }

  /** When the latest packet of flow f that was forwarded before event k arrived. */
  ghost function LastPacket(es: seq<Event>, f: FiveTuple, k: nat): Option<nat>
    requires k <= |es|
  {
    if k == 0 then None
    else if Of(es, f, k - 1) then Some(es[k - 1].now)
    else LastPacket(es, f, k - 1)
  }

  lemma NextSeen(cfg: Config, s: State, e: Event, f: FiveTuple, last: Option<nat>)
    requires Good(cfg, s) && Seen(s.conns, f, last)
    ensures Seen(Next(cfg, s, e).conns, f, if Admitted(e) && e.tuple == f then Some(e.now) else last)
  {
    hide Seen, Lookup, Insert, Filter, Fits, Pick;
    match e
    case Packet(tuple, now, _, _) =>
      if Admitted(e) {
        var backend := Pick(s.table, s.backends, cfg.hash(tuple));
        if tuple == f {
          OwnFlowSeen(s.conns, cfg.capacity, cfg.timeout, f, backend, now);
        } else {
          OtherFlowSeen(s.conns, cfg.capacity, cfg.timeout, tuple, Entry(backend, now), f, last);
        }
      }
    case SweepAt(now) => FilterSeen(s.conns, Live(now, cfg.timeout), f, last);
    case _ =>
  }

  /** Over every run the time kept for a flow is that of its latest packet. */
  lemma {:induction false} RunSeen(cfg: Config, run: seq<State>, es: seq<Event>, f: FiveTuple, k: nat)
    requires IsRun(cfg, run, es) && k < |run|
    ensures Seen(run[k].conns, f, LastPacket(es, f, k))
  {
    hide Next, Good, Admitted;
    if k > 0 {
      RunSeen(cfg, run, es, f, k - 1);
      NextSeen(cfg, run[k - 1], es[k - 1], f, LastPacket(es, f, k - 1));
      hide Seen;
    }
  }

  /** Flow f has no packet before event k, or its latest is longer ago at time now than the timeout. */
  ghost predicate Idle(cfg: Config, es: seq<Event>, f: FiveTuple, k: nat, now: nat)
    requires k <= |es|
  {
    LastPacket(es, f, k).Some? ==> LastPacket(es, f, k).value + cfg.timeout < now
  }

  /** The dual of affinity: over every run a packet of a flow that is new, or has been idle for longer than the
      timeout, goes to the backend that owns its slot in the table of the moment. */
  lemma IdleIsRouted(cfg: Config, run: seq<State>, es: seq<Event>, f: FiveTuple, k: nat, i: nat)
    requires IsRun(cfg, run, es) && k < |es| && Of(es, f, k) && Idle(cfg, es, f, k, es[k].now)
    requires run[k].table != [] && Answers(run[k].table, cfg.hash(f), i)
    ensures i < |run[k].backends| && Backend(cfg, run[k], es[k]) == run[k].backends[i]
  {
    RunSeen(cfg, run, es, f, k);
    hide Next, Seen, Answers, Pick, Insert;
    var s := run[k];
    if Find(s.conns, f).Some? { FindSeen(s.conns, f, LastPacket(es, f, k)); }
    PickIsOwner(s.table, s.backends, cfg.hash(f), i);
  }

  /** And a sweep leaves nothing of such a flow. */
  lemma IdleIsSwept(cfg: Config, run: seq<State>, es: seq<Event>, f: FiveTuple, k: nat)
    requires IsRun(cfg, run, es) && k < |es| && es[k].SweepAt? && Idle(cfg, es, f, k, es[k].now)
    ensures forall c :: c in run[k + 1].conns ==> c.key != f
  {
    RunSeen(cfg, run, es, f, k);
    var conns, rule := run[k].conns, Live(es[k].now, cfg.timeout);
    assert run[k + 1] == Next(cfg, run[k], es[k]);
    forall i: nat | i < |Filter(conns, rule)| ensures Filter(conns, rule)[i].key != f {
      FilterFrom(conns, rule, i);
    }
  }
}
