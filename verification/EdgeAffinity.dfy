/** Connection affinity: what keeps a flow on its backend while backends and tables change. */
module EdgeAffinity {
  import opened Bytes
  import opened Lru
  import opened Edge
  import opened MaglevTable
  import Maglev

  // ----- the table keeps its keys apart -----

  ghost predicate UniqueKeys(conns: seq<Conn>) {
    forall i: nat, j: nat :: i < j < |conns| ==> conns[i].key != conns[j].key
  }

  ghost predicate Bounded(conns: seq<Conn>, capacity: nat) {
    UniqueKeys(conns) && |conns| <= capacity
  }

  lemma {:induction false} FilterFrom(conns: seq<Conn>, rule: Rule, i: nat)
    requires i < |Filter(conns, rule)|
    ensures Keeps(rule, Filter(conns, rule)[i])
    ensures exists k: nat :: k < |conns| && conns[k] == Filter(conns, rule)[i]
  {
    hide Keeps;
    var n := |conns| - 1;
    if i < |Filter(conns[..n], rule)| {
      FilterFrom(conns[..n], rule, i);
      var k: nat :| k < n && conns[..n][k] == Filter(conns[..n], rule)[i];
      assert conns[k] == Filter(conns, rule)[i];
    } else {
      assert conns[n] == Filter(conns, rule)[i];
    }
  }

  lemma {:induction false} FilterUnique(conns: seq<Conn>, rule: Rule)
    requires UniqueKeys(conns)
    ensures UniqueKeys(Filter(conns, rule))
  {
    hide Keeps;
    if conns != [] {
      var n := |conns| - 1;
      FilterUnique(conns[..n], rule);
      forall i: nat | i < |Filter(conns[..n], rule)| ensures Filter(conns[..n], rule)[i].key != conns[n].key {
        FilterFrom(conns[..n], rule, i);
      }
    }
  }

  // ----- where a flow is in the table -----

  /** The flow is at position p with this entry, and only flows in ahead have been used since. */
  ghost predicate Tracked(conns: seq<Conn>, c: Conn, ahead: set<FiveTuple>, p: nat) {
    p < |conns| && conns[p] == c && forall i: nat :: i < p ==> conns[i].key in ahead
  }

  ghost predicate Held(conns: seq<Conn>, c: Conn, ahead: set<FiveTuple>) {
    exists p: nat :: Tracked(conns, c, ahead, p)
  }

  lemma {:induction false} FilterTracks(conns: seq<Conn>, rule: Rule, c: Conn, ahead: set<FiveTuple>, p: nat)
    requires Tracked(conns, c, ahead, p) && Keeps(rule, c)
    ensures exists q: nat :: Tracked(Filter(conns, rule), c, ahead, q)
  {
    hide Keeps;
    var n := |conns| - 1;
    var front := Filter(conns[..n], rule);
    if p < n {
      FilterTracks(conns[..n], rule, c, ahead, p);
      var q: nat :| Tracked(front, c, ahead, q);
      assert Tracked(Filter(conns, rule), c, ahead, q);
    } else {
      forall i: nat | i < |front| ensures front[i].key in ahead {
        FilterFrom(conns[..n], rule, i);
      }
      assert Tracked(Filter(conns, rule), c, ahead, |front|);
    }
  }

  lemma {:induction false} FindTracked(conns: seq<Conn>, c: Conn, ahead: set<FiveTuple>, p: nat)
    requires Tracked(conns, c, ahead, p) && UniqueKeys(conns)
    ensures Find(conns, c.key) == Some(c.entry)
  {
    var n := |conns| - 1;
    if p < n {
      FindTracked(conns[..n], c, ahead, p);
    }
  }

  lemma {:induction false} FindNone(conns: seq<Conn>, key: FiveTuple)
    requires Find(conns, key).None?
    ensures forall i: nat :: i < |conns| ==> conns[i].key != key
  {
    if conns != [] {
      FindNone(conns[..|conns| - 1], key);
    }
  }

  /** Different flows ahead of position p are at least p. */
  lemma {:induction false} AheadCounts(conns: seq<Conn>, ahead: set<FiveTuple>, p: nat)
    requires UniqueKeys(conns) && p <= |conns| && forall i: nat :: i < p ==> conns[i].key in ahead
    ensures p <= |ahead|
  {
    if p > 0 {
      AheadCounts(conns, ahead - {conns[p - 1].key}, p - 1);
    }
  }

  // ----- what each operation does to a tracked flow -----

  lemma LookupBounded(conns: seq<Conn>, capacity: nat, timeout: nat, key: FiveTuple, now: nat)
    requires Bounded(conns, capacity)
    ensures Bounded(Lookup(conns, timeout, key, now).0, capacity)
  {
    FilterUnique(conns, NotKey(key));
    OthersFewer(conns, key);
    forall i: nat | i < |Others(conns, key)| ensures Others(conns, key)[i].key != key {
      FilterFrom(conns, NotKey(key), i);
    }
    hide Filter, Find;
  }

  lemma {:induction false} OthersFewer(conns: seq<Conn>, key: FiveTuple)
    ensures Find(conns, key).Some? ==> |Others(conns, key)| < |conns|
  {
    if conns != [] {
      OthersFewer(conns[..|conns| - 1], key);
    }
  }

  lemma InsertBounded(conns: seq<Conn>, capacity: nat, key: FiveTuple, entry: Entry)
    requires Bounded(conns, capacity) && capacity > 0
    ensures Bounded(Insert(conns, capacity, key, entry), capacity)
  {
    FilterUnique(conns, NotKey(key));
    OthersFewer(conns, key);
    forall i: nat | i < |Others(conns, key)| ensures Others(conns, key)[i].key != key {
      FilterFrom(conns, NotKey(key), i);
    }
    if Find(conns, key).None? { FindNone(conns, key); }
    hide Filter, Find;
  }

  lemma FrontHolds(conns: seq<Conn>, x: Conn, c: Conn, ahead: set<FiveTuple>)
    requires Held(conns, c, ahead)
    ensures Held([x] + conns, c, ahead + {x.key})
  {
    var p: nat :| Tracked(conns, c, ahead, p);
    assert Tracked([x] + conns, c, ahead + {x.key}, p + 1);
  }

  lemma OthersHold(conns: seq<Conn>, key: FiveTuple, c: Conn, ahead: set<FiveTuple>)
    requires Held(conns, c, ahead) && c.key != key
    ensures Held(Others(conns, key), c, ahead)
  {
    hide Filter;
    var p: nat :| Tracked(conns, c, ahead, p);
    FilterTracks(conns, NotKey(key), c, ahead, p);
  }

  /** A lookup of another flow puts nothing ahead, unless it finds that flow. */
  lemma LookupHolds(conns: seq<Conn>, timeout: nat, key: FiveTuple, now: nat, c: Conn, ahead: set<FiveTuple>)
    requires Held(conns, c, ahead) && c.key != key
    ensures var (conns', found) := Lookup(conns, timeout, key, now);
      Held(conns', c, if found.Some? then ahead + {key} else ahead)
  {
    hide Held, Others, Find, Expired;
    OthersHold(conns, key, c, ahead);
    var (conns', found) := Lookup(conns, timeout, key, now);
    if found.Some? {
      FrontHolds(Others(conns, key), Conn(key, found.value.(lastSeen := now)), c, ahead);
    }
  }

  /** Inserting another flow does not push it out as long as the flows used since, with the new one,
      are fewer than the capacity. */
  lemma InsertHolds(conns: seq<Conn>, capacity: nat, key: FiveTuple, entry: Entry, c: Conn, ahead: set<FiveTuple>)
    requires Bounded(conns, capacity) && capacity > 0 && Held(conns, c, ahead) && c.key != key
    requires |ahead + {key}| < capacity
    ensures Held(Insert(conns, capacity, key, entry), c, ahead + {key})
  {
    hide Held, Others, Find;
    if Find(conns, key).Some? {
      OthersHold(conns, key, c, ahead);
      FrontHolds(Others(conns, key), Conn(key, entry), c, ahead);
    } else if |conns| >= capacity {
      NotLast(conns, key, c, ahead);
      FrontHolds(conns[..|conns| - 1], Conn(key, entry), c, ahead);
    } else {
      FrontHolds(conns, Conn(key, entry), c, ahead);
    }
  }

  /** With fewer flows ahead than there are others, the flow is not the last in the table. */
  lemma NotLast(conns: seq<Conn>, key: FiveTuple, c: Conn, ahead: set<FiveTuple>)
    requires UniqueKeys(conns) && Held(conns, c, ahead) && Find(conns, key).None? && |ahead + {key}| < |conns|
    ensures Held(conns[..|conns| - 1], c, ahead)
  {
    var p: nat :| Tracked(conns, c, ahead, p);
    FindNone(conns, key);
    hide Find;
    AheadCounts(conns, (ahead + {key}) - {key}, p);
    assert Tracked(conns[..|conns| - 1], c, ahead, p);
  }

  /** A sweep keeps a flow that has not been idle too long, and puts nothing ahead of it. */
  lemma SweepHolds(conns: seq<Conn>, timeout: nat, now: nat, c: Conn, ahead: set<FiveTuple>)
    requires Held(conns, c, ahead) && !Expired(c.entry, now, timeout)
    ensures Held(Sweep(conns, timeout, now), c, ahead)
  {
    hide Filter;
    var p: nat :| Tracked(conns, c, ahead, p);
    FilterTracks(conns, Live(now, timeout), c, ahead, p);
  }

  // ----- whole runs -----

  ghost predicate IsRun(cfg: Config, run: seq<State>, es: seq<Event>) {
    && |run| == |es| + 1
    && Good(cfg, run[0]) && run[0].conns == []
    && forall k: nat :: k < |es| ==> Good(cfg, run[k]) && run[k + 1] == Next(cfg, run[k], es[k])
  }

  lemma NextBounded(cfg: Config, s: State, e: Event)
    requires Good(cfg, s) && Bounded(s.conns, cfg.capacity)
    ensures Good(cfg, Next(cfg, s, e)) && Bounded(Next(cfg, s, e).conns, cfg.capacity)
  {
    hide Bounded, Lookup, Insert, Filter, Fits;
    match e
    case Packet(tuple, now, _, _) =>
      LookupBounded(s.conns, cfg.capacity, cfg.timeout, tuple, now);
      InsertBounded(Lookup(s.conns, cfg.timeout, tuple, now).0, cfg.capacity, tuple,
                    Entry(Pick(s.table, s.backends, cfg.hash(tuple)), now));
    case SweepAt(now) => SweepBounded(s.conns, cfg.capacity, cfg.timeout, now);
    case _ =>
  }

  lemma SweepBounded(conns: seq<Conn>, capacity: nat, timeout: nat, now: nat)
    requires Bounded(conns, capacity)
    ensures Bounded(Sweep(conns, timeout, now), capacity)
  {
    FilterUnique(conns, Live(now, timeout));
  }

  lemma {:induction false} RunBounded(cfg: Config, run: seq<State>, es: seq<Event>, k: nat)
    requires IsRun(cfg, run, es) && k < |run|
    ensures Good(cfg, run[k]) && Bounded(run[k].conns, cfg.capacity)
  {
    hide Next, Good;
    if k > 0 {
      RunBounded(cfg, run, es, k - 1);
      NextBounded(cfg, run[k - 1], es[k - 1]);
    }
  }

  predicate Timed(e: Event) {
    e.Packet? || e.SweepAt?
  }

  /** The clock does not go back. */
  ghost predicate Clock(es: seq<Event>) {
    forall i: nat, j: nat :: i < j < |es| && Timed(es[i]) && Timed(es[j]) ==> es[i].now <= es[j].now
  }

  /** Event k is a packet of flow f that is forwarded. */
  predicate Of(es: seq<Event>, f: FiveTuple, k: nat)
    requires k < |es|
  {
    Admitted(es[k]) && es[k].tuple == f
  }

  /** The other flows that reach the table between events a and b. */
  ghost function Rivals(es: seq<Event>, f: FiveTuple, a: nat, b: nat): set<FiveTuple>
    requires b <= |es|
    decreases b
  {
    if b <= a + 1 then {}
    else Rivals(es, f, a, b - 1) + if Admitted(es[b - 1]) && es[b - 1].tuple != f then {es[b - 1].tuple} else {}
  }

  /** Events a and b are consecutive forwarded packets of flow f. */
  ghost predicate Consecutive(es: seq<Event>, f: FiveTuple, a: nat, b: nat)
    requires b < |es|
  {
    a < b && Of(es, f, a) && Of(es, f, b) && forall k: nat :: a < k < b ==> !Of(es, f, k)
  }

  /** Where a forwarded packet goes. */
  ghost function Backend(cfg: Config, s: State, e: Event): nat
    requires Good(cfg, s) && Admitted(e)
  {
    Process(cfg, s, e).1.backend
  }

  /** After a packet of a flow is forwarded, the flow is at the front with that backend and time. */
  lemma ForwardHolds(cfg: Config, s: State, e: Event)
    requires Good(cfg, s) && Admitted(e)
    ensures Held(Next(cfg, s, e).conns, Conn(e.tuple, Entry(Backend(cfg, s, e), e.now)), {})
  {
    hide Find, Others, Expired, Fits, Pick;
    assert Tracked(Next(cfg, s, e).conns, Conn(e.tuple, Entry(Backend(cfg, s, e), e.now)), {}, 0);
  }

  /** Any other event leaves it in the table, with the same entry. */
  lemma NextHolds(cfg: Config, s: State, e: Event, c: Conn, ahead: set<FiveTuple>)
    requires Good(cfg, s) && Bounded(s.conns, cfg.capacity) && Held(s.conns, c, ahead)
    requires Admitted(e) ==> e.tuple != c.key && |ahead + {e.tuple}| < cfg.capacity
    requires e.SweepAt? ==> !Expired(c.entry, e.now, cfg.timeout)
    ensures Held(Next(cfg, s, e).conns, c, if Admitted(e) then ahead + {e.tuple} else ahead)
  {
    hide Held, Bounded, Lookup, Insert, Filter, Fits, Expired;
    match e
    case Packet(tuple, now, _, _) =>
      if Admitted(e) {
        LookupBounded(s.conns, cfg.capacity, cfg.timeout, tuple, now);
        LookupHolds(s.conns, cfg.timeout, tuple, now, c, ahead);
        var (conns, found) := Lookup(s.conns, cfg.timeout, tuple, now);
        if found.None? {
          InsertHolds(conns, cfg.capacity, tuple, Entry(Pick(s.table, s.backends, cfg.hash(tuple)), now), c, ahead);
        }
      }
    case SweepAt(now) => SweepHolds(s.conns, cfg.timeout, now, c, ahead);
    case _ =>
  }

  /** Found again in time, it goes to the same backend. */
  lemma HitForwards(cfg: Config, s: State, e: Event, c: Conn, ahead: set<FiveTuple>)
    requires Good(cfg, s) && Bounded(s.conns, cfg.capacity) && Held(s.conns, c, ahead)
    requires Admitted(e) && e.tuple == c.key && !Expired(c.entry, e.now, cfg.timeout)
    ensures Backend(cfg, s, e) == c.entry.backend
  {
    var p: nat :| Tracked(s.conns, c, ahead, p);
    FindTracked(s.conns, c, ahead, p);
    hide Find, Tracked, Others, Fits;
  }

  lemma {:induction false} RivalsGrow(es: seq<Event>, f: FiveTuple, a: nat, k: nat, b: nat)
    requires k <= b <= |es|
    ensures Rivals(es, f, a, k) <= Rivals(es, f, a, b)
    decreases b
  {
    hide Admitted;
    if k < b {
      RivalsGrow(es, f, a, k, b - 1);
    }
  }

  /** The flow's packets a and b are close enough: no longer apart than the timeout, and fewer other
      flows reach the table in between than it has room for. */
  ghost predicate Close(cfg: Config, es: seq<Event>, f: FiveTuple, a: nat, b: nat)
    requires a < b < |es| && Of(es, f, a) && Of(es, f, b)
  {
    && (es[b].now > es[a].now ==> es[b].now - es[a].now <= cfg.timeout)
    && |Rivals(es, f, a, b)| < cfg.capacity
  }

  /** What is in the table for the flow after its packet a: that packet's backend and time. */
  ghost function Mark(cfg: Config, run: seq<State>, es: seq<Event>, a: nat): Conn
    requires IsRun(cfg, run, es) && a < |es| && Admitted(es[a])
  {
    Conn(es[a].tuple, Entry(Backend(cfg, run[a], es[a]), es[a].now))
  }

  lemma NotYetExpired(es: seq<Event>, timeout: nat, a: nat, k: nat, b: nat, backend: nat)
    requires Clock(es) && a < k < b < |es| && Timed(es[a]) && Timed(es[k]) && Timed(es[b])
    requires es[b].now > es[a].now ==> es[b].now - es[a].now <= timeout
    ensures !Expired(Entry(backend, es[a].now), es[k].now, timeout)
  {
  }

  lemma RivalsFit(cfg: Config, es: seq<Event>, f: FiveTuple, a: nat, b: nat, k: nat)
    requires b < |es| && Consecutive(es, f, a, b) && Close(cfg, es, f, a, b) && a + 1 < k <= b
    ensures var e := es[k - 1];
      && (Admitted(e) ==> e.tuple != f && Rivals(es, f, a, k) == Rivals(es, f, a, k - 1) + {e.tuple})
      && (!Admitted(e) ==> Rivals(es, f, a, k) == Rivals(es, f, a, k - 1))
      && |Rivals(es, f, a, k)| < cfg.capacity
  {
    RivalsGrow(es, f, a, k, b);
    Maglev.SubsetSize(Rivals(es, f, a, k), Rivals(es, f, a, b));
    assert !Of(es, f, k - 1);
  }

  /** The step from event k - 1 keeps the flow's mark in the table. */
  lemma HeldStep(cfg: Config, run: seq<State>, es: seq<Event>, f: FiveTuple, a: nat, b: nat, k: nat)
    requires IsRun(cfg, run, es) && Clock(es) && b < |es| && Consecutive(es, f, a, b) && Close(cfg, es, f, a, b)
    requires a + 1 < k <= b && Held(run[k - 1].conns, Mark(cfg, run, es, a), Rivals(es, f, a, k - 1))
    ensures Held(run[k].conns, Mark(cfg, run, es, a), Rivals(es, f, a, k))
  {
    hide Held, Clock, Next, Backend, Rivals, Bounded, Expired;
    var e := es[k - 1];
    RunBounded(cfg, run, es, k - 1);
    RivalsFit(cfg, es, f, a, b, k);
    if e.SweepAt? {
      NotYetExpired(es, cfg.timeout, a, k - 1, b, Backend(cfg, run[a], es[a]));
    }
    NextHolds(cfg, run[k - 1], e, Mark(cfg, run, es, a), Rivals(es, f, a, k - 1));
    assert run[k] == Next(cfg, run[k - 1], e);
  }

  lemma {:induction false} HeldUntil(cfg: Config, run: seq<State>, es: seq<Event>, f: FiveTuple, a: nat, b: nat, k: nat)
    requires IsRun(cfg, run, es) && Clock(es) && b < |es| && Consecutive(es, f, a, b) && Close(cfg, es, f, a, b)
    requires a < k <= b
    ensures Held(run[k].conns, Mark(cfg, run, es, a), Rivals(es, f, a, k))
    decreases k
  {
    hide Held, Clock, Next, Backend, Good;
    if k == a + 1 {
      ForwardHolds(cfg, run[a], es[a]);
      assert run[k] == Next(cfg, run[a], es[a]);
    } else {
      HeldUntil(cfg, run, es, f, a, b, k - 1);
      HeldStep(cfg, run, es, f, a, b, k);
    }
  }

  /** Two consecutive packets of a flow that are close enough go to the same backend. */
  lemma SameBackend(cfg: Config, run: seq<State>, es: seq<Event>, f: FiveTuple, a: nat, b: nat)
    requires IsRun(cfg, run, es) && Clock(es) && b < |es| && Consecutive(es, f, a, b) && Close(cfg, es, f, a, b)
    ensures Backend(cfg, run[b], es[b]) == Backend(cfg, run[a], es[a])
  {
    hide Held, Next, Backend, Rivals;
    HeldUntil(cfg, run, es, f, a, b, b);
    RunBounded(cfg, run, es, b);
    HitForwards(cfg, run[b], es[b], Mark(cfg, run, es, a), Rivals(es, f, a, b));
  }

  /** The last forwarded packet of the flow before event j, from event i on. */
  lemma {:induction false} PreviousOf(es: seq<Event>, f: FiveTuple, i: nat, j: nat) returns (a: nat)
    requires i < j <= |es| && Of(es, f, i)
    ensures i <= a < j && Of(es, f, a) && forall k: nat :: a < k < j ==> !Of(es, f, k)
    decreases j
  {
    hide Of;
    if Of(es, f, j - 1) {
      a := j - 1;
    } else {
      a := PreviousOf(es, f, i, j - 1);
    }
  }

  /** Connection affinity: a flow whose consecutive forwarded packets are all close enough goes to one
      and the same backend from packet i to packet j, whatever backends and tables are set, and
      whatever is swept, in between. */
  lemma {:induction false} Affinity(cfg: Config, run: seq<State>, es: seq<Event>, f: FiveTuple, i: nat, j: nat)
    requires IsRun(cfg, run, es) && Clock(es) && i <= j < |es| && Of(es, f, i) && Of(es, f, j)
    requires forall a: nat, b: nat :: i <= a < b <= j && Consecutive(es, f, a, b) ==> Close(cfg, es, f, a, b)
    ensures Backend(cfg, run[j], es[j]) == Backend(cfg, run[i], es[i])
    decreases j
  {
    hide Clock, Next, Backend, Close;
    if i < j {
      var a := PreviousOf(es, f, i, j);
      assert Consecutive(es, f, a, j);
      SameBackend(cfg, run, es, f, a, j);
      Affinity(cfg, run, es, f, i, a);
    }
  }

  // ----- where packets can go at all -----

  /** The backend is in the list of some state up to the k-th. */
  ghost predicate Configured(run: seq<State>, k: nat, backend: nat) {
    exists j: nat :: j <= k && j < |run| && backend in run[j].backends
  }

  ghost predicate AllConfigured(run: seq<State>, k: nat, conns: seq<Conn>) {
    forall i: nat :: i < |conns| ==> Configured(run, k, conns[i].entry.backend)
  }

  lemma FilterConfigured(run: seq<State>, k: nat, conns: seq<Conn>, rule: Rule)
    requires AllConfigured(run, k, conns)
    ensures AllConfigured(run, k, Filter(conns, rule))
  {
    hide Configured, Filter;
    forall i: nat | i < |Filter(conns, rule)| ensures Configured(run, k, Filter(conns, rule)[i].entry.backend) {
      FilterFrom(conns, rule, i);
    }
  }

  lemma {:induction false} FindConfigured(run: seq<State>, k: nat, conns: seq<Conn>, key: FiveTuple)
    requires AllConfigured(run, k, conns) && Find(conns, key).Some?
    ensures Configured(run, k, Find(conns, key).value.backend)
  {
    hide Configured;
    if conns[|conns| - 1].key != key {
      FindConfigured(run, k, conns[..|conns| - 1], key);
    }
  }

  lemma FrontConfigured(run: seq<State>, k: nat, c: Conn, conns: seq<Conn>)
    requires AllConfigured(run, k, conns) && Configured(run, k, c.entry.backend)
    ensures AllConfigured(run, k, [c] + conns)
  {
    hide Configured;
  }

  lemma LookupConfigured(run: seq<State>, k: nat, conns: seq<Conn>, timeout: nat, key: FiveTuple, now: nat)
    requires AllConfigured(run, k, conns)
    ensures var (conns', found) := Lookup(conns, timeout, key, now);
      AllConfigured(run, k, conns') && (found.Some? ==> Configured(run, k, found.value.backend))
  {
    hide Configured, AllConfigured, Filter, Find, Expired;
    FilterConfigured(run, k, conns, NotKey(key));
    if Find(conns, key).Some? {
      FindConfigured(run, k, conns, key);
      FrontConfigured(run, k, Conn(key, Find(conns, key).value.(lastSeen := now)), Others(conns, key));
    }
  }

  lemma InsertConfigured(run: seq<State>, k: nat, conns: seq<Conn>, capacity: nat, key: FiveTuple, entry: Entry)
    requires AllConfigured(run, k, conns) && Configured(run, k, entry.backend) && capacity > 0
    ensures AllConfigured(run, k, Insert(conns, capacity, key, entry))
  {
    hide Configured, Filter, Find;
    FilterConfigured(run, k, conns, NotKey(key));
    FrontConfigured(run, k, Conn(key, entry), Others(conns, key));
    FrontConfigured(run, k, Conn(key, entry), conns);
    if conns != [] { FrontConfigured(run, k, Conn(key, entry), conns[..|conns| - 1]); }
    hide AllConfigured;
  }

  lemma PickConfigured(cfg: Config, run: seq<State>, k: nat, key: FiveTuple)
    requires k < |run| && Good(cfg, run[k])
    ensures Configured(run, k, Pick(run[k].table, run[k].backends, cfg.hash(key)))
  {
    var slot := cfg.hash(key) % |run[k].table|;
    assert run[k].table[slot] < |run[k].backends|;
  }

  lemma NextConfigured(cfg: Config, run: seq<State>, k: nat, e: Event)
    requires k < |run| && Good(cfg, run[k]) && AllConfigured(run, k, run[k].conns)
    ensures AllConfigured(run, k, Next(cfg, run[k], e).conns)
    ensures Admitted(e) ==> Configured(run, k, Backend(cfg, run[k], e))
  {
    hide Configured, AllConfigured, Lookup, Insert, Filter, Fits, Pick;
    var s := run[k];
    match e
    case Packet(tuple, now, _, _) =>
      LookupConfigured(run, k, s.conns, cfg.timeout, tuple, now);
      PickConfigured(cfg, run, k, tuple);
      InsertConfigured(run, k, Lookup(s.conns, cfg.timeout, tuple, now).0, cfg.capacity, tuple,
                       Entry(Pick(s.table, s.backends, cfg.hash(tuple)), now));
    case SweepAt(now) => FilterConfigured(run, k, s.conns, Live(now, cfg.timeout));
    case _ =>
  }

  lemma StillConfigured(run: seq<State>, k: nat, conns: seq<Conn>)
    requires AllConfigured(run, k, conns)
    ensures AllConfigured(run, k + 1, conns)
  {
    forall i: nat | i < |conns| ensures Configured(run, k + 1, conns[i].entry.backend) {
      assert Configured(run, k, conns[i].entry.backend);
    }
  }

  lemma {:induction false} RunConfigured(cfg: Config, run: seq<State>, es: seq<Event>, k: nat)
    requires IsRun(cfg, run, es) && k < |run|
    ensures AllConfigured(run, k, run[k].conns)
  {
    hide Next, AllConfigured;
    if k > 0 {
      RunConfigured(cfg, run, es, k - 1);
      NextConfigured(cfg, run, k - 1, es[k - 1]);
      StillConfigured(run, k - 1, Next(cfg, run[k - 1], es[k - 1]).conns);
    } else {
      NoneConfigured(run);
    }
  }

  lemma NoneConfigured(run: seq<State>)
    ensures AllConfigured(run, 0, [])
  {
  }

  /** Over every run a packet goes only to a backend that is, or was at some earlier time, configured. */
  lemma ForwardsToConfigured(cfg: Config, run: seq<State>, es: seq<Event>, k: nat)
    requires IsRun(cfg, run, es) && k < |es| && Admitted(es[k])
    ensures Configured(run, k, Backend(cfg, run[k], es[k]))
  {
    hide Next, AllConfigured, Backend, Configured;
    RunConfigured(cfg, run, es, k);
    NextConfigured(cfg, run, k, es[k]);
  }
}
