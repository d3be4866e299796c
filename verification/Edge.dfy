/** The packet pipeline of the edge: drop what the limiter or the SYN guard refuses, send a tracked
    connection where it went before, and a new one where the hash table says. */
module Edge {
  import opened Bytes
  import opened Lru
  import opened Maglev
  import opened MaglevTable

  const PROTO_TCP := 6

  datatype Action = Discard | Forward(backend: nat)

  /** Sizes, the timeout and the flow hash, whatever it is. */
  datatype Config = Config(m: nat, capacity: nat, timeout: nat, hash: FiveTuple -> nat)

  datatype State = State(conns: seq<Conn>, table: seq<nat>, backends: seq<nat>)

  /** A packet, with what the limiter and the SYN guard say about it; a new set of backends, with its
      table; a table built elsewhere; a sweep. */
  datatype Event =
    | Packet(tuple: FiveTuple, now: nat, allowed: bool, flood: bool)
    | SetBackends(backends: seq<nat>, table: seq<nat>)
    | ApplyLut(backends: seq<nat>, table: seq<nat>)
    | SweepAt(now: nat)

  ghost predicate Good(cfg: Config, s: State) {
    cfg.m > 0 && cfg.capacity > 0 && |s.table| == cfg.m && Fits(s.table, s.backends)
  }

  /** A packet that neither check refuses; the SYN guard is asked only about TCP. */
  predicate Admitted(e: Event) {
    e.Packet? && e.allowed && !(e.tuple.protocol == PROTO_TCP && e.flood)
  }

  ghost function Process(cfg: Config, s: State, e: Event): (State, Action)
    requires Good(cfg, s) && e.Packet?
  {
    if !Admitted(e) then (s, Discard)
    else
      var (conns, found) := Lookup(s.conns, cfg.timeout, e.tuple, e.now);
      if found.Some? then (s.(conns := conns), Forward(found.value.backend))
      else
        var backend := Pick(s.table, s.backends, cfg.hash(e.tuple));
        (s.(conns := Insert(conns, cfg.capacity, e.tuple, Entry(backend, e.now))), Forward(backend))
  }

  /** Sets of backends and tables that do not fit are refused and change nothing. */
  ghost function Next(cfg: Config, s: State, e: Event): (t: State)
    requires Good(cfg, s)
    ensures Good(cfg, t)
  {
    match e
    case Packet(_, _, _, _) => Process(cfg, s, e).0
    case SetBackends(backends, table) =>
      if |table| == cfg.m && Fits(table, backends) then s.(table := table, backends := backends) else s
    case ApplyLut(backends, table) =>
      if |table| == cfg.m && Fits(table, backends) then s.(table := table, backends := backends) else s
    case SweepAt(now) => s.(conns := Sweep(s.conns, cfg.timeout, now))
  }
}
