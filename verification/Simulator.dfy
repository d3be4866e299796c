/** The simulator object: statistics, a connection table and a hash table, driven packet by packet. */
module Simulator {
  import opened Bytes
  import opened Primes
  import opened Maglev
  import opened MaglevTable
  import opened Lru
  import Slab
  import opened ConnTrack
  import opened Edge

  datatype Stats = Stats(passed: nat, droppedRate: nat, droppedSynflood: nat, forwarded: nat, hits: nat, misses: nat)

  function Total(s: Stats): nat {
    s.passed + s.droppedRate + s.droppedSynflood + s.forwarded
  }

  /** A table with entries fits no empty list of backends. */
  lemma SomeBackend(table: seq<nat>)
    requires table != []
    ensures !Fits(table, [])
  {
    assert table[0] >= 0;
  }

  /** The table holds the flow, last used within the timeout. */
  ghost predicate Known(conns: seq<Conn>, tuple: FiveTuple, now: nat, timeout: nat) {
    Find(conns, tuple).Some? && now <= Find(conns, tuple).value.lastSeen + timeout
  }

  lemma KnownIsHit(conns: seq<Conn>, tuple: FiveTuple, now: nat, timeout: nat)
    ensures Lru.Lookup(conns, timeout, tuple, now).1.Some? <==> Known(conns, tuple, now, timeout)
  {
  }

  class XdpSimulator {
    const conntrack: ConnTrack
    const maglev: Table
    const hashes: Hashes
    const hash: FiveTuple -> nat
    var stats: Stats

    ghost predicate Valid()
      reads this, conntrack, maglev
    {
      && conntrack.Valid() && maglev.Valid() && maglev.backends != []
      && stats.hits + stats.misses == stats.forwarded
    }

    ghost function Settings(): (cfg: Config)
      reads this, conntrack, maglev
    {
      Config(maglev.m, conntrack.capacity, conntrack.timeout, hash)
    }

    /** The simulator as a value. */
    ghost function Now(): (s: State)
      requires Valid()
      reads this, conntrack, maglev
      ensures Good(Settings(), s)
    {
      State(conntrack.Conns(), maglev.table, maglev.backends)
    }

    constructor (hashes: Hashes, hash: FiveTuple -> nat, capacity: nat, timeout: nat, backends: seq<nat>, m: nat)
      requires Prime(m) && m < TWO32 && backends != [] && 0 < capacity <= Slab.NIL
      ensures Valid() && fresh(conntrack) && fresh(maglev)
      ensures Settings() == Config(m, capacity, timeout, hash) && Now().conns == []
      ensures maglev.backends == backends && IsLut(hashes, m, backends, maglev.table)
      ensures Total(stats) == 0
    {
      hide Prime, IsLut;
      var mg := new Table(m);
      var ok := mg.Rebuild(hashes, backends);
      maglev := mg;
      conntrack := new ConnTrack(capacity, timeout);
      this.hashes, this.hash := hashes, hash;
      stats := Stats(0, 0, 0, 0, 0, 0);
    }

    /** Decides about one packet, given what the limiter and the SYN guard say. */
    method Process(tuple: FiveTuple, now: nat, allowed: bool, flood: bool) returns (action: Action)
      requires Valid()
      modifies this`stats, conntrack
      ensures Valid()
      ensures (Now(), action) == Edge.Process(Settings(), old(Now()), Packet(tuple, now, allowed, flood))
      ensures Total(stats) == old(Total(stats)) + 1
      ensures stats.droppedRate == old(stats.droppedRate) + if !allowed then 1 else 0
      ensures stats.droppedSynflood == old(stats.droppedSynflood) + if allowed && tuple.protocol == PROTO_TCP && flood then 1 else 0
      ensures stats.forwarded == old(stats.forwarded) + if action.Forward? then 1 else 0
      ensures stats.hits == old(stats.hits) + if action.Forward? && Known(old(Now()).conns, tuple, now, conntrack.timeout) then 1 else 0
      ensures stats.misses == old(stats.misses) + if action.Forward? && !Known(old(Now()).conns, tuple, now, conntrack.timeout) then 1 else 0
      ensures stats.passed == old(stats.passed)
    {
      hide Prime, ConnTrack.Valid, ConnTrack.Conns, Lru.Lookup, Lru.Insert, Known;
      KnownIsHit(Now().conns, tuple, now, conntrack.timeout);
      if !allowed {
        stats := stats.(droppedRate := stats.droppedRate + 1);
        return Discard;
      }
      if tuple.protocol == PROTO_TCP && flood {
        stats := stats.(droppedSynflood := stats.droppedSynflood + 1);
        return Discard;
      }
      var found := conntrack.Lookup(tuple, now);
      if found.Some? {
        stats := stats.(hits := stats.hits + 1, forwarded := stats.forwarded + 1);
        return Forward(found.value.backend);
      }
      stats := stats.(misses := stats.misses + 1);
      var backend := maglev.Lookup(hash(tuple));
      conntrack.Insert(tuple, Entry(backend.value, now));
      stats := stats.(forwarded := stats.forwarded + 1);
      return Forward(backend.value);
    }

    /** Rebuilds the hash table for a new set of backends; refuses an empty set. */
    method SetBackends(backends: seq<nat>) returns (ok: bool)
      requires Valid()
      modifies maglev
      ensures Valid() && ok == (backends != [])
      ensures ok ==> IsLut(hashes, maglev.m, backends, maglev.table)
      ensures Now() == Next(Settings(), old(Now()), Edge.SetBackends(backends, maglev.table))
    {
      hide IsLut, ConnTrack.Valid, ConnTrack.Conns;
      SomeBackend(maglev.table);
      ok := maglev.Rebuild(hashes, backends);
    }

    /** Takes over a published table, if it fits. */
    method ApplyLut(backends: seq<nat>, table: seq<nat>) returns (ok: bool)
      requires Valid()
      modifies maglev
      ensures Valid()
      ensures Now() == Next(Settings(), old(Now()), Edge.ApplyLut(backends, table))
    {
      hide ConnTrack.Valid, ConnTrack.Conns;
      if |table| == maglev.m { SomeBackend(table); }
      ok := maglev.LoadTable(backends, table);
    }

    /** The control plane's periodic sweep of the connection table. */
    method Sweep(now: nat, keys: seq<FiveTuple>) returns (n: nat)
      requires Valid() && Enumerates(keys, conntrack.index)
      modifies conntrack
      ensures Valid() && n == |old(Now().conns)| - |Now().conns|
      ensures Now() == Next(Settings(), old(Now()), SweepAt(now))
    {
      hide Prime, Enumerates, Lru.Sweep, Slab.Contents, Slab.Linked, Split, Indexed, Slab.Distinct;
      n := conntrack.SweepExpired(now, keys);
    }
  }
}
