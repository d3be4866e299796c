/** What the connection table is to its callers: connections in order of use, latest first, bounded by
    a capacity. */
module Lru {
  import opened Bytes

  datatype FiveTuple = FiveTuple(srcIp: nat, dstIp: nat, srcPort: nat, dstPort: nat, protocol: nat)

  /** The routing decision for a connection, and when it was last used. */
  datatype Entry = Entry(backend: nat, lastSeen: nat)

  datatype Conn = Conn(key: FiveTuple, entry: Entry)

  /** Idle for longer than the timeout; a clock that went back counts as not idle at all. */
  predicate Expired(entry: Entry, now: nat, timeout: nat) {
    now > entry.lastSeen && now - entry.lastSeen > timeout
  }

  /** Which connections to keep: those with another key, or those that have not expired. */
  datatype Rule = NotKey(key: FiveTuple) | Live(now: nat, timeout: nat)

  predicate Keeps(rule: Rule, c: Conn) {
    match rule
    case NotKey(key) => c.key != key
    case Live(now, timeout) => !Expired(c.entry, now, timeout)
  }

  /** The connections the rule keeps, in the same order. */
  function Filter(conns: seq<Conn>, rule: Rule): (r: seq<Conn>)
    ensures |r| <= |conns|
  {
    if conns == [] then []
    else
      var last := conns[|conns| - 1];
      Filter(conns[..|conns| - 1], rule) + if Keeps(rule, last) then [last] else []
  }

  function Others(conns: seq<Conn>, key: FiveTuple): (r: seq<Conn>)
    ensures |r| <= |conns|
  {
    Filter(conns, NotKey(key))
  }

  function Find(conns: seq<Conn>, key: FiveTuple): Option<Entry> {
    if conns == [] then None
    else
      var last := conns[|conns| - 1];
      if last.key == key then Some(last.entry) else Find(conns[..|conns| - 1], key)
  }

  /** A hit moves the connection to the front and refreshes it; the entry returned is as it was
      before. An expired connection is removed. */
  function Lookup(conns: seq<Conn>, timeout: nat, key: FiveTuple, now: nat): (seq<Conn>, Option<Entry>) {
    var found := Find(conns, key);
    if found.None? then (conns, None)
    else if Expired(found.value, now, timeout) then (Others(conns, key), None)
    else ([Conn(key, found.value.(lastSeen := now))] + Others(conns, key), found)
  }

  /** A new connection goes to the front; a full table first loses the connection used longest ago. */
  function Insert(conns: seq<Conn>, capacity: nat, key: FiveTuple, entry: Entry): seq<Conn>
    requires capacity > 0
  {
    [Conn(key, entry)] +
    if Find(conns, key).Some? then Others(conns, key)
    else if |conns| >= capacity then conns[..|conns| - 1]
    else conns
  }

  /** Only what has not expired stays, in the same order. */
  function Sweep(conns: seq<Conn>, timeout: nat, now: nat): (r: seq<Conn>)
    ensures |r| <= |conns|
  {
    Filter(conns, Live(now, timeout))
  }
}
