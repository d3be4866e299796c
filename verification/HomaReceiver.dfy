/** The receiving core: reassembles messages out of order, grants credit to the messages with the
    fewest bytes left, asks again for what is missing and remembers what it has delivered. */
module HomaReceiver {
  import opened Bytes
  import opened Chunks
  import opened HomaPacket
  import opened HomaTypes

  /** Unanswered resend requests in a row after which a message is given up. */
  const MAX_UNANSWERED_RESENDS := 40

  /** How many delivered messages are remembered. */
  const COMPLETED_CACHE := 4096

  datatype InMsg = InMsg(
    totalLen: nat,
    buf: seq<Byte>,
    received: seq<bool>,
    receivedBytes: nat,
    grantedTo: nat,
    lastProgress: Time,
    lastGrant: Time,
    unansweredResends: nat)
  {
    function Remaining(): int {
      totalLen - receivedBytes
    }

    predicate Complete() {
      receivedBytes == totalLen
    }

    /** Still short of bytes and of credit for them. */
    predicate NeedsCredit() {
      !Complete() && grantedTo < totalLen
    }
  }

  type Incoming = map<Key, InMsg>

  /** The starvation candidates, soonest deadline first: what peeking at and popping from the
      program's binary heap yields. */
  type Deadlines = seq<(Time, Key)>

  datatype ReceiverState = ReceiverState(
    incoming: Incoming,
    granting: seq<Key>,
    completed: set<Key>,
    completedOrder: seq<Key>,
    starveQueue: Deadlines)

  const Empty := ReceiverState(map[], [], {}, [], [])

  // ----- one message -----

  function ChunkCount(len: nat, ps: nat): (n: nat)
    requires ps > 0
    ensures n >= 1
  {
    Max(Quot(len + ps - 1, ps), 1)
  }

  function NewMsg(cfg: Config, len: nat, now: Time): InMsg {
    InMsg(
      len,
      seq(len, _ => 0),
      seq(ChunkCount(len, cfg.packetSize), _ => false),
      0,
      Min(cfg.unscheduledBytes, len),
      now,
      now,
      0)
  }

  /** Whether a packet fills a chunk not received before. The bound is the packet's own message
      length, not the stored one. */
  predicate Fills(cfg: Config, m: InMsg, d: Datagram) {
    var idx := Quot(d.pkt.offset, cfg.packetSize);
    idx < |m.received| && !m.received[idx] && d.pkt.offset + |d.payload| <= d.pkt.msgLen
  }

  /** What the slice copy demands: the bytes land inside the buffer. */
  predicate Fits(cfg: Config, m: InMsg, d: Datagram) {
    Fills(cfg, m, d) ==> d.pkt.offset + |d.payload| <= |m.buf|
  }

  function Overwrite(buf: seq<Byte>, at: nat, bytes: seq<Byte>): (r: seq<Byte>)
    requires at + |bytes| <= |buf|
    ensures |r| == |buf|
    ensures r[at..at + |bytes|] == bytes
    ensures forall i :: 0 <= i < |buf| && !(at <= i < at + |bytes|) ==> r[i] == buf[i]
  {
    buf[..at] + bytes + buf[at + |bytes|..]
  }

  function Store(cfg: Config, m: InMsg, d: Datagram, now: Time): InMsg
    requires Fits(cfg, m, d)
  {
    if !Fills(cfg, m, d) then m
    else
      m.(buf := Overwrite(m.buf, d.pkt.offset, d.payload),
         received := m.received[Quot(d.pkt.offset, cfg.packetSize) := true],
         receivedBytes := m.receivedBytes + |d.payload|,
         lastProgress := now,
         unansweredResends := 0)
  }

  /** The first chunk from i on that has not arrived, if any. */
  function FirstMissing(received: seq<bool>, i: nat): (r: Option<nat>)
    requires i <= |received|
    ensures r.Some? ==> i <= r.value < |received| && !received[r.value]
    ensures r.Some? ==> forall j :: i <= j < r.value ==> received[j]
    ensures r.None? ==> forall j :: i <= j < |received| ==> received[j]
    decreases |received| - i
  {
    if i == |received| then None
    else if !received[i] then Some(i)
    else FirstMissing(received, i + 1)
  }

  /** Where the credit goes when it is extended. */
  function Target(cfg: Config, m: InMsg): nat {
    Max(Min(m.receivedBytes + cfg.grantIncrement, m.totalLen), m.grantedTo)
  }

  function Outstanding(m: InMsg): nat {
    if m.grantedTo >= m.receivedBytes then m.grantedTo - m.receivedBytes else 0
  }

  /** Whether a grant goes out: not while half an increment is outstanding, nor for nothing. */
  predicate Extends(cfg: Config, m: InMsg, force: bool) {
    force || (Outstanding(m) < cfg.grantIncrement / 2 && Target(cfg, m) != m.grantedTo)
  }

  function GrantOf(cfg: Config, key: Key, m: InMsg): Action {
    Send(key.peer, Datagram(
      Packet(Grant, PriorityForLen(m.totalLen), key.id, 0,
             AsU32(Target(cfg, m)), AsU32(Target(cfg, m) - m.grantedTo)),
      []))
  }

  /** The request for the first missing chunk, off octets in, up to the credit given. */
  function ResendOf(cfg: Config, key: Key, m: InMsg, off: nat): Action
    requires off < m.grantedTo
  {
    Send(key.peer, Datagram(
      Packet(Resend, PriorityForLen(m.totalLen), key.id, 0,
             AsU32(off), AsU32(Min(m.grantedTo - off, cfg.grantIncrement))),
      []))
  }

  // ----- granting -----

  predicate Sooner(a: (Time, Key), b: (Time, Key)) {
    a.0 < b.0 || (a.0 == b.0 && (a.1.peer < b.1.peer || (a.1.peer == b.1.peer && a.1.id <= b.1.id)))
  }

  function Push(q: Deadlines, e: (Time, Key)): Deadlines {
    if q == [] || Sooner(e, q[0]) then [e] + q else [q[0]] + Push(q[1..], e)
  }

  function IssueGrant(cfg: Config, s: ReceiverState, key: Key, now: Time, force: bool): (ReceiverState, seq<Action>) {
    if key !in s.incoming || !Extends(cfg, s.incoming[key], force) then (s, [])
    else
      var m := s.incoming[key];
      (s.(incoming := s.incoming[key := m.(grantedTo := Target(cfg, m), lastGrant := now)],
          starveQueue := Push(s.starveQueue, (now + cfg.starveThreshold, key))),
       [GrantOf(cfg, key, m)])
  }

  function Candidates(incoming: Incoming, order: seq<Key>, i: nat): seq<Key>
    decreases |order| - i
  {
    if i >= |order| then []
    else if order[i] in incoming && incoming[order[i]].NeedsCredit() then [order[i]] + Candidates(incoming, order, i + 1)
    else Candidates(incoming, order, i + 1)
  }

  function RemainingOf(incoming: Incoming, k: Key): int {
    if k in incoming then incoming[k].Remaining() else 0
  }

  function Rank(incoming: Incoming, k: Key, ranked: seq<Key>): seq<Key> {
    if ranked == [] || RemainingOf(incoming, k) <= RemainingOf(incoming, ranked[0]) then [k] + ranked
    else [ranked[0]] + Rank(incoming, k, ranked[1..])
  }

  /** The stable sort by remaining bytes. */
  function RankAll(incoming: Incoming, keys: seq<Key>): seq<Key> {
    if keys == [] then [] else Rank(incoming, keys[0], RankAll(incoming, keys[1..]))
  }

  /** Waiting for credit longer than the threshold allows. */
  predicate Starving(cfg: Config, m: InMsg, now: Time) {
    m.NeedsCredit() && Since(now, m.lastGrant) >= cfg.starveThreshold
  }

  function AddStarving(cfg: Config, incoming: Incoming, order: seq<Key>, i: nat, selected: seq<Key>, now: Time): seq<Key>
    decreases |order| - i
  {
    if i >= |order| then selected
    else if order[i] in incoming && Starving(cfg, incoming[order[i]], now) && order[i] !in selected then
      AddStarving(cfg, incoming, order, i + 1, selected + [order[i]], now)
    else AddStarving(cfg, incoming, order, i + 1, selected, now)
  }

  function Shortest(cfg: Config, incoming: Incoming, order: seq<Key>): seq<Key> {
    var ranked := RankAll(incoming, Candidates(incoming, order, 0));
    ranked[..Min(Max(cfg.overcommit, 1), |ranked|)]
  }

  function Selected(cfg: Config, incoming: Incoming, order: seq<Key>, now: Time): seq<Key> {
    AddStarving(cfg, incoming, order, 0, Shortest(cfg, incoming, order), now)
  }

  function GrantFrom(cfg: Config, s: ReceiverState, keys: seq<Key>, i: nat, now: Time): (ReceiverState, seq<Action>)
    decreases |keys| - i
  {
    if i >= |keys| then (s, [])
    else
      var (s', acts) := IssueGrant(cfg, s, keys[i], now, false);
      var (s'', rest) := GrantFrom(cfg, s', keys, i + 1, now);
      (s'', acts + rest)
  }

  function Schedule(cfg: Config, s: ReceiverState, order: seq<Key>, now: Time): (ReceiverState, seq<Action>) {
    var selected := Selected(cfg, s.incoming, order, now);
    GrantFrom(cfg, s.(granting := selected), selected, 0, now)
  }

  function StarveCheck(cfg: Config, s: ReceiverState, order: seq<Key>, now: Time): (ReceiverState, seq<Action>)
    decreases |s.starveQueue|
  {
    if s.starveQueue == [] || s.starveQueue[0].0 > now then (s, [])
    else
      var key := s.starveQueue[0].1;
      var s' := s.(starveQueue := s.starveQueue[1..]);
      if key in s'.incoming && key !in s'.granting
         && s'.incoming[key].grantedTo < s'.incoming[key].totalLen
         && Since(now, s'.incoming[key].lastGrant) >= cfg.starveThreshold
      then Schedule(cfg, s', order, now)
      else StarveCheck(cfg, s', order, now)
  }

  // ----- the whole core -----

  function Without(keys: seq<Key>, key: Key): seq<Key> {
    if keys == [] then []
    else if keys[0] == key then Without(keys[1..], key)
    else [keys[0]] + Without(keys[1..], key)
  }

  function Remove(s: ReceiverState, key: Key): ReceiverState {
    s.(incoming := s.incoming - {key}, granting := Without(s.granting, key))
  }

  /** Hand a message over and remember it, forgetting the oldest if too many are remembered. */
  function DeliverTo(s: ReceiverState, key: Key): ReceiverState {
    var remembered := s.completedOrder + [key];
    if |remembered| > COMPLETED_CACHE then
      Remove(s, key).(completed := s.completed + {key} - {remembered[0]}, completedOrder := remembered[1..])
    else
      Remove(s, key).(completed := s.completed + {key}, completedOrder := remembered)
  }

  /** Late, oversized, or one message too many. */
  predicate Refused(cfg: Config, s: ReceiverState, key: Key, pkt: Packet) {
    || key in s.completed
    || pkt.msgLen > MAX_MSG_LEN
    || (key !in s.incoming && |s.incoming| >= cfg.maxIncoming)
  }

  function RefusalSends(cfg: Config, s: ReceiverState, key: Key, pkt: Packet): seq<Action> {
    if key in s.completed || pkt.msgLen > MAX_MSG_LEN then []
    else [Send(key.peer, Datagram(Packet(Busy, 0, pkt.msgId, 0, 0, 0), []))]
  }

  /** The message a packet belongs to, made up on the spot if the packet is its first. */
  function MsgFor(cfg: Config, s: ReceiverState, key: Key, pkt: Packet, now: Time): InMsg {
    if key in s.incoming then s.incoming[key] else NewMsg(cfg, pkt.msgLen, now)
  }

  /** What handling a Data packet demands of it: its bytes land inside the buffer. */
  predicate Admissible(cfg: Config, s: ReceiverState, src: Addr, d: Datagram, now: Time) {
    var key := Key(src, d.pkt.msgId);
    !Refused(cfg, s, key, d.pkt) ==> Fits(cfg, MsgFor(cfg, s, key, d.pkt, now), d)
  }

  /** The state once a packet's bytes are in, before any scheduling. */
  function Accept(cfg: Config, s: ReceiverState, key: Key, d: Datagram, now: Time): ReceiverState
    requires Fits(cfg, MsgFor(cfg, s, key, d.pkt, now), d)
  {
    var m := MsgFor(cfg, s, key, d.pkt, now);
    s.(incoming := s.incoming[key := if d.pkt.msgLen == 0 then m else Store(cfg, m, d, now)],
       starveQueue :=
         if key in s.incoming then s.starveQueue
         else Push(s.starveQueue, (now + cfg.starveThreshold, key)))
  }

  /** A message is handed over when its bytes are all there, an empty one at once. */
  predicate Finished(s: ReceiverState, key: Key, d: Datagram)
    requires key in s.incoming
  {
    d.pkt.msgLen == 0 || s.incoming[key].Complete()
  }

  /** Scheduling after a packet that did not finish its message. */
  function Continue(cfg: Config, s: ReceiverState, key: Key, isNew: bool, order: seq<Key>, now: Time): (ReceiverState, seq<Action>) {
    var (s', acts) :=
      if isNew then Schedule(cfg, s, order, now)
      else if key in s.granting then IssueGrant(cfg, s, key, now, false)
      else (s, []);
    var (s'', rest) := StarveCheck(cfg, s', order, now);
    (s'', acts + rest)
  }

  function HandleData(cfg: Config, s: ReceiverState, src: Addr, d: Datagram, order: seq<Key>, now: Time): (ReceiverState, seq<Action>)
    requires Admissible(cfg, s, src, d, now)
  {
    var key := Key(src, d.pkt.msgId);
    if Refused(cfg, s, key, d.pkt) then (s, RefusalSends(cfg, s, key, d.pkt))
    else
      var s' := Accept(cfg, s, key, d, now);
      if Finished(s', key, d) then
        var data := if d.pkt.msgLen == 0 then [] else s'.incoming[key].buf;
        var (s'', rest) := Schedule(cfg, DeliverTo(s', key), order, now);
        (s'', [Deliver(src, key.id, data)] + rest)
      else Continue(cfg, s', key, key !in s.incoming, order, now)
  }

  /** One message's share of a tick. */
  function TickKey(cfg: Config, s: ReceiverState, key: Key, now: Time): (ReceiverState, seq<Action>) {
    if key !in s.incoming || Since(now, s.incoming[key].lastProgress) < cfg.resendTimeout then (s, [])
    else
      var m := s.incoming[key];
      var missing := FirstMissing(m.received, 0);
      if missing.Some? && ChunkStart(cfg.packetSize, missing.value) < m.grantedTo then
        var acts := [ResendOf(cfg, key, m, ChunkStart(cfg.packetSize, missing.value))];
        if m.unansweredResends + 1 > MAX_UNANSWERED_RESENDS then (Remove(s, key), acts)
        else
          (s.(incoming := s.incoming[key :=
             m.(lastProgress := now, unansweredResends := m.unansweredResends + 1)]), acts)
      else if Since(now, m.lastProgress) >= cfg.grantTimeout then
        var s' := s.(incoming := s.incoming[key := m.(lastProgress := now)]);
        if key in s.granting then IssueGrant(cfg, s', key, now, true) else (s', [])
      else (s, [])
  }

  function TickFrom(cfg: Config, s: ReceiverState, order: seq<Key>, i: nat, now: Time): (ReceiverState, seq<Action>)
    decreases |order| - i
  {
    if i >= |order| then (s, [])
    else
      var (s', acts) := TickKey(cfg, s, order[i], now);
      var (s'', rest) := TickFrom(cfg, s', order, i + 1, now);
      (s'', acts + rest)
  }

  function Tick(cfg: Config, s: ReceiverState, order: seq<Key>, now: Time): (ReceiverState, seq<Action>) {
    var (s', acts) := TickFrom(cfg, s, order, 0, now);
    var (s'', rest) := Schedule(cfg, s', order, now);
    (s'', acts + rest)
  }
}
