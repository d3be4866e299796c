/** Coalescing full packets of one message into segments that the kernel cuts up again, and cutting
    up what the receiving kernel has coalesced. */
module Gso {
  import opened Bytes
  import opened Chunks
  import opened HomaPacket
  import opened HomaTypes

  /** No coalesced segment is larger. */
  const MAX_GSO_BYTES := 65536

  /** A datagram and where it goes. */
  datatype Parcel = Parcel(dest: Addr, bytes: seq<Byte>)

  /** One call into the kernel: one datagram, or a segment it cuts into datagrams. */
  datatype Call = Single(parcel: Parcel) | Segment(dest: Addr, seg: seq<Byte>, count: nat)

  // ----- cutting -----

  /** data in pieces of n octets, the last one possibly shorter. */
  function Cut(data: seq<Byte>, n: nat): seq<seq<Byte>>
    requires n > 0
  {
    if data == [] then []
    else if |data| <= n then [data]
    else [data[..n]] + Cut(data[n..], n)
  }

  ghost predicate AllLong(pieces: seq<seq<Byte>>, n: nat) {
    forall i: nat :: i < |pieces| ==> |pieces[i]| == n
  }

  /** Cutting undoes joining, for pieces that are all as long as the cut. */
  lemma {:induction false} CutJoined(pieces: seq<seq<Byte>>, n: nat)
    requires n > 0 && AllLong(pieces, n)
    ensures Cut(Joined(pieces), n) == pieces
  {
    if |pieces| == 1 {
      assert Joined(pieces) == pieces[0] + Joined([]) == pieces[0];
    } else if pieces != [] {
      var rest := pieces[1..];
      CutJoined(rest, n);
      assert |rest[0]| == n && Joined(rest) == rest[0] + Joined(rest[1..]);
      assert Joined(pieces)[..n] == pieces[0] && Joined(pieces)[n..] == Joined(rest);
    }
  }

  /** Joining undoes cutting, for all data. */
  lemma {:induction false} JoinCut(data: seq<Byte>, n: nat)
    requires n > 0
    ensures Joined(Cut(data, n)) == data
    decreases |data|
  {
    if |data| > n {
      JoinCut(data[n..], n);
      assert data == data[..n] + data[n..];
      var cut := Cut(data, n);
      assert cut[0] == data[..n] && cut[1..] == Cut(data[n..], n);
    } else if data != [] {
      assert Joined([data]) == data + Joined([]) == data;
    }
  }

  /** What is left of data from off on. */
  function Left(data: seq<Byte>, off: nat): seq<Byte> {
    if off <= |data| then data[off..] else []
  }

  lemma CutStep(data: seq<Byte>, off: nat, n: nat)
    requires n > 0 && off < |data|
    ensures Cut(Left(data, off), n) == [data[off..off + Min(n, |data| - off)]] + Cut(Left(data, off + n), n)
  {
    var rest := data[off..];
    if |rest| > n {
      assert rest[..n] == data[off..off + n] && rest[n..] == data[off + n..];
    } else {
      assert Left(data, off + n) == [] && data[off..off + Min(n, |data| - off)] == rest;
      assert [rest] + Cut([], n) == [rest];
    }
  }

  /** The pieces up to off are the first ones of the cut. */
  ghost predicate CutUpTo(pieces: seq<seq<Byte>>, data: seq<Byte>, off: nat, n: nat) {
    n > 0 ==> pieces + Cut(Left(data, off), n) == Cut(data, n)
  }

  lemma CutNone(data: seq<Byte>, n: nat)
    ensures CutUpTo([], data, 0, n)
  {
    hide Cut;
    if n > 0 {
      assert Left(data, 0) == data;
      assert [] + Cut(data, n) == Cut(data, n);
    }
  }

  lemma CutOneMore(pieces: seq<seq<Byte>>, data: seq<Byte>, off: nat, n: nat)
    requires CutUpTo(pieces, data, off, n) && n > 0 && off < |data|
    ensures CutUpTo(pieces + [data[off..off + Min(n, |data| - off)]], data, off + n, n)
  {
    hide Cut, Left;
    CutStep(data, off, n);
    ConcatAssoc(pieces, [data[off..off + Min(n, |data| - off)]], Cut(Left(data, off + n), n));
  }

  lemma CutAll(pieces: seq<seq<Byte>>, data: seq<Byte>, off: nat, n: nat)
    requires CutUpTo(pieces, data, off, n) && off >= |data|
    ensures n > 0 ==> pieces == Cut(data, n)
    ensures n == |data| > 0 ==> pieces == [data]
  {
    if n > 0 {
      assert Cut(Left(data, off), n) == [];
      assert pieces + [] == pieces;
    }
  }

  /** The splitting loop of the receiver: a stride of 0 means that nothing was coalesced. */
  method Split(data: seq<Byte>, stride: nat) returns (pieces: seq<seq<Byte>>)
    ensures stride > 0 ==> pieces == Cut(data, stride)
    ensures stride == 0 ==> pieces == if data == [] then [] else [data]
  {
    hide CutUpTo, Cut;
    pieces := [];
    var n := if stride == 0 then |data| else stride;
    var off := 0;
    CutNone(data, n);
    while off < |data|
      invariant (n == 0 ==> pieces == []) && CutUpTo(pieces, data, off, n)
      decreases |data| - off
    {
      var step := Min(n, |data| - off);
      CutOneMore(pieces, data, off, n);
      pieces := pieces + [data[off..off + step]];
      off := off + n;
    }
    CutAll(pieces, data, off, n);
  }

  // ----- coalescing -----

  function Parcels(dest: Addr, pieces: seq<seq<Byte>>): (r: seq<Parcel>)
    ensures |r| == |pieces|
    ensures forall i: nat {:trigger r[i]} :: i < |r| ==> r[i] == Parcel(dest, pieces[i])
  {
    seq(|pieces|, i requires 0 <= i < |pieces| => Parcel(dest, pieces[i]))
  }

  /** The datagrams a call puts on the wire: the kernel cuts a segment of more than one packet every
      mss octets. */
  function OnWire(call: Call, mss: nat): seq<Parcel>
    requires mss > 0
  {
    match call
    case Single(p) => [p]
    case Segment(dest, seg, count) => if count <= 1 then [Parcel(dest, seg)] else Parcels(dest, Cut(seg, mss))
  }

  function AllOnWire(calls: seq<Call>, mss: nat): seq<Parcel>
    requires mss > 0
  {
    if calls == [] then [] else AllOnWire(calls[..|calls| - 1], mss) + OnWire(calls[|calls| - 1], mss)
  }

  lemma OneMoreCall(calls: seq<Call>, call: Call, mss: nat)
    requires mss > 0
    ensures AllOnWire(calls + [call], mss) == AllOnWire(calls, mss) + OnWire(call, mss)
  {
    assert (calls + [call])[..|calls|] == calls;
  }

  predicate IsData(bytes: seq<Byte>) {
    |bytes| >= HEADER_LEN && bytes[0] == TypeCode(Data)
  }

  function MsgId(bytes: seq<Byte>): nat
    requires |bytes| >= HEADER_LEN
  {
    FromLittleEndian(bytes[2..10])
  }

  function Offset(bytes: seq<Byte>): nat
    requires |bytes| >= HEADER_LEN
  {
    FromLittleEndian(bytes[14..18])
  }

  /** Full data packets of one message, at consecutive offsets. */
  ghost predicate Coalesced(packets: seq<seq<Byte>>, stride: nat) {
    && AllLong(packets, HEADER_LEN + stride)
    && forall i: nat :: i < |packets| ==>
         && IsData(packets[i])
         && MsgId(packets[i]) == MsgId(packets[0])
         && Offset(packets[i]) == Offset(packets[0]) + ChunkStart(stride, i)
  }

  /** A segment is made of such packets only, and is within the kernel's limit. */
  ghost predicate SegmentOk(call: Call, stride: nat) {
    call.Segment? ==>
      && Coalesced(Cut(call.seg, HEADER_LEN + stride), stride)
      && |Cut(call.seg, HEADER_LEN + stride)| == call.count > 0
      && (call.count > 1 ==> |call.seg| <= MAX_GSO_BYTES)
  }

  lemma {:induction false} JoinedSnoc(pieces: seq<seq<Byte>>, b: seq<Byte>)
    ensures Joined(pieces + [b]) == Joined(pieces) + b
  {
    if pieces == [] {
      assert [b][1..] == [] && [] + [b] == [b];
    } else {
      JoinedSnoc(pieces[1..], b);
      assert (pieces + [b])[1..] == pieces[1..] + [b];
      ConcatAssoc(pieces[0], Joined(pieces[1..]), b);
    }
  }

  lemma JoinedOne(b: seq<Byte>)
    ensures Joined([b]) == b
  {
    assert [b][1..] == [] && Joined([]) == [] && b + [] == b;
  }

  lemma CoalescedSnoc(packets: seq<seq<Byte>>, b: seq<Byte>, stride: nat)
    requires Coalesced(packets, stride) && packets != [] && |b| == HEADER_LEN + stride && IsData(b)
    requires MsgId(b) == MsgId(packets[0]) && Offset(b) == Offset(packets[0]) + ChunkStart(stride, |packets|)
    ensures Coalesced(packets + [b], stride)
  {
    hide MsgId, Offset, IsData, ChunkStart;
  }

  lemma CoalescedOne(b: seq<Byte>, stride: nat)
    requires |b| == HEADER_LEN + stride && IsData(b)
    ensures Coalesced([b], stride)
  {
    hide MsgId, Offset, IsData;
    assert ChunkStart(stride, 0) == 0;
  }

  lemma {:induction false} JoinedLength(packets: seq<seq<Byte>>, n: nat)
    requires AllLong(packets, n)
    ensures |Joined(packets)| == ChunkStart(n, |packets|)
  {
    if packets != [] {
      assert AllLong(packets[1..], n);
      JoinedLength(packets[1..], n);
    }
  }

  /** A packet continues a run of packets to dest: with it they are still full data packets of one message at
      consecutive offsets, and a segment of them, if it has more than one, is within the kernel's limit. */
  ghost predicate Continues(packets: seq<seq<Byte>>, dest: Option<Addr>, d: Addr, bytes: seq<Byte>, stride: nat) {
    && Coalesced(packets + [bytes], stride)
    && (packets != [] ==> dest == Some(d) && ChunkStart(HEADER_LEN + stride, |packets| + 1) <= MAX_GSO_BYTES)
  }

  lemma ContinuesIff(packets: seq<seq<Byte>>, bytes: seq<Byte>, stride: nat)
    requires Coalesced(packets, stride)
    ensures Coalesced(packets + [bytes], stride) <==>
      && |bytes| == HEADER_LEN + stride && IsData(bytes)
      && (packets != [] ==> MsgId(bytes) == MsgId(packets[0]) && Offset(bytes) == Offset(packets[0]) + ChunkStart(stride, |packets|))
  {
    hide MsgId, Offset, IsData, ChunkStart;
    var all := packets + [bytes];
    assert all[|packets|] == bytes;
    if packets == [] {
      assert all == [bytes];
      if |bytes| == HEADER_LEN + stride && IsData(bytes) { CoalescedOne(bytes, stride); }
    } else {
      assert all[0] == packets[0];
      if |bytes| == HEADER_LEN + stride && IsData(bytes) && MsgId(bytes) == MsgId(packets[0])
         && Offset(bytes) == Offset(packets[0]) + ChunkStart(stride, |packets|) {
        CoalescedSnoc(packets, bytes, stride);
      }
    }
  }

  class GsoAggregator {
    const mss: nat
    const stride: nat
    var dest: Option<Addr>
    var msgId: nat
    var nextOffset: nat
    var buf: seq<Byte>
    var count: nat
    /** The packets in the buffer. */
    ghost var packets: seq<seq<Byte>>

    ghost predicate Valid()
      reads this
    {
      && mss == HEADER_LEN + stride
      && |packets| == count
      && Coalesced(packets, stride)
      && (count > 0 ==>
            && dest.Some? && buf == Joined(packets) && msgId == MsgId(packets[0])
            && nextOffset == Offset(packets[0]) + ChunkStart(stride, count))
      && (count > 1 ==> |buf| <= MAX_GSO_BYTES)
    }

    /** What has been taken over and not yet sent. */
    ghost function Pending(): seq<Parcel>
      reads this
    {
      if dest.Some? then Parcels(dest.value, packets) else []
    }

    constructor (packetSize: nat)
      ensures Valid() && Pending() == [] && stride == packetSize && count == 0
    {
      mss, stride := HEADER_LEN + packetSize, packetSize;
      dest, msgId, nextOffset, buf, count, packets := None, 0, 0, [], 0, [];
    }

    predicate CanAppend(d: Addr, bytes: seq<Byte>)
      requires mss >= HEADER_LEN
      reads this
    {
      && count > 0 && |bytes| == mss && bytes[0] == TypeCode(Data)
      && dest == Some(d) && msgId == MsgId(bytes) && nextOffset == Offset(bytes)
      && |buf| + mss <= MAX_GSO_BYTES
    }

    /** Takes a packet over if it continues the segment, or starts one when there is none. */
    method TryPush(d: Addr, bytes: seq<Byte>) returns (ok: bool)
      requires Valid()
      modifies this
      ensures Valid()
      ensures ok ==> Pending() == old(Pending()) + [Parcel(d, bytes)] && count == old(count) + 1
      ensures !ok ==> unchanged(this)
      ensures ok <==> Continues(old(packets), old(dest), d, bytes, stride)
      ensures ok ==> packets == old(packets) + [bytes] && dest == Some(d)
    {
      hide MsgId, Offset, Coalesced, Joined, Parcels, ChunkStart;
      ContinuesIff(packets, bytes, stride);
      SegmentLength(packets, stride);
      assert [] + [bytes] == [bytes];
      if CanAppend(d, bytes) {
        CoalescedSnoc(packets, bytes, stride);
        JoinedSnoc(packets, bytes);
        buf := buf + bytes;
        count := count + 1;
        nextOffset := nextOffset + stride;
        packets := packets + [bytes];
        return true;
      }
      if count == 0 && |bytes| == mss && bytes[0] == TypeCode(Data) {
        CoalescedOne(bytes, stride);
        JoinedOne(bytes);
        dest := Some(d);
        msgId := MsgId(bytes);
        nextOffset := Offset(bytes) + stride;
        buf := bytes;
        count := 1;
        packets := [bytes];
        return true;
      }
      return false;
    }

    /** Hands over the segment, if there is one. */
    method Finish() returns (r: Option<Call>)
      requires Valid()
      modifies this
      ensures Valid() && count == 0 && Pending() == []
      ensures r.None? <==> old(count) == 0
      ensures r.Some? ==> OnWire(r.value, mss) == old(Pending()) && SegmentOk(r.value, stride)
      ensures r.Some? ==> old(dest).Some? && r.value == Segment(old(dest).value, old(buf), old(count))
    {
      hide Coalesced, Joined, Parcels;
      if count == 0 {
        return None;
      }
      SegmentIs(packets, stride);
      r := Some(Segment(dest.value, buf, count));
      buf := [];
      dest := None;
      count := 0;
      packets := [];
      EmptyCoalesced(stride);
    }
  }

  lemma EmptyCoalesced(stride: nat)
    ensures Coalesced([], stride)
  {
  }

  lemma SegmentIs(packets: seq<seq<Byte>>, stride: nat)
    requires Coalesced(packets, stride)
    ensures Cut(Joined(packets), HEADER_LEN + stride) == packets
    ensures |packets| == 1 ==> Joined(packets) == packets[0]
  {
    hide Cut;
    CutJoined(packets, HEADER_LEN + stride);
    if |packets| == 1 {
      assert packets == [packets[0]];
      JoinedOne(packets[0]);
    }
  }

  ghost predicate AllSegmentsOk(calls: seq<Call>, stride: nat) {
    forall i: nat :: i < |calls| ==> SegmentOk(calls[i], stride)
  }

  lemma SegmentLength(packets: seq<seq<Byte>>, stride: nat)
    requires Coalesced(packets, stride)
    ensures |Joined(packets)| == ChunkStart(HEADER_LEN + stride, |packets|)
    ensures ChunkStart(HEADER_LEN + stride, |packets| + 1) == ChunkStart(HEADER_LEN + stride, |packets|) + HEADER_LEN + stride
    ensures ChunkStart(stride, |packets| + 1) == ChunkStart(stride, |packets|) + stride && ChunkStart(stride, 0) == 0
  {
    JoinedLength(packets, HEADER_LEN + stride);
  }

  function BytesOf(batch: seq<Parcel>): (r: seq<seq<Byte>>)
    ensures |r| == |batch|
    ensures forall i: nat {:trigger r[i]} :: i < |r| ==> r[i] == batch[i].bytes
  {
    seq(|batch|, i requires 0 <= i < |batch| => batch[i].bytes)
  }

  /** The batch is one run: full data packets of one message at consecutive offsets, to one destination, that fit
      into one segment. */
  ghost predicate OneRun(batch: seq<Parcel>, stride: nat) {
    && batch != []
    && Coalesced(BytesOf(batch), stride)
    && (forall i: nat :: i < |batch| ==> batch[i].dest == batch[0].dest)
    && ChunkStart(HEADER_LEN + stride, |batch|) <= MAX_GSO_BYTES
  }

  /** Each packet of a run continues those before it. */
  lemma RunContinues(batch: seq<Parcel>, stride: nat, i: nat)
    requires OneRun(batch, stride) && i < |batch|
    ensures BytesOf(batch[..i + 1]) == BytesOf(batch[..i]) + [batch[i].bytes]
    ensures Continues(BytesOf(batch[..i]), if i == 0 then None else Some(batch[0].dest), batch[i].dest, batch[i].bytes, stride)
  {
    hide MsgId, Offset, IsData;
    var all := BytesOf(batch);
    assert BytesOf(batch[..i + 1]) == all[..i + 1] == BytesOf(batch[..i]) + [batch[i].bytes];
    ChunkStartGap(HEADER_LEN + stride, i + 1, |batch|);
    hide ChunkStart;
  }

  /** Sends the segment there is, if any. */
  method Flush(agg: GsoAggregator, calls: seq<Call>) returns (calls': seq<Call>)
    requires agg.Valid() && AllSegmentsOk(calls, agg.stride)
    modifies agg
    ensures agg.Valid() && agg.Pending() == [] && agg.count == 0 && AllSegmentsOk(calls', agg.stride)
    ensures AllOnWire(calls', agg.mss) == AllOnWire(calls, agg.mss) + old(agg.Pending())
    ensures calls' == if old(agg.count) == 0 then calls else calls + [Segment(old(agg.dest).value, old(agg.buf), old(agg.count))]
  {
    hide OnWire, AllOnWire, SegmentOk, Coalesced, Joined, Parcels;
    var seg := agg.Finish();
    calls' := calls;
    if seg.Some? {
      OneMoreCall(calls, seg.value, agg.mss);
      calls' := calls + [seg.value];
    }
  }

  /** What has been sent, and what is pending. */
  function Taken(calls: seq<Call>, mss: nat, pending: seq<Parcel>): seq<Parcel>
    requires mss > 0
  {
    AllOnWire(calls, mss) + pending
  }

  /** One packet of a batch: coalesce it if possible; otherwise flush, and send it by itself. */
  method Take(agg: GsoAggregator, calls: seq<Call>, p: Parcel) returns (calls': seq<Call>)
    requires agg.Valid() && AllSegmentsOk(calls, agg.stride)
    modifies agg
    ensures agg.Valid() && AllSegmentsOk(calls', agg.stride)
    ensures Taken(calls', agg.mss, agg.Pending()) == Taken(calls, agg.mss, old(agg.Pending())) + [p]
    ensures Continues(old(agg.packets), old(agg.dest), p.dest, p.bytes, agg.stride) ==>
      && calls' == calls && agg.count == old(agg.count) + 1
      && agg.packets == old(agg.packets) + [p.bytes] && agg.dest == Some(p.dest)
  {
    hide OnWire, AllOnWire, SegmentOk, Coalesced, Joined, Parcels, Continues, ChunkStart;
    calls' := calls;
    ghost var sent, pending := AllOnWire(calls, agg.mss), agg.Pending();
    ConcatAssoc(sent, pending, [p]);
    var ok := agg.TryPush(p.dest, p.bytes);
    if !ok {
      calls' := Flush(agg, calls);
      OneMoreCall(calls', Single(p), agg.mss);
      SingleOk(p, agg.mss, agg.stride);
      calls' := calls' + [Single(p)];
    }
  }

  /** One batch of the sending thread: coalesce what can be, flush before what cannot, flush at the end.
      What goes on the wire is exactly the packets of the batch, whole and in order, and a batch that is one run
      goes out in a single call. */
  method SendBatch(agg: GsoAggregator, batch: seq<Parcel>) returns (calls: seq<Call>)
    requires agg.Valid()
    modifies agg
    ensures agg.Valid() && agg.Pending() == []
    ensures AllOnWire(calls, agg.mss) == old(agg.Pending()) + batch
    ensures AllSegmentsOk(calls, agg.stride)
    ensures old(agg.count) == 0 && OneRun(batch, agg.stride) ==>
      |calls| == 1 && calls[0].Segment? && calls[0].dest == batch[0].dest && calls[0].count == |batch|
  {
    ghost var one := agg.count == 0 && OneRun(batch, agg.stride);
    assert agg.mss > 0 && (agg.count == 0 ==> agg.packets == []);
    hide *;
    calls := [];
    var i := 0;
    if one { RunStarts(batch, agg.stride, agg.packets, agg.dest); }
    ghost var before := agg.Pending();
    NothingYet(agg.mss, before, batch);
    while i < |batch|
      invariant i <= |batch| && agg.Valid() && AllSegmentsOk(calls, agg.stride)
      invariant Through(Taken(calls, agg.mss, agg.Pending()), before, batch, i)
      invariant one ==> RunSoFar(batch, i, calls, agg.count, agg.packets, agg.dest)
    {
      if one { RunStep(batch, agg.stride, i, calls, agg.count, agg.packets, agg.dest); }
      OneMore(Taken(calls, agg.mss, agg.Pending()), before, batch, i);
      calls := Take(agg, calls, batch[i]);
      i := i + 1;
    }
    if one { RunEnds(batch, agg.stride, calls, agg.count, agg.packets, agg.dest); }
    Everything(calls, agg.mss, agg.Pending(), before, batch);
    calls := Flush(agg, calls);
  }

  /** What is sent and pending is what was pending before and the first i packets of the batch. */
  ghost predicate Through(parcels: seq<Parcel>, before: seq<Parcel>, batch: seq<Parcel>, i: nat) {
    i <= |batch| && parcels == before + batch[..i]
  }

  lemma NothingYet(mss: nat, before: seq<Parcel>, batch: seq<Parcel>)
    requires mss > 0
    ensures Through(Taken([], mss, before), before, batch, 0)
  {
    assert [] + before == before + batch[..0];
  }

  lemma OneMore(parcels: seq<Parcel>, before: seq<Parcel>, batch: seq<Parcel>, i: nat)
    requires Through(parcels, before, batch, i) && i < |batch|
    ensures Through(parcels + [batch[i]], before, batch, i + 1)
  {
    ConcatAssoc(before, batch[..i], [batch[i]]);
    assert batch[..i + 1] == batch[..i] + [batch[i]];
  }

  lemma Everything(calls: seq<Call>, mss: nat, pending: seq<Parcel>, before: seq<Parcel>, batch: seq<Parcel>)
    requires mss > 0 && Through(Taken(calls, mss, pending), before, batch, |batch|)
    ensures AllOnWire(calls, mss) + pending == before + batch
  {
    hide AllOnWire;
    assert batch[..|batch|] == batch;
  }

  /** The first i packets of a run are in the aggregator, and nothing has been sent. */
  ghost predicate RunSoFar(batch: seq<Parcel>, i: nat, calls: seq<Call>, count: nat, packets: seq<seq<Byte>>, dest: Option<Addr>) {
    && i <= |batch| && calls == [] && count == i && packets == BytesOf(batch[..i])
    && (i > 0 ==> dest == Some(batch[0].dest))
  }

  lemma RunStarts(batch: seq<Parcel>, stride: nat, packets: seq<seq<Byte>>, dest: Option<Addr>)
    requires packets == []
    ensures RunSoFar(batch, 0, [], 0, packets, dest)
  {
  }

  lemma RunStep(batch: seq<Parcel>, stride: nat, i: nat, calls: seq<Call>, count: nat, packets: seq<seq<Byte>>, dest: Option<Addr>)
    requires OneRun(batch, stride) && i < |batch| && RunSoFar(batch, i, calls, count, packets, dest)
    ensures Continues(packets, dest, batch[i].dest, batch[i].bytes, stride)
    ensures RunSoFar(batch, i + 1, calls, count + 1, packets + [batch[i].bytes], Some(batch[i].dest))
  {
    RunContinues(batch, stride, i);
    FirstOfRun(batch, stride, dest, i);
    hide Continues, Coalesced;
  }

  lemma RunEnds(batch: seq<Parcel>, stride: nat, calls: seq<Call>, count: nat, packets: seq<seq<Byte>>, dest: Option<Addr>)
    requires OneRun(batch, stride) && RunSoFar(batch, |batch|, calls, count, packets, dest)
    ensures calls == [] && count == |batch| > 0 && dest == Some(batch[0].dest)
  {
  }

  lemma FirstOfRun(batch: seq<Parcel>, stride: nat, dest: Option<Addr>, i: nat)
    requires OneRun(batch, stride) && i < |batch| && (i > 0 ==> dest == Some(batch[0].dest))
    requires Continues(BytesOf(batch[..i]), if i == 0 then None else Some(batch[0].dest), batch[i].dest, batch[i].bytes, stride)
    ensures batch[i].dest == batch[0].dest && Continues(BytesOf(batch[..i]), dest, batch[i].dest, batch[i].bytes, stride)
  {
    hide Coalesced;
  }

  lemma SingleOk(p: Parcel, mss: nat, stride: nat)
    requires mss > 0
    ensures OnWire(Single(p), mss) == [p] && SegmentOk(Single(p), stride)
  {
  }
}
