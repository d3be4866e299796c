/** Chunking independence: however a stream of frames is cut into reads, the same messages come out. */
module Chunking {
  import opened Bytes
  import opened Message
  import opened FrameReader

  ghost predicate AllEncodable(utf8: Text -> bool, ms: seq<Message>) {
    forall i: nat :: i < |ms| ==> Encodable(utf8, ms[i])
  }

  /** The frames of the messages, one after the other, then tail. */
  function Stream(utf8: Text -> bool, ms: seq<Message>, tail: seq<Byte>): seq<Byte>
    requires AllEncodable(utf8, ms)
  {
    if ms == [] then tail else Frame(utf8, ms[0]) + Stream(utf8, ms[1..], tail)
  }

  lemma Shifted(buf: seq<Byte>, chunks: seq<seq<Byte>>)
    requires chunks != []
    ensures (buf + chunks[0]) + Joined(chunks[1..]) == buf + Joined(chunks)
  {
  }

  /** Of two ways to cut the same octets, one starts with the other's first part. */
  lemma Overlap(a: seq<Byte>, b: seq<Byte>, c: seq<Byte>, d: seq<Byte>)
    requires a + b == c + d
    ensures |a| < |c| ==> a == c[..|a|]
    ensures |a| >= |c| ==> a == c + a[|c|..] && a[|c|..] + b == d
  {
    assert (a + b)[..|a|] == a && (c + d)[..|c|] == c && (c + d)[|c|..] == d;
    if |a| < |c| {
      assert (c + d)[..|a|] == c[..|a|];
    } else {
      assert (a + b)[..|c|] == a[..|c|];
      assert (a + b)[|c|..] == a[|c|..] + b;
    }
  }

  /** One read returns the next message, and leaves the rest of the stream. */
  lemma {:induction false} ReadsNext(utf8: Text -> bool, m: Message, rest: seq<Byte>, buf: seq<Byte>, chunks: seq<seq<Byte>>)
    requires Encodable(utf8, m) && buf + Joined(chunks) == Frame(utf8, m) + rest
    ensures var o := Reading(utf8, buf, chunks);
      o.answer == Ok(Some(Canonical(m))) && o.buf + Joined(o.chunks) == rest
    decreases |chunks|
  {
    hide Frame, Parsing, Encodable;
    var frame := Frame(utf8, m);
    Overlap(buf, Joined(chunks), frame, rest);
    if |buf| < |frame| {
      ParsePrefix(utf8, m, |buf|);
      Shifted(buf, chunks);
      ReadsNext(utf8, m, rest, buf + chunks[0], chunks[1..]);
    } else {
      ParseFrame(utf8, m, buf[|frame|..]);
    }
  }

  /** At a clean end there is no message and no error. */
  lemma {:induction false} ReadsEnd(utf8: Text -> bool, chunks: seq<seq<Byte>>)
    requires Joined(chunks) == []
    ensures Reading(utf8, [], chunks).answer == Ok(None)
    decreases |chunks|
  {
    assert Parsing(utf8, []) == Ok(None);
    hide Parsing;
    if chunks != [] {
      assert [] + chunks[0] == [];
      ReadsEnd(utf8, chunks[1..]);
    }
  }

  /** A stream that ends inside a frame is an error, whatever the cut. */
  lemma {:induction false} ReadsTruncated(utf8: Text -> bool, m: Message, k: nat, buf: seq<Byte>, chunks: seq<seq<Byte>>)
    requires Encodable(utf8, m) && 0 < k < |Frame(utf8, m)| && buf + Joined(chunks) == Frame(utf8, m)[..k]
    ensures Reading(utf8, buf, chunks).answer == Err(UnexpectedEof)
    decreases |chunks|
  {
    hide Frame, Parsing, Encodable;
    ParsePrefix(utf8, m, |buf|);
    assert buf == (buf + Joined(chunks))[..|buf|] == Frame(utf8, m)[..|buf|];
    if chunks != [] {
      Shifted(buf, chunks);
      ReadsTruncated(utf8, m, k, buf + chunks[0], chunks[1..]);
    }
  }

  /** The answers of n reads in a row. */
  ghost function Answers(utf8: Text -> bool, buf: seq<Byte>, chunks: seq<seq<Byte>>, n: nat): (r: seq<Result<Option<Message>>>)
    ensures |r| == n
    decreases n
  {
    if n == 0 then []
    else
      var o := Reading(utf8, buf, chunks);
      [o.answer] + Answers(utf8, o.buf, o.chunks, n - 1)
  }

  /** What a reader of the messages answers: each message, then how the stream ends. */
  ghost function Expected(ms: seq<Message>, end: Result<Option<Message>>): seq<Result<Option<Message>>> {
    if ms == [] then [end] else [Ok(Some(Canonical(ms[0])))] + Expected(ms[1..], end)
  }

  /** For every list of encodable messages and every way of cutting their frames into reads, reading
      gives exactly those messages, in order, and then the end of the stream. */
  lemma {:induction false} ChunkingIndependence(utf8: Text -> bool, ms: seq<Message>, buf: seq<Byte>, chunks: seq<seq<Byte>>)
    requires AllEncodable(utf8, ms) && buf + Joined(chunks) == Stream(utf8, ms, [])
    ensures Answers(utf8, buf, chunks, |ms| + 1) == Expected(ms, Ok(None))
    decreases |ms|
  {
    hide Frame, Reading, Encodable;
    if ms == [] {
      assert buf == [];
      ReadsEnd(utf8, chunks);
      assert Answers(utf8, buf, chunks, 1) == [Reading(utf8, buf, chunks).answer];
    } else {
      var o := Reading(utf8, buf, chunks);
      ReadsNext(utf8, ms[0], Stream(utf8, ms[1..], []), buf, chunks);
      ChunkingIndependence(utf8, ms[1..], o.buf, o.chunks);
    }
  }

  /** If the stream ends inside one more frame, the same messages come out, and then an error. */
  lemma {:induction false} TruncatedStream(utf8: Text -> bool, ms: seq<Message>, m: Message, k: nat,
                                           buf: seq<Byte>, chunks: seq<seq<Byte>>)
    requires AllEncodable(utf8, ms) && Encodable(utf8, m) && 0 < k < |Frame(utf8, m)|
    requires buf + Joined(chunks) == Stream(utf8, ms, Frame(utf8, m)[..k])
    ensures Answers(utf8, buf, chunks, |ms| + 1) == Expected(ms, Err(UnexpectedEof))
    decreases |ms|
  {
    hide Frame, Reading, Encodable;
    if ms == [] {
      ReadsTruncated(utf8, m, k, buf, chunks);
      assert Answers(utf8, buf, chunks, 1) == [Reading(utf8, buf, chunks).answer];
    } else {
      var o := Reading(utf8, buf, chunks);
      ReadsNext(utf8, ms[0], Stream(utf8, ms[1..], Frame(utf8, m)[..k]), buf, chunks);
      TruncatedStream(utf8, ms[1..], m, k, o.buf, o.chunks);
    }
  }
}
