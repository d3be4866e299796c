/** Reading messages from a stream that arrives in pieces of any size. */
module FrameReader {
  import opened Bytes
  import opened Varint
  import opened Message
  import opened MessageCodec

  /** The first message in a buffer and the length of its frame, or nothing yet. */
  function Parsing(utf8: Text -> bool, buf: seq<Byte>): (r: Result<Option<(Message, nat)>>)
    ensures r.Ok? && r.value.Some? ==> r.value.value.1 <= |buf|
  {
    match Decoded(buf)
    case None => Ok(None)
    case Some((_, n1)) =>
      match Decoded(buf[n1..])
      case None => Ok(None)
      case Some((len, n2)) =>
        var total := n1 + n2 + len;
        if |buf| < total then Ok(None)
        else
          var m :- Decoding(utf8, buf[..total]);
          Ok(Some((m, total)))
  }

  method TryParse(utf8: Text -> bool, buf: seq<Byte>) returns (r: Result<Option<(Message, nat)>>)
    ensures r == Parsing(utf8, buf)
  {
    hide Decoding;
    var d1 := Varint.Decode(buf);
    if d1.None? {
      return Ok(None);
    }
    var d2 := Varint.Decode(buf[d1.value.1..]);
    if d2.None? {
      return Ok(None);
    }
    var total := d1.value.1 + d2.value.1 + d2.value.0;
    if |buf| < total {
      return Ok(None);
    }
    var m :- MessageCodec.Decode(utf8, buf[..total]);
    return Ok(Some((m, total)));
  }

  // ----- parsing frames and prefixes of frames -----

  lemma HeaderDecodes(utf8: Text -> bool, m: Message, rest: seq<Byte>)
    requires Encodable(utf8, m)
    ensures var buf := Frame(utf8, m) + rest;
      var n1, n2, len := EncodedLen(TypeCode(m)), EncodedLen(|Payload(utf8, m)|), |Payload(utf8, m)|;
      Decoded(buf) == Some((TypeCode(m), n1)) && Decoded(buf[n1..]) == Some((len, n2)) && n1 + n2 + len == |Frame(utf8, m)|
  {
    hide Encoded, Decoded, Payload;
    var payload := Payload(utf8, m);
    var tail := Encoded(|payload|) + payload;
    var buf := Frame(utf8, m) + rest;
    assert buf == Encoded(TypeCode(m)) + (tail + rest);
    DecodeEncoded(TypeCode(m), tail + rest);
    assert buf[EncodedLen(TypeCode(m))..] == Encoded(|payload|) + (payload + rest);
    DecodeEncoded(|payload|, payload + rest);
  }

  /** A buffer that starts with a frame yields that frame's message. */
  lemma ParseFrame(utf8: Text -> bool, m: Message, rest: seq<Byte>)
    requires Encodable(utf8, m)
    ensures Parsing(utf8, Frame(utf8, m) + rest) == Ok(Some((Canonical(m), |Frame(utf8, m)|)))
  {
    hide Frame, Decoding, Decoded, Payload;
    HeaderDecodes(utf8, m, rest);
    var buf := Frame(utf8, m) + rest;
    assert buf[..|Frame(utf8, m)|] == Frame(utf8, m);
    DecodeFrame(utf8, m);
  }

  /** A frame that is all there is decided at once: its message, or its error, whatever follows. */
  lemma CompleteFrame(utf8: Text -> bool, code: nat, payload: seq<Byte>, rest: seq<Byte>)
    requires code <= VARINT_MAX && |payload| <= VARINT_MAX
    ensures var frame := Encoded(code) + (Encoded(|payload|) + payload);
      Parsing(utf8, frame + rest) ==
        match Decoding(utf8, frame) case Ok(m) => Ok(Some((m, |frame|))) case Err(e) => Err(e)
  {
    hide Encoded, Decoded, Decoding;
    var tail := Encoded(|payload|) + payload;
    var frame := Encoded(code) + tail;
    var buf := frame + rest;
    assert buf == Encoded(code) + (tail + rest);
    DecodeEncoded(code, tail + rest);
    assert buf[EncodedLen(code)..] == Encoded(|payload|) + (payload + rest);
    DecodeEncoded(|payload|, payload + rest);
    assert buf[..|frame|] == frame;
  }

  /** A prefix that ends inside a, or inside what follows it. */
  lemma PrefixOf(a: seq<Byte>, b: seq<Byte>, k: nat)
    requires k <= |a| + |b|
    ensures k < |a| ==> (a + b)[..k] == a[..k]
    ensures k >= |a| ==> (a + b)[..k] == a + b[..k - |a|] && (a + b)[..k][|a|..] == b[..k - |a|]
  {
  }

  /** A strict prefix of a frame is never an error and never a message. */
  lemma ParsePrefix(utf8: Text -> bool, m: Message, k: nat)
    requires Encodable(utf8, m) && k < |Frame(utf8, m)|
    ensures Parsing(utf8, Frame(utf8, m)[..k]) == Ok(None)
  {
    hide Encoded, Decoded, Payload, Decoding;
    var payload := Payload(utf8, m);
    var code, size := Encoded(TypeCode(m)), Encoded(|payload|);
    var buf := Frame(utf8, m)[..k];
    PrefixOf(code, size + payload, k);
    if k < |code| {
      DecodePrefix(TypeCode(m), k);
    } else {
      var rest := (size + payload)[..k - |code|];
      DecodeEncoded(TypeCode(m), rest);
      PrefixOf(size, payload, k - |code|);
      if k - |code| < |size| {
        DecodePrefix(|payload|, k - |code|);
      } else {
        DecodeEncoded(|payload|, payload[..k - |code| - |size|]);
      }
    }
  }

  // ----- the reader -----

  /** One call of read: the answer, and what is then buffered and still to come. */
  datatype Outcome = Outcome(answer: Result<Option<Message>>, buf: seq<Byte>, chunks: seq<seq<Byte>>)

  function Reading(utf8: Text -> bool, buf: seq<Byte>, chunks: seq<seq<Byte>>): Outcome
    decreases |chunks|
  {
    match Parsing(utf8, buf)
    case Err(e) => Outcome(Err(e), buf, chunks)
    case Ok(Some((m, n))) => Outcome(Ok(Some(m)), buf[n..], chunks)
    case Ok(None) =>
      if chunks == [] then Outcome(if buf == [] then Ok(None) else Err(UnexpectedEof), buf, chunks)
      else Reading(utf8, buf + chunks[0], chunks[1..])
  }

  /** The receiving half of a stream: the pieces still to come, then its end. */
  class RecvStream {
    var chunks: seq<seq<Byte>>

    constructor (chunks: seq<seq<Byte>>)
      ensures this.chunks == chunks
    {
      this.chunks := chunks;
    }

    method Read() returns (r: Option<seq<Byte>>)
      modifies this
      ensures old(chunks) == [] ==> r == None && chunks == []
      ensures old(chunks) != [] ==> r == Some(old(chunks)[0]) && chunks == old(chunks)[1..]
    {
      if chunks == [] {
        return None;
      }
      r := Some(chunks[0]);
      chunks := chunks[1..];
    }
  }

  class FrameReader {
    var buf: seq<Byte>

    constructor ()
      ensures buf == []
    {
      buf := [];
    }

    method Read(utf8: Text -> bool, recv: RecvStream) returns (r: Result<Option<Message>>)
      modifies this, recv
      ensures Outcome(r, buf, recv.chunks) == Reading(utf8, old(buf), old(recv.chunks))
    {
      hide Parsing;
      while true
        invariant Reading(utf8, buf, recv.chunks) == Reading(utf8, old(buf), old(recv.chunks))
        decreases |recv.chunks|
      {
        var parsed :- TryParse(utf8, buf);
        if parsed.Some? {
          buf := buf[parsed.value.1..];
          return Ok(Some(parsed.value.0));
        }
        var n := recv.Read();
        match n
        case None =>
          if buf == [] {
            return Ok(None);
          }
          return Err(UnexpectedEof);
        case Some(bytes) =>
          buf := buf + bytes;
      }
    }
  }
}
