/** Encoding by appending to a buffer and decoding with a cursor, against the frame format. */
module MessageCodec {
  import opened Bytes
  import opened Varint
  import opened Message

  /** A cursor over a payload. */
  class Reader {
    const buf: seq<Byte>
    var pos: nat

    ghost predicate Valid()
      reads this
    {
      pos <= |buf|
    }

    /** What has not been read. */
    ghost function Rest(): seq<Byte>
      requires Valid()
      reads this
    {
      buf[pos..]
    }

    constructor (buf: seq<Byte>)
      ensures Valid() && this.buf == buf && pos == 0 && Rest() == buf
    {
      this.buf, pos := buf, 0;
    }

    method ReadVarint() returns (r: Result<nat>)
      requires Valid()
      modifies this
      ensures Valid()
      ensures Agrees(TakeVarint(old(Rest())), r, Rest())
    {
      var d := Varint.Decode(buf[pos..]);
      if d.None? {
        return Err(UnexpectedEof);
      }
      assert buf[pos..][d.value.1..] == buf[pos + d.value.1..];
      pos := pos + d.value.1;
      return Ok(d.value.0);
    }

    method ReadBytes() returns (r: Result<seq<Byte>>)
      requires Valid()
      modifies this
      ensures Valid()
      ensures Agrees(TakeBytes(old(Rest())), r, Rest())
    {
      hide TakeVarint;
      var len :- ReadVarint();
      if |buf| - pos < len {
        return Err(UnexpectedEof);
      }
      var out := buf[pos..pos + len];
      assert buf[pos..][..len] == out && buf[pos..][len..] == buf[pos + len..];
      pos := pos + len;
      return Ok(out);
    }

    method ReadText(utf8: Text -> bool) returns (r: Result<Text>)
      requires Valid()
      modifies this
      ensures Valid()
      ensures Agrees(TakeText(utf8, old(Rest())), r, Rest())
    {
      hide TakeBytes;
      var bytes :- ReadBytes();
      if !utf8(bytes) {
        return Err(InvalidData);
      }
      return Ok(bytes);
    }

    method ReadTrack(utf8: Text -> bool) returns (r: Result<TrackId>)
      requires Valid()
      modifies this
      ensures Valid()
      ensures Agrees(TakeTrack(utf8, old(Rest())), r, Rest())
    {
      hide TakeText;
      var namespace :- ReadText(utf8);
      var name :- ReadText(utf8);
      return Ok(TrackId(namespace, name));
    }
  }

  /** The cursor's answer is the format's: the same value and rest, or the same error. */
  ghost predicate Agrees<T>(spec: Result<(T, seq<Byte>)>, r: Result<T>, rest: seq<Byte>) {
    match spec
    case Ok((v, s)) => r == Ok(v) && rest == s
    case Err(e) => r == Err(e)
  }

  method ReadMessage(utf8: Text -> bool, code: nat, r: Reader) returns (m: Result<Message>)
    requires r.Valid()
    modifies r
    ensures r.Valid() && Agrees(TakeMessage(utf8, code, old(r.Rest())), m, r.Rest())
  {
    hide TakeVarint, TakeBytes, TakeText, TakeTrack;
    if code == T_SETUP {
      var version :- r.ReadVarint();
      var role :- r.ReadVarint();
      if role == 1 { return Ok(Setup(version, Publisher)); }
      if role == 2 { return Ok(Setup(version, Subscriber)); }
      if role == 3 { return Ok(Setup(version, Both)); }
      return Err(InvalidData);
    } else if code == T_ANNOUNCE {
      var namespace :- r.ReadText(utf8);
      return Ok(Announce(namespace));
    } else if code == T_ANNOUNCE_OK {
      var namespace :- r.ReadText(utf8);
      return Ok(AnnounceOk(namespace));
    } else if code == T_SUBSCRIBE {
      var id :- r.ReadVarint();
      var alias :- r.ReadVarint();
      var track :- r.ReadTrack(utf8);
      var start :- r.ReadVarint();
      if start > 1 { return Err(InvalidData); }
      var priority :- r.ReadVarint();
      return Ok(Subscribe(id, alias, track, if start == 0 then LatestGroup else NextObject, priority % 256));
    } else if code == T_SUBSCRIBE_OK {
      var id :- r.ReadVarint();
      return Ok(SubscribeOk(id));
    } else if code == T_SUBSCRIBE_ERROR {
      var id :- r.ReadVarint();
      var err :- r.ReadVarint();
      var reason :- r.ReadText(utf8);
      return Ok(SubscribeError(id, err, reason));
    } else if code == T_UNSUBSCRIBE {
      var id :- r.ReadVarint();
      return Ok(Unsubscribe(id));
    } else if code == T_GOAWAY {
      var reason :- r.ReadText(utf8);
      return Ok(Goaway(reason));
    } else if code == T_GROUP_HEADER {
      var tag :- r.ReadVarint();
      var ref: TrackRef;
      if tag == REF_ALIAS {
        var alias :- r.ReadVarint();
        ref := Alias(alias);
      } else if tag == REF_FULL {
        var track :- r.ReadTrack(utf8);
        ref := Full(track);
      } else {
        return Err(InvalidData);
      }
      var groupId :- r.ReadVarint();
      return Ok(GroupHeader(ref, groupId));
    } else if code == T_OBJECT {
      var objectId :- r.ReadVarint();
      var priority :- r.ReadVarint();
      var timestampMs :- r.ReadVarint();
      var payload :- r.ReadBytes();
      return Ok(ObjectMessage(Object(0, objectId, priority % 256, timestampMs, payload)));
    } else {
      return Err(InvalidData);
    }
  }

  method Decode(utf8: Text -> bool, frame: seq<Byte>) returns (m: Result<Message>)
    ensures m == Decoding(utf8, frame)
  {
    hide TakeMessage;
    var d1 := Varint.Decode(frame);
    if d1.None? {
      return Err(UnexpectedEof);
    }
    var n1 := d1.value.1;
    var d2 := Varint.Decode(frame[n1..]);
    if d2.None? {
      return Err(UnexpectedEof);
    }
    var n2 := d2.value.1;
    var payload := frame[n1 + n2..];
    assert frame[n1..][n2..] == payload;
    if |payload| != d2.value.0 {
      return Err(InvalidData);
    }
    var r := new Reader(payload);
    var msg :- ReadMessage(utf8, d1.value.0, r);
    if r.pos != |payload| {
      return Err(InvalidData);
    }
    return Ok(msg);
  }

  method Append(v: nat, out: seq<Byte>) returns (out': seq<Byte>)
    requires v <= VARINT_MAX
    ensures out' == out + Encoded(v)
  {
    hide BigEndian;
    if v <= 63 {
      out' := out + [v];
    } else if v <= 16383 {
      out' := out + BigEndian(v + 0x4000, 2);
    } else if v <= 1_073_741_823 {
      out' := out + BigEndian(v + 0x8000_0000, 4);
    } else {
      out' := out + BigEndian(v + 0xC000_0000_0000_0000, 8);
    }
  }

  method AppendCounted(t: seq<Byte>, out: seq<Byte>) returns (out': seq<Byte>)
    requires |t| <= VARINT_MAX
    ensures out' == out + Counted(t)
  {
    hide Encoded;
    out' := Append(|t|, out);
    out' := out' + t;
  }

  method AppendTrack(utf8: Text -> bool, t: TrackId, out: seq<Byte>) returns (out': seq<Byte>)
    requires TrackOk(utf8, t)
    ensures forall rest :: out' + rest == out + TrackBytes(utf8, t, rest)
  {
    hide Counted;
    out' := AppendCounted(t.namespace, out);
    out' := AppendCounted(t.name, out');
    forall rest: seq<Byte> ensures out' + rest == out + TrackBytes(utf8, t, rest) {
      assert (out + Counted(t.namespace) + Counted(t.name)) + rest == out + (Counted(t.namespace) + (Counted(t.name) + rest));
    }
  }

  method EncodeSubscribe(utf8: Text -> bool, m: Message) returns (payload: seq<Byte>)
    requires m.Subscribe? && FieldsOk(utf8, m)
    ensures payload == Payload(utf8, m)
  {
    hide Encoded, Counted, TrackBytes, TrackOk;
    payload := Append(m.subscribeId, []);
    payload := Append(m.trackAlias, payload);
    ghost var head := payload;
    payload := AppendTrack(utf8, m.track, payload);
    ghost var all := payload + (Encoded(StartCode(m.start)) + Encoded(m.priority));
    payload := Append(StartCode(m.start), payload);
    payload := Append(m.priority, payload);
    assert payload == all == head + TrackBytes(utf8, m.track, Encoded(StartCode(m.start)) + Encoded(m.priority));
  }

  method EncodePayload(utf8: Text -> bool, m: Message) returns (payload: seq<Byte>)
    requires FieldsOk(utf8, m)
    ensures payload == Payload(utf8, m)
  {
    hide Encoded, Counted, TrackBytes, TrackOk;
    match m
    case Setup(version, role) =>
      payload := Append(version, []);
      payload := Append(RoleCode(role), payload);
    case Announce(namespace) =>
      payload := AppendCounted(namespace, []);
    case AnnounceOk(namespace) =>
      payload := AppendCounted(namespace, []);
    case Subscribe(_, _, _, _, _) =>
      payload := EncodeSubscribe(utf8, m);
    case SubscribeOk(id) =>
      payload := Append(id, []);
    case SubscribeError(id, code, reason) =>
      payload := Append(id, []);
      payload := Append(code, payload);
      payload := AppendCounted(reason, payload);
    case Unsubscribe(id) =>
      payload := Append(id, []);
    case Goaway(reason) =>
      payload := AppendCounted(reason, []);
    case GroupHeader(Alias(a), groupId) =>
      payload := Append(REF_ALIAS, []);
      payload := Append(a, payload);
      payload := Append(groupId, payload);
    case GroupHeader(Full(t), groupId) =>
      payload := Append(REF_FULL, []);
      payload := AppendTrack(utf8, t, payload);
      payload := Append(groupId, payload);
    case ObjectMessage(o) =>
      payload := Append(o.objectId, []);
      payload := Append(o.priority, payload);
      payload := Append(o.timestampMs, payload);
      payload := AppendCounted(o.payload, payload);
  }

  method Encode(utf8: Text -> bool, m: Message) returns (frame: seq<Byte>)
    requires Encodable(utf8, m)
    ensures frame == Frame(utf8, m)
  {
    hide Encoded, Payload;
    var payload := EncodePayload(utf8, m);
    frame := Append(TypeCode(m), []);
    frame := Append(|payload|, frame);
    frame := frame + payload;
  }
}
