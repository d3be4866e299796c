/** What is not a frame: octets too many, anywhere, and types that do not exist. */
module MessageExact {
  import opened Bytes
  import opened Varint
  import opened Message

  // ----- parsers read from the front and leave the rest alone -----

  lemma VarintExtends(s: seq<Byte>, t: seq<Byte>)
    requires TakeVarint(s).Ok?
    ensures TakeVarint(s + t) == Ok((TakeVarint(s).value.0, TakeVarint(s).value.1 + t))
  {
    hide FromBigEndian;
    var n := Decoded(s).value.1;
    assert (s + t)[0] == s[0] && (s + t)[1..n] == s[1..n];
    assert (s + t)[n..] == s[n..] + t;
  }

  lemma BytesExtend(s: seq<Byte>, t: seq<Byte>)
    requires TakeBytes(s).Ok?
    ensures TakeBytes(s + t) == Ok((TakeBytes(s).value.0, TakeBytes(s).value.1 + t))
  {
    VarintExtends(s, t);
    hide TakeVarint;
    var (len, rest) := TakeVarint(s).value;
    assert (rest + t)[..len] == rest[..len] && (rest + t)[len..] == rest[len..] + t;
  }

  lemma TextExtends(utf8: Text -> bool, s: seq<Byte>, t: seq<Byte>)
    requires TakeText(utf8, s).Ok?
    ensures TakeText(utf8, s + t) == Ok((TakeText(utf8, s).value.0, TakeText(utf8, s).value.1 + t))
  {
    BytesExtend(s, t);
    hide TakeBytes;
  }

  lemma TrackExtends(utf8: Text -> bool, s: seq<Byte>, t: seq<Byte>)
    requires TakeTrack(utf8, s).Ok?
    ensures TakeTrack(utf8, s + t) == Ok((TakeTrack(utf8, s).value.0, TakeTrack(utf8, s).value.1 + t))
  {
    hide TakeText;
    TextExtends(utf8, s, t);
    TextExtends(utf8, TakeText(utf8, s).value.1, t);
  }

  lemma RoleExtends(s: seq<Byte>, t: seq<Byte>)
    requires TakeRole(s).Ok?
    ensures TakeRole(s + t) == Ok((TakeRole(s).value.0, TakeRole(s).value.1 + t))
  {
    VarintExtends(s, t);
    hide TakeVarint;
  }

  lemma StartExtends(s: seq<Byte>, t: seq<Byte>)
    requires TakeStart(s).Ok?
    ensures TakeStart(s + t) == Ok((TakeStart(s).value.0, TakeStart(s).value.1 + t))
  {
    VarintExtends(s, t);
    hide TakeVarint;
  }

  lemma RefExtends(utf8: Text -> bool, s: seq<Byte>, t: seq<Byte>)
    requires TakeRef(utf8, s).Ok?
    ensures TakeRef(utf8, s + t) == Ok((TakeRef(utf8, s).value.0, TakeRef(utf8, s).value.1 + t))
  {
    hide TakeVarint, TakeTrack;
    VarintExtends(s, t);
    var s1 := TakeVarint(s).value.1;
    if TakeVarint(s).value.0 == REF_ALIAS { VarintExtends(s1, t); } else { TrackExtends(utf8, s1, t); }
  }

  lemma SubscribeExtends(utf8: Text -> bool, s: seq<Byte>, t: seq<Byte>)
    requires TakeMessage(utf8, T_SUBSCRIBE, s).Ok?
    ensures TakeMessage(utf8, T_SUBSCRIBE, s + t)
         == Ok((TakeMessage(utf8, T_SUBSCRIBE, s).value.0, TakeMessage(utf8, T_SUBSCRIBE, s).value.1 + t))
  {
    hide TakeVarint, TakeTrack, TakeStart;
    VarintExtends(s, t);
    var s1 := TakeVarint(s).value.1;
    VarintExtends(s1, t);
    var s2 := TakeVarint(s1).value.1;
    TrackExtends(utf8, s2, t);
    var s3 := TakeTrack(utf8, s2).value.1;
    StartExtends(s3, t);
    VarintExtends(TakeStart(s3).value.1, t);
  }

  lemma ObjectExtends(utf8: Text -> bool, s: seq<Byte>, t: seq<Byte>)
    requires TakeMessage(utf8, T_OBJECT, s).Ok?
    ensures TakeMessage(utf8, T_OBJECT, s + t)
         == Ok((TakeMessage(utf8, T_OBJECT, s).value.0, TakeMessage(utf8, T_OBJECT, s).value.1 + t))
  {
    hide TakeVarint, TakeBytes;
    VarintExtends(s, t);
    var s1 := TakeVarint(s).value.1;
    VarintExtends(s1, t);
    var s2 := TakeVarint(s1).value.1;
    VarintExtends(s2, t);
    BytesExtend(TakeVarint(s2).value.1, t);
  }

  lemma MessageExtends(utf8: Text -> bool, code: nat, s: seq<Byte>, t: seq<Byte>)
    requires TakeMessage(utf8, code, s).Ok?
    ensures TakeMessage(utf8, code, s + t)
         == Ok((TakeMessage(utf8, code, s).value.0, TakeMessage(utf8, code, s).value.1 + t))
  {
    hide TakeVarint, TakeBytes, TakeText, TakeTrack, TakeRole, TakeStart, TakeRef;
    if code == T_SETUP {
      VarintExtends(s, t);
      RoleExtends(TakeVarint(s).value.1, t);
    } else if code == T_ANNOUNCE || code == T_ANNOUNCE_OK || code == T_GOAWAY {
      TextExtends(utf8, s, t);
    } else if code == T_SUBSCRIBE {
      SubscribeExtends(utf8, s, t);
    } else if code == T_SUBSCRIBE_OK || code == T_UNSUBSCRIBE {
      VarintExtends(s, t);
    } else if code == T_SUBSCRIBE_ERROR {
      VarintExtends(s, t);
      var s1 := TakeVarint(s).value.1;
      VarintExtends(s1, t);
      TextExtends(utf8, TakeVarint(s1).value.1, t);
    } else if code == T_GROUP_HEADER {
      RefExtends(utf8, s, t);
      VarintExtends(TakeRef(utf8, s).value.1, t);
    } else {
      ObjectExtends(utf8, s, t);
    }
  }

  // ----- too much -----

  /** Octets after a frame make it none. */
  lemma TrailingRejected(utf8: Text -> bool, frame: seq<Byte>, junk: seq<Byte>)
    requires Decoding(utf8, frame).Ok? && junk != []
    ensures Decoding(utf8, frame + junk) == Err(InvalidData)
  {
    hide TakeVarint, TakeMessage;
    VarintExtends(frame, junk);
    VarintExtends(TakeVarint(frame).value.1, junk);
  }

  /** So do octets inside it, after the last field, even if the length counts them. */
  lemma PaddingRejected(utf8: Text -> bool, m: Message, junk: seq<Byte>)
    requires FieldsOk(utf8, m) && junk != [] && |Payload(utf8, m)| + |junk| <= VARINT_MAX
    ensures var payload := Payload(utf8, m) + junk;
      Decoding(utf8, Encoded(TypeCode(m)) + (Encoded(|payload|) + payload)) == Err(InvalidData)
  {
    hide TakeVarint, TakeMessage, Encoded, Payload;
    var payload := Payload(utf8, m) + junk;
    TakeEncoded(TypeCode(m), Encoded(|payload|) + payload);
    TakeEncoded(|payload|, payload);
    TakePayload(utf8, m);
    MessageExtends(utf8, TypeCode(m), Payload(utf8, m), junk);
  }

  /** And a type that is none of the ten. */
  lemma UnknownRejected(utf8: Text -> bool, code: nat, payload: seq<Byte>)
    requires code <= VARINT_MAX && |payload| <= VARINT_MAX && !(1 <= code <= 8) && code != 16 && code != 17
    ensures Decoding(utf8, Encoded(code) + (Encoded(|payload|) + payload)) == Err(InvalidData)
  {
    hide TakeVarint, Encoded;
    TakeEncoded(code, Encoded(|payload|) + payload);
    TakeEncoded(|payload|, payload);
  }
}
