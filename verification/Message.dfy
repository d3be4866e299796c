/** The messages of the streaming protocol and their frames: type, length and payload, every integer a
    variable-length one. */
module Message {
  import opened Bytes
  import opened Varint

  datatype Error = UnexpectedEof | InvalidData

  datatype Result<+T> = Ok(value: T) | Err(error: Error) {
    predicate IsFailure() {
      Err?
    }

    function PropagateFailure<U>(): Result<U>
      requires IsFailure()
    {
      Err(error)
    }

    function Extract(): T
      requires !IsFailure()
    {
      value
    }
  }

  /** Text, as its octets. */
  type Text = seq<Byte>

  datatype Role = Publisher | Subscriber | Both

  datatype StartMode = LatestGroup | NextObject

  datatype TrackId = TrackId(namespace: Text, name: Text)

  datatype TrackRef = Alias(alias: nat) | Full(track: TrackId)

  datatype Object = Object(groupId: nat, objectId: nat, priority: Byte, timestampMs: nat, payload: seq<Byte>)

  datatype Message =
    | Setup(version: nat, role: Role)
    | Announce(namespace: Text)
    | AnnounceOk(namespace: Text)
    | Subscribe(subscribeId: nat, trackAlias: nat, track: TrackId, start: StartMode, priority: Byte)
    | SubscribeOk(subscribeId: nat)
    | SubscribeError(subscribeId: nat, code: nat, reason: Text)
    | Unsubscribe(subscribeId: nat)
    | Goaway(reason: Text)
    | GroupHeader(trackRef: TrackRef, groupId: nat)
    | ObjectMessage(data: Object)

  const T_SETUP := 0x01
  const T_ANNOUNCE := 0x02
  const T_ANNOUNCE_OK := 0x03
  const T_SUBSCRIBE := 0x04
  const T_SUBSCRIBE_OK := 0x05
  const T_SUBSCRIBE_ERROR := 0x06
  const T_UNSUBSCRIBE := 0x07
  const T_GOAWAY := 0x08
  const T_GROUP_HEADER := 0x10
  const T_OBJECT := 0x11

  const REF_ALIAS := 0
  const REF_FULL := 1

  // ----- what can be encoded -----

  /** Text that is valid UTF-8, whatever that is, and whose length can be encoded. */
  predicate TextOk(utf8: Text -> bool, t: Text) {
    utf8(t) && |t| <= VARINT_MAX
  }

  predicate TrackOk(utf8: Text -> bool, t: TrackId) {
    TextOk(utf8, t.namespace) && TextOk(utf8, t.name)
  }

  predicate FieldsOk(utf8: Text -> bool, m: Message) {
    match m
    case Setup(version, _) => version <= VARINT_MAX
    case Announce(namespace) => TextOk(utf8, namespace)
    case AnnounceOk(namespace) => TextOk(utf8, namespace)
    case Subscribe(id, alias, track, _, _) => id <= VARINT_MAX && alias <= VARINT_MAX && TrackOk(utf8, track)
    case SubscribeOk(id) => id <= VARINT_MAX
    case SubscribeError(id, code, reason) => id <= VARINT_MAX && code <= VARINT_MAX && TextOk(utf8, reason)
    case Unsubscribe(id) => id <= VARINT_MAX
    case Goaway(reason) => TextOk(utf8, reason)
    case GroupHeader(ref, groupId) =>
      groupId <= VARINT_MAX && (match ref case Alias(a) => a <= VARINT_MAX case Full(t) => TrackOk(utf8, t))
    case ObjectMessage(o) => o.objectId <= VARINT_MAX && o.timestampMs <= VARINT_MAX && |o.payload| <= VARINT_MAX
  }

  /** Every integer and every length, that of the payload included, is within 62 bits. */
  predicate Encodable(utf8: Text -> bool, m: Message) {
    FieldsOk(utf8, m) && |Payload(utf8, m)| <= VARINT_MAX
  }

  // ----- encoding -----

  function RoleCode(r: Role): nat {
    match r case Publisher => 1 case Subscriber => 2 case Both => 3
  }

  function StartCode(s: StartMode): nat {
    match s case LatestGroup => 0 case NextObject => 1
  }

  function TypeCode(m: Message): (t: nat)
    ensures t < 64
  {
    match m
    case Setup(_, _) => T_SETUP
    case Announce(_) => T_ANNOUNCE
    case AnnounceOk(_) => T_ANNOUNCE_OK
    case Subscribe(_, _, _, _, _) => T_SUBSCRIBE
    case SubscribeOk(_) => T_SUBSCRIBE_OK
    case SubscribeError(_, _, _) => T_SUBSCRIBE_ERROR
    case Unsubscribe(_) => T_UNSUBSCRIBE
    case Goaway(_) => T_GOAWAY
    case GroupHeader(_, _) => T_GROUP_HEADER
    case ObjectMessage(_) => T_OBJECT
  }

  /** Octets after their number. */
  function Counted(s: seq<Byte>): seq<Byte>
    requires |s| <= VARINT_MAX
  {
    Encoded(|s|) + s
  }

  function TrackBytes(utf8: Text -> bool, t: TrackId, rest: seq<Byte>): seq<Byte>
    requires TrackOk(utf8, t)
  {
    Counted(t.namespace) + (Counted(t.name) + rest)
  }

  function RefBytes(utf8: Text -> bool, ref: TrackRef, rest: seq<Byte>): seq<Byte>
    requires match ref case Alias(a) => a <= VARINT_MAX case Full(t) => TrackOk(utf8, t)
  {
    match ref
    case Alias(a) => Encoded(REF_ALIAS) + (Encoded(a) + rest)
    case Full(t) => Encoded(REF_FULL) + TrackBytes(utf8, t, rest)
  }

  function Payload(utf8: Text -> bool, m: Message): seq<Byte>
    requires FieldsOk(utf8, m)
  {
    match m
    case Setup(version, role) => Encoded(version) + Encoded(RoleCode(role))
    case Announce(namespace) => Counted(namespace)
    case AnnounceOk(namespace) => Counted(namespace)
    case Subscribe(id, alias, track, start, priority) =>
      Encoded(id) + (Encoded(alias) + TrackBytes(utf8, track, Encoded(StartCode(start)) + Encoded(priority)))
    case SubscribeOk(id) => Encoded(id)
    case SubscribeError(id, code, reason) => Encoded(id) + (Encoded(code) + Counted(reason))
    case Unsubscribe(id) => Encoded(id)
    case Goaway(reason) => Counted(reason)
    case GroupHeader(ref, groupId) => RefBytes(utf8, ref, Encoded(groupId))
    case ObjectMessage(o) => Encoded(o.objectId) + (Encoded(o.priority) + (Encoded(o.timestampMs) + Counted(o.payload)))
  }

  /** The complete frame of a message. */
  function Frame(utf8: Text -> bool, m: Message): seq<Byte>
    requires Encodable(utf8, m)
  {
    Encoded(TypeCode(m)) + (Encoded(|Payload(utf8, m)|) + Payload(utf8, m))
  }

  // ----- the layout -----

  /** What a payload is made of: variable-length integers, and octets after their number. */
  datatype Field = Number(n: nat) | Octets(s: seq<Byte>)

  predicate Writable(f: Field) {
    match f case Number(n) => n <= VARINT_MAX case Octets(s) => |s| <= VARINT_MAX
  }

  function FieldBytes(f: Field): seq<Byte>
    requires Writable(f)
  {
    match f case Number(n) => Encoded(n) case Octets(s) => Encoded(|s|) + s
  }

  /** The fields one after the other. */
  datatype Fields = End | Then(field: Field, more: Fields)

  predicate AllWritable(fields: Fields) {
    fields.Then? ==> Writable(fields.field) && AllWritable(fields.more)
  }

  function Written(fields: Fields): seq<Byte>
    requires AllWritable(fields)
  {
    if fields.End? then [] else FieldBytes(fields.field) + Written(fields.more)
  }

  /** The number of a message's type. */
  function Kind(m: Message): nat {
    match m
    case Setup(_, _) => 1
    case Announce(_) => 2
    case AnnounceOk(_) => 3
    case Subscribe(_, _, _, _, _) => 4
    case SubscribeOk(_) => 5
    case SubscribeError(_, _, _) => 6
    case Unsubscribe(_) => 7
    case Goaway(_) => 8
    case GroupHeader(_, _) => 16
    case ObjectMessage(_) => 17
  }

  function TrackFields(t: TrackId, more: Fields): Fields {
    Then(Octets(t.namespace), Then(Octets(t.name), more))
  }

  /** The fields of each message in the order they are sent. */
  function FieldsOf(m: Message): Fields {
    match m
    case Setup(version, role) =>
      Then(Number(version), Then(Number(match role case Publisher => 1 case Subscriber => 2 case Both => 3), End))
    case Announce(namespace) => Then(Octets(namespace), End)
    case AnnounceOk(namespace) => Then(Octets(namespace), End)
    case Subscribe(id, alias, track, start, priority) =>
      Then(Number(id), Then(Number(alias), TrackFields(track,
        Then(Number(match start case LatestGroup => 0 case NextObject => 1), Then(Number(priority), End)))))
    case SubscribeOk(id) => Then(Number(id), End)
    case SubscribeError(id, code, reason) => Then(Number(id), Then(Number(code), Then(Octets(reason), End)))
    case Unsubscribe(id) => Then(Number(id), End)
    case Goaway(reason) => Then(Octets(reason), End)
    case GroupHeader(Alias(alias), groupId) => Then(Number(0), Then(Number(alias), Then(Number(groupId), End)))
    case GroupHeader(Full(track), groupId) => Then(Number(1), TrackFields(track, Then(Number(groupId), End)))
    case ObjectMessage(o) =>
      Then(Number(o.objectId), Then(Number(o.priority), Then(Number(o.timestampMs), Then(Octets(o.payload), End))))
  }

  lemma WrittenLast(f: Field)
    requires Writable(f)
    ensures Written(Then(f, End)) == FieldBytes(f)
  {
    assert FieldBytes(f) + [] == FieldBytes(f);
  }

  lemma AllFieldsWritable(utf8: Text -> bool, m: Message)
    requires FieldsOk(utf8, m)
    ensures AllWritable(FieldsOf(m))
  {
    match m
    case Subscribe(_, alias, track, start, priority) =>
      var last := Then(Number(priority), End);
      assert AllWritable(Then(Number(StartCode(start)), last));
      assert AllWritable(TrackFields(track, Then(Number(StartCode(start)), last)));
    case ObjectMessage(o) =>
      assert AllWritable(Then(Number(o.timestampMs), Then(Octets(o.payload), End)));
    case SubscribeError(_, code, reason) => assert AllWritable(Then(Number(code), Then(Octets(reason), End)));
    case GroupHeader(ref, groupId) =>
      var last := Then(Number(groupId), End);
      assert AllWritable(last);
      assert ref.Full? ==> AllWritable(TrackFields(ref.track, last));
    case _ =>
  }

  lemma TrackWritten(utf8: Text -> bool, t: TrackId, more: Fields)
    requires TrackOk(utf8, t) && AllWritable(more)
    ensures AllWritable(TrackFields(t, more)) && Written(TrackFields(t, more)) == TrackBytes(utf8, t, Written(more))
  {
    hide Encoded;
  }

  /** A payload is the message's fields, in order. */
  lemma PayloadLayout(utf8: Text -> bool, m: Message)
    requires FieldsOk(utf8, m)
    ensures AllWritable(FieldsOf(m)) && Payload(utf8, m) == Written(FieldsOf(m))
  {
    AllFieldsWritable(utf8, m);
    hide Encoded, TrackBytes, TrackFields;
    match m
    case Setup(_, role) => WrittenLast(Number(RoleCode(role)));
    case Announce(namespace) => WrittenLast(Octets(namespace));
    case AnnounceOk(namespace) => WrittenLast(Octets(namespace));
    case Subscribe(_, _, track, start, priority) =>
      WrittenLast(Number(priority));
      assert AllWritable(Then(Number(priority), End));
      TrackWritten(utf8, track, Then(Number(StartCode(start)), Then(Number(priority), End)));
    case SubscribeOk(id) => WrittenLast(Number(id));
    case SubscribeError(_, _, reason) => WrittenLast(Octets(reason));
    case Unsubscribe(id) => WrittenLast(Number(id));
    case Goaway(reason) => WrittenLast(Octets(reason));
    case GroupHeader(ref, groupId) =>
      WrittenLast(Number(groupId));
      if ref.Full? { TrackWritten(utf8, ref.track, Then(Number(groupId), End)); }
    case ObjectMessage(o) =>
      WrittenLast(Octets(o.payload));
      var last := Then(Number(o.timestampMs), Then(Octets(o.payload), End));
      assert Written(last) == Encoded(o.timestampMs) + Counted(o.payload);
  }

  /** A frame is one octet for the type, the length of the payload, and the payload. */
  lemma FrameLayout(utf8: Text -> bool, m: Message)
    requires Encodable(utf8, m)
    ensures Frame(utf8, m) == [Kind(m)] + (Encoded(|Payload(utf8, m)|) + Payload(utf8, m))
  {
    hide Payload;
  }

  // ----- decoding -----

  /** An integer at the front, and what follows it. */
  function TakeVarint(s: seq<Byte>): Result<(nat, seq<Byte>)> {
    match Decoded(s)
    case None => Err(UnexpectedEof)
    case Some((v, n)) => Ok((v, s[n..]))
  }

  function TakeBytes(s: seq<Byte>): Result<(seq<Byte>, seq<Byte>)> {
    var (len, rest) :- TakeVarint(s);
    if |rest| < len then Err(UnexpectedEof) else Ok((rest[..len], rest[len..]))
  }

  function TakeText(utf8: Text -> bool, s: seq<Byte>): Result<(Text, seq<Byte>)> {
    var (t, rest) :- TakeBytes(s);
    if utf8(t) then Ok((t, rest)) else Err(InvalidData)
  }

  function TakeTrack(utf8: Text -> bool, s: seq<Byte>): Result<(TrackId, seq<Byte>)> {
    var (namespace, s1) :- TakeText(utf8, s);
    var (name, s2) :- TakeText(utf8, s1);
    Ok((TrackId(namespace, name), s2))
  }

  function TakeRole(s: seq<Byte>): Result<(Role, seq<Byte>)> {
    var (v, rest) :- TakeVarint(s);
    if v == 1 then Ok((Publisher, rest))
    else if v == 2 then Ok((Subscriber, rest))
    else if v == 3 then Ok((Both, rest))
    else Err(InvalidData)
  }

  function TakeStart(s: seq<Byte>): Result<(StartMode, seq<Byte>)> {
    var (v, rest) :- TakeVarint(s);
    if v == 0 then Ok((LatestGroup, rest)) else if v == 1 then Ok((NextObject, rest)) else Err(InvalidData)
  }

  function TakeRef(utf8: Text -> bool, s: seq<Byte>): Result<(TrackRef, seq<Byte>)> {
    var (tag, s1) :- TakeVarint(s);
    if tag == REF_ALIAS then
      var (alias, s2) :- TakeVarint(s1);
      Ok((Alias(alias), s2))
    else if tag == REF_FULL then
      var (track, s2) :- TakeTrack(utf8, s1);
      Ok((Full(track), s2))
    else Err(InvalidData)
  }

  /** A message of the given type, and what follows it. A priority keeps its low 8 bits. */
  function TakeMessage(utf8: Text -> bool, code: nat, s: seq<Byte>): Result<(Message, seq<Byte>)> {
    if code == T_SETUP then
      var (version, s1) :- TakeVarint(s);
      var (role, s2) :- TakeRole(s1);
      Ok((Setup(version, role), s2))
    else if code == T_ANNOUNCE then
      var (namespace, s1) :- TakeText(utf8, s);
      Ok((Announce(namespace), s1))
    else if code == T_ANNOUNCE_OK then
      var (namespace, s1) :- TakeText(utf8, s);
      Ok((AnnounceOk(namespace), s1))
    else if code == T_SUBSCRIBE then
      var (id, s1) :- TakeVarint(s);
      var (alias, s2) :- TakeVarint(s1);
      var (track, s3) :- TakeTrack(utf8, s2);
      var (start, s4) :- TakeStart(s3);
      var (priority, s5) :- TakeVarint(s4);
      Ok((Subscribe(id, alias, track, start, priority % 256), s5))
    else if code == T_SUBSCRIBE_OK then
      var (id, s1) :- TakeVarint(s);
      Ok((SubscribeOk(id), s1))
    else if code == T_SUBSCRIBE_ERROR then
      var (id, s1) :- TakeVarint(s);
      var (err, s2) :- TakeVarint(s1);
      var (reason, s3) :- TakeText(utf8, s2);
      Ok((SubscribeError(id, err, reason), s3))
    else if code == T_UNSUBSCRIBE then
      var (id, s1) :- TakeVarint(s);
      Ok((Unsubscribe(id), s1))
    else if code == T_GOAWAY then
      var (reason, s1) :- TakeText(utf8, s);
      Ok((Goaway(reason), s1))
    else if code == T_GROUP_HEADER then
      var (ref, s1) :- TakeRef(utf8, s);
      var (groupId, s2) :- TakeVarint(s1);
      Ok((GroupHeader(ref, groupId), s2))
    else if code == T_OBJECT then
      var (objectId, s1) :- TakeVarint(s);
      var (priority, s2) :- TakeVarint(s1);
      var (timestampMs, s3) :- TakeVarint(s2);
      var (payload, s4) :- TakeBytes(s3);
      Ok((ObjectMessage(Object(0, objectId, priority % 256, timestampMs, payload)), s4))
    else Err(InvalidData)
  }

  /** The message of a complete frame. */
  function Decoding(utf8: Text -> bool, frame: seq<Byte>): Result<Message> {
    var (code, s1) :- TakeVarint(frame);
    var (len, payload) :- TakeVarint(s1);
    if |payload| != len then Err(InvalidData)
    else
      var (m, rest) :- TakeMessage(utf8, code, payload);
      if rest != [] then Err(InvalidData) else Ok(m)
  }

  /** The message as it comes back: an object's group is not in its frame, and is filled in later. */
  function Canonical(m: Message): Message {
    if m.ObjectMessage? then ObjectMessage(m.data.(groupId := 0)) else m
  }

  // ----- round trip -----

  lemma TakeEncoded(v: nat, rest: seq<Byte>)
    requires v <= VARINT_MAX
    ensures TakeVarint(Encoded(v) + rest) == Ok((v, rest))
  {
    hide Encoded, Decoded;
    DecodeEncoded(v, rest);
    assert (Encoded(v) + rest)[EncodedLen(v)..] == rest;
  }

  lemma TakeLast(v: nat)
    requires v <= VARINT_MAX
    ensures TakeVarint(Encoded(v)) == Ok((v, []))
  {
    hide Encoded, Decoded, TakeVarint;
    TakeEncoded(v, []);
    assert Encoded(v) + [] == Encoded(v);
  }

  lemma TakeCounted(s: seq<Byte>, rest: seq<Byte>)
    requires |s| <= VARINT_MAX
    ensures TakeBytes(Counted(s) + rest) == Ok((s, rest))
  {
    hide Encoded, TakeVarint;
    TakeEncoded(|s|, s + rest);
    assert Counted(s) + rest == Encoded(|s|) + (s + rest);
    assert (s + rest)[..|s|] == s && (s + rest)[|s|..] == rest;
  }

  lemma TakeLastCounted(s: seq<Byte>)
    requires |s| <= VARINT_MAX
    ensures TakeBytes(Counted(s)) == Ok((s, []))
  {
    hide TakeBytes, Counted;
    TakeCounted(s, []);
    assert Counted(s) + [] == Counted(s);
  }

  lemma TakeTrackBytes(utf8: Text -> bool, t: TrackId, rest: seq<Byte>)
    requires TrackOk(utf8, t)
    ensures TakeTrack(utf8, TrackBytes(utf8, t, rest)) == Ok((t, rest))
  {
    hide TakeBytes, Counted;
    TakeCounted(t.namespace, Counted(t.name) + rest);
    TakeCounted(t.name, rest);
  }

  lemma TakeRefBytes(utf8: Text -> bool, ref: TrackRef, rest: seq<Byte>)
    requires match ref case Alias(a) => a <= VARINT_MAX case Full(t) => TrackOk(utf8, t)
    ensures TakeRef(utf8, RefBytes(utf8, ref, rest)) == Ok((ref, rest))
  {
    hide TakeVarint, TakeTrack, TrackBytes, Encoded;
    match ref
    case Alias(a) =>
      TakeEncoded(REF_ALIAS, Encoded(a) + rest);
      TakeEncoded(a, rest);
    case Full(t) =>
      TakeEncoded(REF_FULL, TrackBytes(utf8, t, rest));
      TakeTrackBytes(utf8, t, rest);
  }

  lemma TakePayload(utf8: Text -> bool, m: Message)
    requires FieldsOk(utf8, m)
    ensures TakeMessage(utf8, TypeCode(m), Payload(utf8, m)) == Ok((Canonical(m), []))
  {
    hide TakeVarint, TakeBytes, TakeTrack, TakeRef, Encoded, Counted, TrackBytes, RefBytes, TrackOk;
    match m
    case Setup(version, role) =>
      TakeEncoded(version, Encoded(RoleCode(role)));
      TakeLast(RoleCode(role));
    case Announce(namespace) => TakeLastCounted(namespace);
    case AnnounceOk(namespace) => TakeLastCounted(namespace);
    case Subscribe(id, alias, track, start, priority) =>
      var tail := Encoded(StartCode(start)) + Encoded(priority);
      TakeEncoded(id, Encoded(alias) + TrackBytes(utf8, track, tail));
      TakeEncoded(alias, TrackBytes(utf8, track, tail));
      TakeTrackBytes(utf8, track, tail);
      TakeEncoded(StartCode(start), Encoded(priority));
      TakeLast(priority);
    case SubscribeOk(id) => TakeLast(id);
    case SubscribeError(id, code, reason) =>
      TakeEncoded(id, Encoded(code) + Counted(reason));
      TakeEncoded(code, Counted(reason));
      TakeLastCounted(reason);
    case Unsubscribe(id) => TakeLast(id);
    case Goaway(reason) => TakeLastCounted(reason);
    case GroupHeader(ref, groupId) =>
      TakeRefBytes(utf8, ref, Encoded(groupId));
      TakeLast(groupId);
    case ObjectMessage(o) =>
      TakeEncoded(o.objectId, Encoded(o.priority) + (Encoded(o.timestampMs) + Counted(o.payload)));
      TakeEncoded(o.priority, Encoded(o.timestampMs) + Counted(o.payload));
      TakeEncoded(o.timestampMs, Counted(o.payload));
      TakeLastCounted(o.payload);
  }

  /** Decoding the frame of a message gives the message back. */
  lemma DecodeFrame(utf8: Text -> bool, m: Message)
    requires Encodable(utf8, m)
    ensures Decoding(utf8, Frame(utf8, m)) == Ok(Canonical(m))
  {
    hide TakeVarint, TakeMessage, Encoded, Payload;
    var payload := Payload(utf8, m);
    TakeEncoded(TypeCode(m), Encoded(|payload|) + payload);
    TakeEncoded(|payload|, payload);
    TakePayload(utf8, m);
  }

  // ----- whatever decodes can be encoded -----

  lemma VarintShrinks(s: seq<Byte>)
    ensures TakeVarint(s).Ok? ==>
      var (v, rest) := TakeVarint(s).value;
      v <= VARINT_MAX && |Encoded(v)| + |rest| <= |s|
  {
    hide Encoded;
    EncodedIsShortest(s);
  }

  lemma BytesShrink(s: seq<Byte>)
    ensures TakeBytes(s).Ok? ==>
      var (b, rest) := TakeBytes(s).value;
      |b| <= VARINT_MAX && |Counted(b)| + |rest| <= |s|
  {
    hide Encoded, TakeVarint;
    VarintShrinks(s);
    if TakeBytes(s).Ok? {
      var (len, rest) := TakeVarint(s).value;
      assert |rest[..len]| == len;
    }
  }

  lemma TextShrinks(utf8: Text -> bool, s: seq<Byte>)
    ensures TakeText(utf8, s).Ok? ==>
      var (t, rest) := TakeText(utf8, s).value;
      TextOk(utf8, t) && |Counted(t)| + |rest| <= |s|
  {
    hide TakeBytes, Counted;
    BytesShrink(s);
  }

  lemma TrackShrinks(utf8: Text -> bool, s: seq<Byte>)
    ensures TakeTrack(utf8, s).Ok? ==>
      var (t, rest) := TakeTrack(utf8, s).value;
      TrackOk(utf8, t) && |Counted(t.namespace)| + |Counted(t.name)| + |rest| <= |s|
  {
    hide TakeText, Counted, TextOk;
    TextShrinks(utf8, s);
    if TakeText(utf8, s).Ok? { TextShrinks(utf8, TakeText(utf8, s).value.1); }
  }

  lemma RefShrinks(utf8: Text -> bool, s: seq<Byte>)
    requires TakeRef(utf8, s).Ok?
    ensures var (ref, rest) := TakeRef(utf8, s).value;
      && (match ref case Alias(a) => a <= VARINT_MAX case Full(t) => TrackOk(utf8, t))
      && forall tail :: |RefBytes(utf8, ref, tail)| + |rest| <= |s| + |tail|
  {
    hide TakeVarint, TakeTrack, Encoded, Counted, TrackOk;
    VarintShrinks(s);
    var (tag, s1) := TakeVarint(s).value;
    if tag == REF_ALIAS {
      VarintShrinks(s1);
    } else {
      TrackShrinks(utf8, s1);
    }
  }

  lemma SubscribeShrinks(utf8: Text -> bool, s: seq<Byte>)
    requires TakeMessage(utf8, T_SUBSCRIBE, s).Ok?
    ensures var (m, rest) := TakeMessage(utf8, T_SUBSCRIBE, s).value;
      FieldsOk(utf8, m) && |Payload(utf8, m)| + |rest| <= |s| && Canonical(m) == m
  {
    hide TakeVarint, TakeTrack, Encoded, Counted, TrackOk;
    VarintShrinks(s);
    var (id, s1) := TakeVarint(s).value;
    VarintShrinks(s1);
    var (alias, s2) := TakeVarint(s1).value;
    TrackShrinks(utf8, s2);
    var (track, s3) := TakeTrack(utf8, s2).value;
    VarintShrinks(s3);
    var (start, s4) := TakeVarint(s3).value;
    VarintShrinks(s4);
    var (priority, s5) := TakeVarint(s4).value;
    ByteShorter(priority);
  }

  lemma ByteShorter(v: nat)
    requires v <= VARINT_MAX
    ensures |Encoded(v % 256)| <= |Encoded(v)|
  {
    hide Encoded;
  }

  lemma ObjectShrinks(utf8: Text -> bool, s: seq<Byte>)
    requires TakeMessage(utf8, T_OBJECT, s).Ok?
    ensures var (m, rest) := TakeMessage(utf8, T_OBJECT, s).value;
      FieldsOk(utf8, m) && |Payload(utf8, m)| + |rest| <= |s| && Canonical(m) == m
  {
    hide TakeVarint, TakeBytes, Encoded, Counted;
    VarintShrinks(s);
    var (objectId, s1) := TakeVarint(s).value;
    VarintShrinks(s1);
    var (priority, s2) := TakeVarint(s1).value;
    VarintShrinks(s2);
    var (timestampMs, s3) := TakeVarint(s2).value;
    BytesShrink(s3);
    ByteShorter(priority);
  }

  lemma MessageShrinks(utf8: Text -> bool, code: nat, s: seq<Byte>)
    requires TakeMessage(utf8, code, s).Ok?
    ensures var (m, rest) := TakeMessage(utf8, code, s).value;
      FieldsOk(utf8, m) && |Payload(utf8, m)| + |rest| <= |s| && Canonical(m) == m && TypeCode(m) == code
  {
    hide TakeVarint, TakeText, TakeTrack, TakeRef, Encoded, Counted, TextOk, TrackOk, TrackBytes, RefBytes;
    if code == T_SUBSCRIBE {
      SubscribeShrinks(utf8, s);
    } else if code == T_OBJECT {
      ObjectShrinks(utf8, s);
    } else if code == T_ANNOUNCE || code == T_ANNOUNCE_OK || code == T_GOAWAY {
      TextShrinks(utf8, s);
    } else if code == T_GROUP_HEADER {
      RefShrinks(utf8, s);
      VarintShrinks(TakeRef(utf8, s).value.1);
    } else {
      VarintShrinks(s);
      var (v, s1) := TakeVarint(s).value;
      if code == T_SETUP {
        VarintShrinks(s1);
      } else if code == T_SUBSCRIBE_ERROR {
        VarintShrinks(s1);
        TextShrinks(utf8, TakeVarint(s1).value.1);
      }
    }
  }

  /** Any frame that decodes, however wastefully it is encoded, decodes to a message whose own frame is
      no longer and decodes to the same message. */
  lemma Normalizes(utf8: Text -> bool, frame: seq<Byte>)
    requires Decoding(utf8, frame).Ok?
    ensures var m := Decoding(utf8, frame).value;
      Encodable(utf8, m) && |Frame(utf8, m)| <= |frame| && Decoding(utf8, Frame(utf8, m)) == Ok(m)
  {
    hide TakeVarint, TakeMessage, Encoded, Payload, FieldsOk, Canonical;
    VarintShrinks(frame);
    var (code, s1) := TakeVarint(frame).value;
    VarintShrinks(s1);
    var (len, payload) := TakeVarint(s1).value;
    MessageShrinks(utf8, code, payload);
    var m := Decoding(utf8, frame).value;
    LongerIsLonger(|Payload(utf8, m)|, len);
    DecodeFrame(utf8, m);
  }

  lemma LongerIsLonger(v: nat, w: nat)
    requires v <= w <= VARINT_MAX
    ensures |Encoded(v)| <= |Encoded(w)|
  {
    hide Encoded;
  }
}
