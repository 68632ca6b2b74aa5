/**
  `WireMessage`: Jupyter messages as ZeroMQ frames, following "The Wire Protocol" section of
  "Messaging in Jupyter". JSON, base64 and HMAC are given by a `Codec`, with the laws they obey.
 */
module Wire {
  import opened Wrappers
  import opened Utf8
  import opened Messages

  const DELIMITER: Bytes := Ascii("<IDS|MSG>")

  datatype WireHeader = WireHeader(
    id: string, kind: string, session: Text, username: string, date: string, version: string)

  datatype Connection = Connection(session: Text, username: string, version: string, key: Option<Bytes>)

  datatype WireMessage = WireMessage(session: Text, channel: Channel, parts: seq<Bytes>)

  datatype Error =
    | BadBuffer
    | NoDelimiter
    | NoSignature
    | SignatureNotText
    | SignatureMismatch
    | BadHeader
    | BadParent
    | BadMetadata
    | BadContent
    | OutOfBounds

  /** The libraries the codec calls. `mac` is a function of the key and of all bytes fed to it. */
  datatype Codec = Codec(
    printHeader: WireHeader -> Bytes,
    parseHeader: Bytes -> Option<WireHeader>,
    printJson: Json -> Bytes,
    parseJson: Bytes -> Option<Json>,
    decode64: string -> Option<Bytes>,
    encode64: Bytes -> string,
    mac: (Bytes, Bytes) -> Bytes)
  {
    /** Parsing undoes printing, encoding undoes an accepted decoding, a printed header has at
        least five bytes, and no bytes at all are no header. */
    ghost predicate Lawful() {
      && (forall h :: parseHeader(printHeader(h)) == Some(h) && |printHeader(h)| >= 5)
      && (forall v: Json :: v.Canonical() ==> parseJson(printJson(v)) == Some(v))
      && (forall s :: decode64(s).Some? ==> encode64(decode64(s).value) == s)
      && parseHeader([]) == None
    }
  }

  // ---- Signatures.

  function HexDigit(n: int): (b: Byte)
    requires 0 <= n < 16
    ensures b < 128
  {
    if n < 10 then (48 + n) as Byte else (87 + n) as Byte
  }

  function Hex(bytes: Bytes): (r: Bytes)
    ensures |r| == 2 * |bytes| && forall i :: 0 <= i < |r| ==> r[i] < 128
  {
    if |bytes| == 0 then []
    else [HexDigit(bytes[0] as int / 16), HexDigit(bytes[0] as int % 16)] + Hex(bytes[1..])
  }

  function Joined(parts: seq<Bytes>): (r: Bytes) {
    if |parts| == 0 then [] else Joined(parts[..|parts| - 1]) + parts[|parts| - 1]
  }

  function Signature(codec: Codec, key: Bytes, parts: seq<Bytes>): (r: Bytes) {
    Hex(codec.mac(key, Joined(parts)))
  }

  /** Feed the parts to the MAC one after the other. */
  method Sign(codec: Codec, key: Bytes, parts: seq<Bytes>) returns (r: Bytes)
    ensures r == Signature(codec, key, parts)
  {
    var fed: Bytes := [];
    for i := 0 to |parts|
      invariant fed == Joined(parts[..i])
    {
      assert parts[..i + 1][..i] == parts[..i];
      fed := fed + parts[i];
    }
    assert parts[..|parts|] == parts;
    r := Hex(codec.mac(key, fed));
  }

  /** The value of a lower-case hexadecimal digit. */
  function DigitValue(c: Byte): (n: Option<int>) {
    if '0' as int <= c as int <= '9' as int then Some(c as int - '0' as int)
    else if 'a' as int <= c as int <= 'f' as int then Some(10 + c as int - 'a' as int)
    else None
  }

  /** A signature is the MAC written in hexadecimal, the high digit of each byte first. */
  lemma {:induction false} HexIsRead(bytes: Bytes, i: nat)
    requires i < |bytes|
    ensures var high, low := DigitValue(Hex(bytes)[2 * i]), DigitValue(Hex(bytes)[2 * i + 1]);
            high.Some? && low.Some? && 16 * high.value + low.value == bytes[i] as int
  {
    if i > 0 {
      HexIsRead(bytes[1..], i - 1);
    }
  }

  // ---- From a message to frames.

  /** The bytes of the buffers, when all of them decode. */
  function DecodeAll(codec: Codec, buffers: seq<string>): (r: Option<seq<Bytes>>)
    ensures r.Some? ==> |r.value| == |buffers|
  {
    if |buffers| == 0 then Some([])
    else
      match (DecodeAll(codec, buffers[..|buffers| - 1]), codec.decode64(buffers[|buffers| - 1]))
      case (Some(front), Some(last)) => Some(front + [last])
      case _ => None
  }

  function EncodeAll(codec: Codec, buffers: seq<Bytes>): (r: seq<string>)
    ensures |r| == |buffers| && forall i :: 0 <= i < |r| ==> r[i] == codec.encode64(buffers[i])
  {
    seq(|buffers|, i requires 0 <= i < |buffers| => codec.encode64(buffers[i]))
  }

  function OnWire(connection: Connection, header: Header, date: string): (h: WireHeader) {
    WireHeader(header.id, header.kind, connection.session, connection.username, date, connection.version)
  }

  /** The four signed parts: header, parent header, metadata and content. */
  function Body(codec: Codec, connection: Connection, m: Message, date: string, parentDate: string): (parts: seq<Bytes>)
    ensures |parts| == 4
  {
    [ codec.printHeader(OnWire(connection, m.header, date)),
      if m.parent.Some? then codec.printHeader(OnWire(connection, m.parent.value, parentDate)) else Ascii("{}"),
      codec.printJson(m.metadata),
      codec.printJson(m.content) ]
  }

  function SignatureFrame(codec: Codec, key: Option<Bytes>, body: seq<Bytes>): (frame: Bytes) {
    if key.Some? then Signature(codec, key.value, body) else []
  }

  function Encoded(codec: Codec, connection: Connection, m: Message, date: string, parentDate: string): (r: Result<WireMessage, Error>) {
    var body := Body(codec, connection, m, date, parentDate);
    match DecodeAll(codec, m.buffers)
    case None => Err(BadBuffer)
    case Some(buffers) =>
      Ok(WireMessage(connection.session, m.channel, [SignatureFrame(codec, connection.key, body)] + body + buffers))
  }

  /** `from_jupyter`; the dates are the clock readings stamped on the two headers. */
  method FromJupyter(codec: Codec, m: Message, connection: Connection, date: string, parentDate: string)
    returns (r: Result<WireMessage, Error>)
    ensures r == Encoded(codec, connection, m, date, parentDate)
  {
    hide Valid;
    hide Ascii;
    hide Signature;
    var parts: seq<Bytes> := [codec.printHeader(OnWire(connection, m.header, date))];
    if m.parent.Some? {
      parts := parts + [codec.printHeader(OnWire(connection, m.parent.value, parentDate))];
    } else {
      parts := parts + [Ascii("{}")];
    }
    parts := parts + [codec.printJson(m.metadata)];
    parts := parts + [codec.printJson(m.content)];
    ghost var body := Body(codec, connection, m, date, parentDate);
    assert parts == body;
    if connection.key.Some? {
      var signature := Sign(codec, connection.key.value, parts);
      parts := [signature] + parts;
    } else {
      parts := [[]] + parts;
    }
    ghost var signed := parts;
    assert signed == [SignatureFrame(codec, connection.key, body)] + body;
    for i := 0 to |m.buffers|
      invariant var done := DecodeAll(codec, m.buffers[..i]);
                done.Some? && parts == signed + done.value
    {
      assert m.buffers[..i + 1][..i] == m.buffers[..i];
      var decoded := codec.decode64(m.buffers[i]);
      if decoded.None? {
        DecodeAllFails(codec, m.buffers, i);
        return Err(BadBuffer);
      }
      parts := parts + [decoded.value];
    }
    assert m.buffers[..|m.buffers|] == m.buffers;
    r := Ok(WireMessage(connection.session, m.channel, parts));
  }

  lemma {:induction false} DecodeAllFails(codec: Codec, buffers: seq<string>, i: nat)
    requires i < |buffers| && codec.decode64(buffers[i]).None?
    ensures DecodeAll(codec, buffers).None?
  {
    if i < |buffers| - 1 {
      DecodeAllFails(codec, buffers[..|buffers| - 1], i);
    }
  }

  lemma {:induction false} DecodeAllExactly(codec: Codec, buffers: seq<string>)
    ensures DecodeAll(codec, buffers).Some? <==> forall i :: 0 <= i < |buffers| ==> codec.decode64(buffers[i]).Some?
    ensures DecodeAll(codec, buffers).Some? ==>
              forall i :: 0 <= i < |buffers| ==> codec.decode64(buffers[i]) == Some(DecodeAll(codec, buffers).value[i])
  {
    if |buffers| > 0 {
      var front := buffers[..|buffers| - 1];
      DecodeAllExactly(codec, front);
      assert forall i :: 0 <= i < |front| ==> buffers[i] == front[i];
    }
  }

  /** The frames of a message, one by one: the signature of the next four together, the header with
      the session, user, date and version of the connection, the parent's header or an empty object,
      the metadata, the content, and the decoded buffers. It has frames exactly when every buffer
      decodes. */
  lemma EncodedExactly(codec: Codec, connection: Connection, m: Message, date: string, parentDate: string)
    ensures var r := Encoded(codec, connection, m, date, parentDate);
            && (r.Ok? <==> forall i :: 0 <= i < |m.buffers| ==> codec.decode64(m.buffers[i]).Some?)
            && (r.Ok? ==>
                  var parts := r.value.parts;
                  && r.value.session == connection.session && r.value.channel == m.channel && |parts| == 5 + |m.buffers|
                  && parts[0] == (match connection.key
                                  case None => []
                                  case Some(key) => Hex(codec.mac(key, parts[1] + parts[2] + parts[3] + parts[4])))
                  && parts[1] == codec.printHeader(WireHeader(
                       m.header.id, m.header.kind, connection.session, connection.username, date, connection.version))
                  && parts[2] == (match m.parent
                                  case None => Ascii("{}")
                                  case Some(h) => codec.printHeader(WireHeader(
                                    h.id, h.kind, connection.session, connection.username, parentDate, connection.version)))
                  && parts[3] == codec.printJson(m.metadata) && parts[4] == codec.printJson(m.content)
                  && forall i :: 0 <= i < |m.buffers| ==> codec.decode64(m.buffers[i]) == Some(parts[5 + i]))
  {
    hide Ascii;
    hide Valid;
    hide Hex;
    hide DecodeAll;
    DecodeAllExactly(codec, m.buffers);
    JoinedFour(Body(codec, connection, m, date, parentDate));
  }

  lemma JoinedFour(parts: seq<Bytes>)
    requires |parts| == 4
    ensures Joined(parts) == parts[0] + parts[1] + parts[2] + parts[3]
  {
    assert parts[..3][..2] == parts[..2] && parts[..2][..1] == parts[..1] && parts[..1][..0] == [];
    assert Joined(parts[..1]) == parts[0];
    assert Joined(parts[..2]) == parts[0] + parts[1];
  }

  /** Messages to the shell and stdin sockets carry the session as their identity. */
  predicate CarriesIdentity(channel: Channel) {
    channel.Shell? || channel.Stdin?
  }

  function Frames(w: WireMessage): (frames: seq<Bytes>) {
    (if CarriesIdentity(w.channel) then [w.session, DELIMITER] else [DELIMITER]) + w.parts
  }

  /** `Into<ZmqMessage>` */
  method IntoZmq(w: WireMessage) returns (frames: seq<Bytes>)
    ensures frames == Frames(w)
    ensures w.channel.Shell? || w.channel.Stdin? ==> frames == [w.session, Ascii("<IDS|MSG>")] + w.parts
    ensures !(w.channel.Shell? || w.channel.Stdin?) ==> frames == [Ascii("<IDS|MSG>")] + w.parts
  {
    hide Valid;
    hide Ascii;
    if CarriesIdentity(w.channel) {
      frames := [w.session];
      frames := frames + [DELIMITER];
    } else {
      frames := [DELIMITER];
    }
    ghost var start := frames;
    for i := 0 to |w.parts|
      invariant frames == start + w.parts[..i]
    {
      assert w.parts[..i + 1] == w.parts[..i] + [w.parts[i]];
      frames := frames + [w.parts[i]];
    }
    assert w.parts[..|w.parts|] == w.parts;
  }

  // ---- From frames to a message.

  /** The first position of `x`, or the length. */
  function FirstIndex<T(==)>(s: seq<T>, x: T): (i: nat)
    ensures i <= |s| && (forall j :: 0 <= j < i ==> s[j] != x)
    ensures i < |s| ==> s[i] == x
  {
    if |s| == 0 || s[0] == x then 0 else 1 + FirstIndex(s[1..], x)
  }

  lemma FirstIndexAfter<T>(front: seq<T>, x: T, rest: seq<T>)
    requires forall i :: 0 <= i < |front| ==> front[i] != x
    ensures FirstIndex(front + [x] + rest, x) == |front|
  {
    hide FirstIndex;
    var s := front + [x] + rest;
    assert s[|front|] == x;
    assert forall i :: 0 <= i < |front| ==> s[i] == front[i];
  }

  /** The position of the first delimiter, or the number of frames. */
  function FindDelimiter(frames: seq<Bytes>): (i: nat)
    ensures i <= |frames|
  {
    FirstIndex(frames, DELIMITER)
  }

  /** The check of the signature, when there is a key and a signature. */
  function CheckSignature(codec: Codec, key: Option<Bytes>, parts: seq<Bytes>): (error: Option<Error>) {
    if key.None? then None
    else if |parts| == 0 then Some(NoSignature)
    else if |parts[0]| == 0 then None
    else if !Valid(parts[0]) then Some(SignatureNotText)
    else if parts[0] != Signature(codec, key.value, parts[1..if |parts| < 5 then |parts| else 5]) then
      Some(SignatureMismatch)
    else None
  }

  function Short(h: WireHeader): (r: Header) {
    Header(h.id, h.kind)
  }

  function ParseParent(codec: Codec, part: Bytes): (r: Result<Option<Header>, Error>) {
    if |part| < 5 then Ok(None)
    else
      match codec.parseHeader(part)
      case None => Err(BadParent)
      case Some(h) => Ok(Some(Short(h)))
  }

  /** The message in the frames after the delimiter. Indexing past the end is a panic. */
  function ParseParts(codec: Codec, parts: seq<Bytes>, channel: Channel): (r: Result<Message, Error>) {
    if |parts| < 2 then Err(OutOfBounds)
    else
      match codec.parseHeader(parts[1])
      case None => Err(BadHeader)
      case Some(header) =>
        if |parts| < 3 then Err(OutOfBounds)
        else
          match ParseParent(codec, parts[2])
          case Err(e) => Err(e)
          case Ok(parent) =>
            if |parts| < 4 then Err(OutOfBounds)
            else
              match codec.parseJson(parts[3])
              case None => Err(BadMetadata)
              case Some(metadata) =>
                if |parts| < 5 then Err(OutOfBounds)
                else
                  match codec.parseJson(parts[4])
                  case None => Err(BadContent)
                  case Some(content) =>
                    Ok(Message(Short(header), parent, channel, content, metadata, EncodeAll(codec, parts[5..])))
  }

  function Decoded(codec: Codec, frames: seq<Bytes>, channel: Channel, key: Option<Bytes>): (r: Result<Message, Error>) {
    var pos := FindDelimiter(frames);
    if pos == |frames| then Err(NoDelimiter)
    else
      var parts := frames[pos + 1..];
      match CheckSignature(codec, key, parts)
      case Some(e) => Err(e)
      case None => ParseParts(codec, parts, channel)
  }

  method LocateFirst<T(==)>(s: seq<T>, x: T) returns (pos: nat)
    ensures pos == FirstIndex(s, x)
  {
    pos := 0;
    while pos < |s| && s[pos] != x
      invariant pos <= |s| && FirstIndex(s, x) == pos + FirstIndex(s[pos..], x)
    {
      assert s[pos..][1..] == s[pos + 1..];
      pos := pos + 1;
    }
  }

  method ReadBuffers(codec: Codec, parts: seq<Bytes>) returns (buffers: seq<string>)
    ensures buffers == EncodeAll(codec, if |parts| < 5 then [] else parts[5..])
  {
    buffers := [];
    var i := 5;
    while i < |parts|
      invariant i == 5 || 5 < i <= |parts|
      invariant |buffers| == i - 5
      invariant forall j :: 0 <= j < |buffers| ==> buffers[j] == codec.encode64(parts[5 + j])
    {
      buffers := buffers + [codec.encode64(parts[i])];
      i := i + 1;
    }
  }

  /** `from_zmq`, then `to_jupyter` */
  method ToJupyter(codec: Codec, frames: seq<Bytes>, channel: Channel, key: Option<Bytes>)
    returns (r: Result<Message, Error>)
    ensures r == Decoded(codec, frames, channel, key)
  {
    hide Valid;
    hide FirstIndex;
    hide Ascii;
    var pos := LocateFirst(frames, DELIMITER);
    if pos == |frames| { return Err(NoDelimiter); }
    var parts := frames[pos + 1..];
    if key.Some? {
      if |parts| == 0 { return Err(NoSignature); }
      if |parts[0]| > 0 {
        if !Valid(parts[0]) { return Err(SignatureNotText); }
        var expected := Sign(codec, key.value, parts[1..if |parts| < 5 then |parts| else 5]);
        if parts[0] != expected { return Err(SignatureMismatch); }
      }
    }
    r := ReadParts(codec, parts, channel);
  }

  method ReadParts(codec: Codec, parts: seq<Bytes>, channel: Channel) returns (r: Result<Message, Error>)
    ensures r == ParseParts(codec, parts, channel)
  {
    if |parts| < 2 { return Err(OutOfBounds); }
    var header := codec.parseHeader(parts[1]);
    if header.None? { return Err(BadHeader); }
    if |parts| < 3 { return Err(OutOfBounds); }
    var parent := ParseParent(codec, parts[2]);
    if parent.Err? { return Err(parent.error); }
    var buffers := ReadBuffers(codec, parts);
    if |parts| < 4 { return Err(OutOfBounds); }
    var metadata := codec.parseJson(parts[3]);
    if metadata.None? { return Err(BadMetadata); }
    if |parts| < 5 { return Err(OutOfBounds); }
    var content := codec.parseJson(parts[4]);
    if content.None? { return Err(BadContent); }
    r := Ok(Message(Short(header.value), parent.value, channel, content.value, metadata.value, buffers));
  }

  // ---- The round trip.

  /** A message as the program holds it, its content and metadata being `serde_json` values. */
  ghost predicate Storable(m: Message) {
    m.content.Canonical() && m.metadata.Canonical()
  }

  lemma {:induction false} EncodeUndoesDecode(codec: Codec, buffers: seq<string>)
    requires codec.Lawful() && DecodeAll(codec, buffers).Some?
    ensures EncodeAll(codec, DecodeAll(codec, buffers).value) == buffers
  {
    if |buffers| > 0 {
      EncodeUndoesDecode(codec, buffers[..|buffers| - 1]);
    }
  }

  /** The delimiter is the first one found, so what follows it is the signature and the body. */
  lemma DecodedAfter(codec: Codec, front: seq<Bytes>, rest: seq<Bytes>, channel: Channel, key: Option<Bytes>)
    requires forall i :: 0 <= i < |front| ==> front[i] != DELIMITER
    ensures Decoded(codec, front + [DELIMITER] + rest, channel, key) ==
              match CheckSignature(codec, key, rest)
              case Some(e) => Err(e)
              case None => ParseParts(codec, rest, channel)
  {
    hide Ascii;
    hide CheckSignature;
    hide ParseParts;
    FirstIndexAfter(front, DELIMITER, rest);
    assert (front + [DELIMITER] + rest)[|front| + 1..] == rest;
  }

  /** The parts an encoded message has decode to it. */
  lemma PartsDecode(codec: Codec, connection: Connection, m: Message, date: string, parentDate: string)
    requires codec.Lawful() && Storable(m) && Encoded(codec, connection, m, date, parentDate).Ok?
    ensures var parts := Encoded(codec, connection, m, date, parentDate).value.parts;
            CheckSignature(codec, connection.key, parts) == None && ParseParts(codec, parts, m.channel) == Ok(m)
  {
    var body := Body(codec, connection, m, date, parentDate);
    var buffers := DecodeAll(codec, m.buffers).value;
    var parts := [SignatureFrame(codec, connection.key, body)] + body + buffers;
    assert parts[1..5] == body && parts[5..] == buffers;
    if connection.key.Some? {
      AsciiValid(parts[0]);
    }
    EncodeUndoesDecode(codec, m.buffers);
  }

  lemma BareParts(codec: Codec, parts: seq<Bytes>, channel: Channel, key: Option<Bytes>)
    requires CheckSignature(codec, key, parts).None?
    ensures Decoded(codec, [DELIMITER] + parts, channel, key) == ParseParts(codec, parts, channel)
  {
    hide Ascii;
    hide CheckSignature;
    hide ParseParts;
    assert ([DELIMITER] + parts)[1..] == parts;
  }

  /** Decoding, part by part: what a receiver without a key reads behind the delimiter is a message
      exactly when its header, its parent (unless shorter than five bytes), its metadata and its
      content all parse, and the message is made of just these and of the buffers. */
  lemma DecodedExactly(codec: Codec, front: seq<Bytes>, parts: seq<Bytes>, channel: Channel, m: Message)
    requires forall i :: 0 <= i < |front| ==> front[i] != Ascii("<IDS|MSG>")
    requires |parts| >= 5
    ensures Decoded(codec, front + [Ascii("<IDS|MSG>")] + parts, channel, None) == Ok(m) <==>
              && Names(codec.parseHeader(parts[1]), m.header)
              && (if |parts[2]| < 5 then m.parent.None? else m.parent.Some? && Names(codec.parseHeader(parts[2]), m.parent.value))
              && codec.parseJson(parts[3]) == Some(m.metadata) && codec.parseJson(parts[4]) == Some(m.content)
              && m.channel == channel && |m.buffers| == |parts| - 5
              && forall i :: 0 <= i < |m.buffers| ==> m.buffers[i] == codec.encode64(parts[5 + i])
  {
    hide Ascii;
    hide Valid;
    DecodedAfter(codec, front, parts, channel, None);
    hide Decoded;
    if |m.buffers| == |parts| - 5 {
      assert m.buffers == EncodeAll(codec, parts[5..]) <==>
               forall i :: 0 <= i < |m.buffers| ==> m.buffers[i] == codec.encode64(parts[5 + i]);
    }
  }

  /** The header read names the message and its kind. */
  predicate Names(read: Option<WireHeader>, header: Header) {
    read.Some? && read.value.id == header.id && read.value.kind == header.kind
  }

  /** Without a delimiter there is no message; with too few parts behind it, decoding panics as soon
      as it needs one that is missing, unless something before that does not parse. */
  lemma PanicsExactly(codec: Codec, frames: seq<Bytes>, channel: Channel)
    ensures Decoded(codec, frames, channel, None) == Err(NoDelimiter) <==> Ascii("<IDS|MSG>") !in frames
    ensures forall front, parts ::
              frames == front + [Ascii("<IDS|MSG>")] + parts && Ascii("<IDS|MSG>") !in front ==>
                (Decoded(codec, frames, channel, None) == Err(OutOfBounds) <==>
                   |parts| < 5 && forall i :: 1 <= i < |parts| ==> PartReads(codec, parts, i))
  {
    hide Ascii;
    hide Valid;
    forall front, parts | frames == front + [DELIMITER] + parts && DELIMITER !in front
      ensures Decoded(codec, frames, channel, None) == Err(OutOfBounds) <==>
                |parts| < 5 && forall i :: 1 <= i < |parts| ==> PartReads(codec, parts, i)
    {
      PanicsBehind(codec, front, parts, channel);
    }
  }

  /** The header, the parent or the metadata can be read. */
  predicate PartReads(codec: Codec, parts: seq<Bytes>, i: nat)
    requires i < |parts|
  {
    match i
    case 1 => codec.parseHeader(parts[1]).Some?
    case 2 => |parts[2]| < 5 || codec.parseHeader(parts[2]).Some?
    case 3 => codec.parseJson(parts[3]).Some?
    case _ => true
  }

  lemma PanicsBehind(codec: Codec, front: seq<Bytes>, parts: seq<Bytes>, channel: Channel)
    requires DELIMITER !in front
    ensures Decoded(codec, front + [DELIMITER] + parts, channel, None) == Err(OutOfBounds) <==>
              |parts| < 5 && forall i :: 1 <= i < |parts| ==> PartReads(codec, parts, i)
  {
    hide Ascii;
    hide Valid;
    DecodedAfter(codec, front, parts, channel, None);
    hide Decoded;
    assert |parts| > 1 ==> (PartReads(codec, parts, 1) <==> codec.parseHeader(parts[1]).Some?);
    assert |parts| > 2 ==> (PartReads(codec, parts, 2) <==> |parts[2]| < 5 || codec.parseHeader(parts[2]).Some?);
    assert |parts| > 3 ==> (PartReads(codec, parts, 3) <==> codec.parseJson(parts[3]).Some?);
  }

  /** So they do behind the bare delimiter, as a kernel may send them. */
  lemma BareDecodes(codec: Codec, connection: Connection, m: Message, date: string, parentDate: string)
    requires codec.Lawful() && Storable(m) && Encoded(codec, connection, m, date, parentDate).Ok?
    ensures Decoded(codec, [DELIMITER] + Encoded(codec, connection, m, date, parentDate).value.parts, m.channel, connection.key)
            == Ok(m)
  {
    hide Encoded;
    hide Decoded;
    hide CheckSignature;
    hide ParseParts;
    hide Ascii;
    hide Codec.Lawful;
    PartsDecode(codec, connection, m, date, parentDate);
    BareParts(codec, Encoded(codec, connection, m, date, parentDate).value.parts, m.channel, connection.key);
  }

  /** A session named like the delimiter would be taken for it. */
  predicate SessionClear(connection: Connection, channel: Channel) {
    !(channel.Shell? || channel.Stdin?) || connection.session != Ascii("<IDS|MSG>")
  }

  /** With the session taken for the delimiter, the real delimiter is read as a signature that
      cannot match, or an absent signature as the header. */
  lemma MistakenDelimiter(codec: Codec, key: Option<Bytes>, parts: seq<Bytes>, channel: Channel)
    requires codec.parseHeader([]) == None && |parts| > 0 && (key.None? ==> parts[0] == [])
    ensures var rest := [DELIMITER] + parts;
            CheckSignature(codec, key, rest).Some? || ParseParts(codec, rest, channel).Err?
  {
    hide Valid;
    hide Ascii;
    hide Joined;
    if key.Some? {
      var rest := [DELIMITER] + parts;
      var signed := Signature(codec, key.value, rest[1..if |rest| < 5 then |rest| else 5]);
      assert |signed| % 2 == 0 && |DELIMITER| == 9;
      assert CheckSignature(codec, key, rest).Some?;
    }
  }

  /** The wire round trip: any delimiter-free frames in front, any buffers behind (delimiters
      included), and the message comes back, exactly when the session is not mistaken for the
      delimiter. */
  lemma WireRoundTrip(codec: Codec, connection: Connection, m: Message, date: string, parentDate: string, identities: seq<Bytes>)
    requires codec.Lawful() && Storable(m) && Encoded(codec, connection, m, date, parentDate).Ok?
    requires forall i :: 0 <= i < |identities| ==> identities[i] != DELIMITER
    ensures
      Decoded(codec, identities + Frames(Encoded(codec, connection, m, date, parentDate).value), m.channel, connection.key) == Ok(m)
      <==> SessionClear(connection, m.channel)
  {
    hide CheckSignature;
    hide ParseParts;
    hide Body;
    hide Signature;
    var w := Encoded(codec, connection, m, date, parentDate).value;
    FramesSplit(w, identities);
    PartsDecode(codec, connection, m, date, parentDate);
    MistakenDelimiter(codec, connection.key, w.parts, m.channel);
    hide Decoded;
    hide Frames;
    if connection.session != DELIMITER && CarriesIdentity(m.channel) {
      DecodedAfter(codec, identities + [w.session], w.parts, m.channel, connection.key);
    } else if !CarriesIdentity(m.channel) {
      DecodedAfter(codec, identities, w.parts, m.channel, connection.key);
    } else {
      DecodedAfter(codec, identities, [DELIMITER] + w.parts, m.channel, connection.key);
    }
  }

  lemma FramesSplit(w: WireMessage, identities: seq<Bytes>)
    ensures CarriesIdentity(w.channel) ==> identities + Frames(w) == (identities + [w.session]) + [DELIMITER] + w.parts
    ensures !CarriesIdentity(w.channel) ==> identities + Frames(w) == identities + [DELIMITER] + w.parts
    ensures CarriesIdentity(w.channel) && w.session == DELIMITER ==>
              identities + Frames(w) == identities + [DELIMITER] + ([DELIMITER] + w.parts)
  {
    hide Ascii;
    hide Valid;
  }

  /** A body other than the signed one, under the signature of a key the receiver has, is refused
      whenever the MAC tells the two apart. */
  lemma TamperingRefused(codec: Codec, key: Bytes, signed: seq<Bytes>, body: seq<Bytes>, buffers: seq<Bytes>, front: seq<Bytes>, channel: Channel)
    requires |body| == 4 && forall i :: 0 <= i < |front| ==> front[i] != DELIMITER
    requires codec.mac(key, Joined(signed)) != []
    requires Signature(codec, key, body) != Signature(codec, key, signed)
    ensures Decoded(codec, front + [DELIMITER] + ([Signature(codec, key, signed)] + body + buffers), channel, Some(key))
            == Err(SignatureMismatch)
  {
    hide ParseParts;
    hide Ascii;
    hide Joined;
    var rest := [Signature(codec, key, signed)] + body + buffers;
    AsciiValid(rest[0]);
    hide Valid;
    assert rest[1..5] == body;
    DecodedAfter(codec, front, rest, channel, Some(key));
  }

  /** A body a receiver with a key accepts: the frame after the first delimiter is empty, or is the
      signature of the four parts behind it. */
  ghost predicate SignedOrBlank(codec: Codec, key: Bytes, frames: seq<Bytes>) {
    var pos := FindDelimiter(frames);
    && pos + 5 < |frames|
    && (frames[pos + 1] == [] || frames[pos + 1] == Signature(codec, key, frames[pos + 2..pos + 6]))
  }

  /** What a receiver with a key accepts is exactly what one without would, if it is signed or its
      signature frame is empty. */
  lemma AcceptedAreSigned(codec: Codec, key: Bytes, frames: seq<Bytes>, channel: Channel, m: Message)
    ensures Decoded(codec, frames, channel, Some(key)) == Ok(m)
            <==> Decoded(codec, frames, channel, None) == Ok(m) && SignedOrBlank(codec, key, frames)
  {
    hide Ascii;
    hide Joined;
    hide Valid;
    hide FirstIndex;
    var pos := FindDelimiter(frames);
    if pos < |frames| {
      var parts := frames[pos + 1..];
      if ParseParts(codec, parts, channel).Ok? {
        assert |parts| >= 5;
        assert parts[1..5] == frames[pos + 2..pos + 6];
        SignatureIsText(codec, key, parts[1..5]);
      }
    }
  }

  lemma SignatureIsText(codec: Codec, key: Bytes, parts: seq<Bytes>)
    ensures Valid(Signature(codec, key, parts))
  {
    AsciiValid(Signature(codec, key, parts));
  }

  /** So a signature protects nothing when it can be taken off: a message whose signature frame is
      emptied still comes back, whatever key the receiver has. */
  lemma StrippedSignatureAccepted(codec: Codec, connection: Connection, m: Message, date: string, parentDate: string, front: seq<Bytes>, key: Option<Bytes>)
    requires codec.Lawful() && Storable(m) && Encoded(codec, connection, m, date, parentDate).Ok?
    requires forall i :: 0 <= i < |front| ==> front[i] != DELIMITER
    ensures var parts := Encoded(codec, connection, m, date, parentDate).value.parts;
            Decoded(codec, front + [DELIMITER] + parts[0 := []], m.channel, key) == Ok(m)
  {
    hide Ascii;
    hide Signature;
    hide Valid;
    var parts := Encoded(codec, connection, m, date, parentDate).value.parts;
    PartsDecode(codec, connection, m, date, parentDate);
    assert parts[0 := []][5..] == parts[5..];
    DecodedAfter(codec, front, parts[0 := []], m.channel, key);
  }
}
