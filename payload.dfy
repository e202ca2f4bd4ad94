/** Payloads: a sequence of length-prefixed fields,
      [length: 4 bytes big-endian][bytes] ...
    A string field holds the UTF-8 encoding of the string.  The builders put
    no bound on a field; the readers accept at most 10 000 bytes for a
    string and 100 000 000 for file content. */
module Payloads {
  import opened Bytes
  import opened Failures
  import opened Utf8
  import opened Streams

  /** The largest string field readString accepts. */
  const MAX_STRING: int := 10_000
  /** The largest content field readBytes accepts. */
  const MAX_CONTENT: int := 100_000_000

  /** The result of parsing a PUT_FILE payload. */
  datatype PutFileData = PutFileData(path: string, content: seq<byte>)

  /** The result of parsing a LOCK_REQ or UNLOCK payload. */
  datatype LockReqData = LockReqData(path: string, mode: string)

  /** A string whose UTF-8 encoding fits in a Java array. */
  predicate Encodable(s: string) {
    IsArrayLength(|Encode(s)|)
  }

  // ---------------------------------------------------------------------
  // Writing

  /** The bytes writeString appends for `s`. */
  function StringField(s: string): seq<byte>
    requires Encodable(s)
  {
    Be32(|Encode(s)|) + Encode(s)
  }

  /** The bytes writeBytes appends for `b`. */
  function BytesField(b: seq<byte>): seq<byte>
    requires IsArrayLength(|b|)
  {
    Be32(|b|) + b
  }

  /** writeString: the length of the encoding, then the encoding. */
  method WriteString(dos: ByteOutput, s: string)
    requires Encodable(s)
    modifies dos
    ensures dos.written == old(dos.written) + StringField(s)
  {
    var bytes := Encode(s);
    dos.WriteInt(|bytes|);
    dos.Write(bytes);
  }

  /** writeBytes: the length, then the bytes. */
  method WriteBytes(dos: ByteOutput, b: seq<byte>)
    requires IsArrayLength(|b|)
    modifies dos
    ensures dos.written == old(dos.written) + BytesField(b)
  {
    dos.WriteInt(|b|);
    dos.Write(b);
  }

  /** buildPutFilePayload: the path field, then the content field. */
  function BuildPutFilePayload(path: string, content: seq<byte>): (r: seq<byte>)
    requires Encodable(path) && IsArrayLength(|content|)
    ensures |r| == 8 + |Encode(path)| + |content|
    ensures r[..4 + |Encode(path)|] == StringField(path)
    ensures r[4 + |Encode(path)|..] == BytesField(content)
  {
    StringField(path) + BytesField(content)
  }

  /** buildLockReqPayload: the path field, then the mode field. */
  function BuildLockReqPayload(path: string, mode: string): (r: seq<byte>)
    requires Encodable(path) && Encodable(mode)
    ensures |r| == 8 + |Encode(path)| + |Encode(mode)|
    ensures r[..4 + |Encode(path)|] == StringField(path)
    ensures r[4 + |Encode(path)|..] == StringField(mode)
  {
    StringField(path) + StringField(mode)
  }

  /** buildUnlockPayload has the layout of a LOCK_REQ payload. */
  function BuildUnlockPayload(path: string, mode: string): (r: seq<byte>)
    requires Encodable(path) && Encodable(mode)
    ensures r == BuildLockReqPayload(path, mode)
  {
    BuildLockReqPayload(path, mode)
  }

  /** buildStringPayload: a single string field. */
  function BuildStringPayload(text: string): (r: seq<byte>)
    requires Encodable(text)
    ensures |r| == 4 + |Encode(text)|
    ensures r == StringField(text)
  {
    StringField(text)
  }

  // ---------------------------------------------------------------------
  // Reading

  /** The bytes readString reads at `pos`, before decoding: a length
      outside 0..10 000 is an IOException before any string byte is read;
      too few bytes is an EOFException. */
  function ReadEncodedAt(data: seq<byte>, pos: nat): (r: Step<seq<byte>>)
    ensures r.result.Ok? ==> pos + 4 <= r.next <= |data| && r.next == pos + 4 + |r.result.value|
    ensures r.result.Ok? ==> |r.result.value| <= MAX_STRING
                             && r.result.value == data[pos + 4..r.next]
    ensures r.result.Err? ==> r.result.error.IsIOException()
  {
    match ReadIntAt(data, pos)
    case Err(e) => Step(Err(e), |data|)
    case Ok((len, p1)) =>
      if len < 0 || len > MAX_STRING then
        Step(Err(IOFailure), p1)
      else
        match ReadFullyAt(data, p1, len)
        case Err(e) => Step(Err(e), |data|)
        case Ok((bytes, p2)) => Step(Ok(bytes), p2)
  }

  /** readString at `pos`: the bytes, decoded as UTF-8. */
  function ReadStringAt(data: seq<byte>, pos: nat): (r: Step<string>)
    ensures r.result.Ok? ==> pos + 4 <= r.next <= |data| && r.next - (pos + 4) <= MAX_STRING
    ensures r.result.Err? ==> r.result.error.IsIOException()
  {
    var raw := ReadEncodedAt(data, pos);
    if raw.result.Ok? then Step(Ok(Decode(raw.result.value)), raw.next)
    else Step(Err(raw.result.error), raw.next)
  }

  /** readBytes at `pos`: the same, with the 100 000 000 byte bound. */
  function ReadBytesAt(data: seq<byte>, pos: nat): (r: Step<seq<byte>>)
    ensures r.result.Ok? ==> pos + 4 <= r.next <= |data| && r.next == pos + 4 + |r.result.value|
    ensures r.result.Ok? ==> |r.result.value| <= MAX_CONTENT
                             && r.result.value == data[pos + 4..r.next]
    ensures r.result.Err? ==> r.result.error.IsIOException()
  {
    match ReadIntAt(data, pos)
    case Err(e) => Step(Err(e), |data|)
    case Ok((len, p1)) =>
      if len < 0 || len > MAX_CONTENT then
        Step(Err(IOFailure), p1)
      else
        match ReadFullyAt(data, p1, len)
        case Err(e) => Step(Err(e), |data|)
        case Ok((bytes, p2)) => Step(Ok(bytes), p2)
  }

  /** readString on a DataInputStream. */
  method ReadString(dis: ByteInput) returns (r: Result<string>)
    requires dis.Valid()
    modifies dis
    ensures dis.Valid()
    ensures var s := ReadStringAt(dis.data, old(dis.pos)); r == s.result && dis.pos == s.next
  {
    var len := dis.ReadInt();
    if len.Err? {
      return Err(len.error);
    }
    if len.value < 0 || len.value > MAX_STRING {
      return Err(IOFailure);
    }
    var bytes := dis.ReadFully(len.value);
    if bytes.Err? {
      return Err(bytes.error);
    }
    r := Ok(Decode(bytes.value));
  }

  /** readBytes on a DataInputStream. */
  method ReadBytes(dis: ByteInput) returns (r: Result<seq<byte>>)
    requires dis.Valid()
    modifies dis
    ensures dis.Valid()
    ensures var s := ReadBytesAt(dis.data, old(dis.pos)); r == s.result && dis.pos == s.next
  {
    var len := dis.ReadInt();
    if len.Err? {
      return Err(len.error);
    }
    if len.value < 0 || len.value > MAX_CONTENT {
      return Err(IOFailure);
    }
    r := dis.ReadFully(len.value);
  }

  /** parsePutFilePayload: every failure is an IOException. */
  function ParsePutFilePayload(payload: seq<byte>): (r: Result<PutFileData>)
    ensures r.Ok? ==> |r.value.content| <= MAX_CONTENT
    ensures r.Err? ==> r.error.IsIOException()
  {
    var path := ReadStringAt(payload, 0);
    if path.result.Err? then Err(path.result.error)
    else
      var content := ReadBytesAt(payload, path.next);
      if content.result.Err? then Err(content.result.error)
      else Ok(PutFileData(path.result.value, content.result.value))
  }

  /** parseLockReqPayload: every failure is an IOException. */
  function ParseLockReqPayload(payload: seq<byte>): (r: Result<LockReqData>)
    ensures r.Err? ==> r.error.IsIOException()
  {
    var path := ReadStringAt(payload, 0);
    if path.result.Err? then Err(path.result.error)
    else
      var mode := ReadStringAt(payload, path.next);
      if mode.result.Err? then Err(mode.result.error)
      else Ok(LockReqData(path.result.value, mode.result.value))
  }

  /** parseUnlockPayload reads a LOCK_REQ payload. */
  function ParseUnlockPayload(payload: seq<byte>): (r: Result<LockReqData>)
    ensures r == ParseLockReqPayload(payload)
  {
    ParseLockReqPayload(payload)
  }

  /** parseStringPayload: every failure is an IOException. */
  function ParseStringPayload(payload: seq<byte>): (r: Result<string>)
    ensures r.Err? ==> r.error.IsIOException()
  {
    ReadStringAt(payload, 0).result
  }

  // ---------------------------------------------------------------------
  // Properties

  /** readString reads back the bytes of a length-prefixed field. */
  lemma ReadEncodedAtBytes(data: seq<byte>, pos: nat, e: seq<byte>)
    requires |e| <= MAX_STRING
    requires pos + 4 + |e| <= |data| && data[pos..pos + 4 + |e|] == Be32(|e|) + e
    ensures ReadEncodedAt(data, pos) == Step(Ok(e), pos + 4 + |e|)
  {
    var h := Be32(|e|);
    assert |h| == 4;
    SplitSlice(data, pos, h, e);
    ReadIntAtSlice(data, pos, |e|);
    ReadFullyAtSlice(data, pos + 4, e);
  }

  /** A length-prefixed encoding at `pos` reads back as its decoding. */
  lemma ReadStringAtBytes(data: seq<byte>, pos: nat, e: seq<byte>)
    requires |e| <= MAX_STRING
    requires pos + 4 + |e| <= |data| && data[pos..pos + 4 + |e|] == Be32(|e|) + e
    ensures ReadStringAt(data, pos) == Step(Ok(Decode(e)), pos + 4 + |e|)
  {
    ReadEncodedAtBytes(data, pos, e);
  }

  /** A string field that sits at `pos` reads back as its string, when its
      encoding is within the bound, and the cursor ends just after it. */
  lemma ReadStringAtField(data: seq<byte>, pos: nat, s: string)
    requires Encodable(s) && |Encode(s)| <= MAX_STRING
    requires pos + |StringField(s)| <= |data| && data[pos..pos + |StringField(s)|] == StringField(s)
    ensures ReadStringAt(data, pos) == Step(Ok(s), pos + |StringField(s)|)
  {
    ReadStringAtBytes(data, pos, Encode(s));
    DecodeEncode(s);
  }

  /** The same for a content field within the content bound. */
  lemma ReadBytesAtField(data: seq<byte>, pos: nat, b: seq<byte>)
    requires |b| <= MAX_CONTENT
    requires pos + |BytesField(b)| <= |data| && data[pos..pos + |BytesField(b)|] == BytesField(b)
    ensures ReadBytesAt(data, pos) == Step(Ok(b), pos + |BytesField(b)|)
  {
    var h := Be32(|b|);
    assert |h| == 4;
    SplitSlice(data, pos, h, b);
    ReadIntAtSlice(data, pos, |b|);
    ReadFullyAtSlice(data, pos + 4, b);
  }

  /** A field cut short at the end of the input reads as an EOFException. */
  lemma ReadTruncatedField(data: seq<byte>, pos: nat, f: seq<byte>, bound: int)
    requires 4 <= |f| && IsInt(|f| - 4) && 0 <= |f| - 4 <= bound
    requires f[..4] == Be32(|f| - 4)
    requires pos <= |data| < pos + |f| && data[pos..] == f[..|data| - pos]
    ensures bound == MAX_STRING ==> ReadStringAt(data, pos) == Step(Err(EOF), |data|)
    ensures bound == MAX_CONTENT ==> ReadBytesAt(data, pos) == Step(Err(EOF), |data|)
  {
    if pos + 4 <= |data| {
      var k := |data| - pos;
      SliceOfSlice(data, pos, |data|, 0, 4);
      SliceOfSlice(f, 0, k, 0, 4);
      assert data[pos..pos + 4] == f[..4];
      ReadIntAtSlice(data, pos, |f| - 4);
      assert ReadFullyAt(data, pos + 4, |f| - 4).Err?;
    }
  }

  /** Round trip of a PUT_FILE payload, whatever bytes follow it. */
  lemma PutFileRoundTrip(path: string, content: seq<byte>, rest: seq<byte>)
    requires Encodable(path) && |Encode(path)| <= MAX_STRING && |content| <= MAX_CONTENT
    ensures ParsePutFilePayload(BuildPutFilePayload(path, content) + rest)
            == Ok(PutFileData(path, content))
  {
    var f1 := StringField(path);
    var f2 := BytesField(content);
    var data := f1 + f2 + rest;
    assert data == BuildPutFilePayload(path, content) + rest;
    assert data[0..|f1|] == f1;
    ReadStringAtField(data, 0, path);
    assert data[|f1|..|f1| + |f2|] == f2;
    ReadBytesAtField(data, |f1|, content);
  }

  /** Round trip of a LOCK_REQ payload, whatever bytes follow it. */
  lemma LockReqRoundTrip(path: string, mode: string, rest: seq<byte>)
    requires Encodable(path) && |Encode(path)| <= MAX_STRING
    requires Encodable(mode) && |Encode(mode)| <= MAX_STRING
    ensures ParseLockReqPayload(BuildLockReqPayload(path, mode) + rest)
            == Ok(LockReqData(path, mode))
  {
    var f1 := StringField(path);
    var f2 := StringField(mode);
    var data := f1 + f2 + rest;
    assert data == BuildLockReqPayload(path, mode) + rest;
    assert data[0..|f1|] == f1;
    ReadStringAtField(data, 0, path);
    assert data[|f1|..|f1| + |f2|] == f2;
    ReadStringAtField(data, |f1|, mode);
  }

  /** Round trip of a single-string payload, whatever bytes follow it. */
  lemma StringRoundTrip(text: string, rest: seq<byte>)
    requires Encodable(text) && |Encode(text)| <= MAX_STRING
    ensures ParseStringPayload(BuildStringPayload(text) + rest) == Ok(text)
  {
    var data := StringField(text) + rest;
    assert data[0..|StringField(text)|] == StringField(text);
    ReadStringAtField(data, 0, text);
  }

  /** A length field outside 0..10 000 makes readString fail with an
      IOException after the four length bytes; outside 0..100 000 000 the
      same holds for readBytes. */
  lemma BadLengthRejected(data: seq<byte>, pos: nat)
    requires pos + 4 <= |data|
    ensures var len := FromBe32(data[pos..pos + 4]);
      (len < 0 || len > MAX_STRING) ==> ReadStringAt(data, pos) == Step(Err(IOFailure), pos + 4)
    ensures var len := FromBe32(data[pos..pos + 4]);
      (len < 0 || len > MAX_CONTENT) ==> ReadBytesAt(data, pos) == Step(Err(IOFailure), pos + 4)
  {
  }

  /** The builder writes a string field of any length, but one whose
      encoding is over 10 000 bytes does not parse, in any payload. */
  lemma OverlongStringNotParsed(text: string, mode: string, rest: seq<byte>)
    requires Encodable(text) && |Encode(text)| > MAX_STRING && Encodable(mode)
    ensures ParseStringPayload(BuildStringPayload(text) + rest) == Err(IOFailure)
    ensures ParseLockReqPayload(BuildLockReqPayload(text, mode) + rest) == Err(IOFailure)
    ensures ParsePutFilePayload(StringField(text) + rest) == Err(IOFailure)
  {
    var data := StringField(text) + rest;
    assert data[0..4] == Be32(|Encode(text)|);
    ReadIntAtSlice(data, 0, |Encode(text)|);
    assert BuildLockReqPayload(text, mode) + rest == StringField(text) + (StringField(mode) + rest);
    var data2 := StringField(text) + (StringField(mode) + rest);
    assert data2[0..4] == Be32(|Encode(text)|);
    ReadIntAtSlice(data2, 0, |Encode(text)|);
  }

  /** Every proper prefix of a built PUT_FILE payload fails to parse with
      an EOFException. */
  lemma PutFileTruncated(path: string, content: seq<byte>, k: nat)
    requires Encodable(path) && |Encode(path)| <= MAX_STRING && |content| <= MAX_CONTENT
    requires k < |BuildPutFilePayload(path, content)|
    ensures ParsePutFilePayload(BuildPutFilePayload(path, content)[..k]) == Err(EOF)
  {
    var f1 := StringField(path);
    var f2 := BytesField(content);
    var full := f1 + f2;
    var data := full[..k];
    if k < |f1| {
      assert data[0..] == f1[..k];
      ReadTruncatedField(data, 0, f1, MAX_STRING);
    } else {
      assert data[0..|f1|] == f1;
      ReadStringAtField(data, 0, path);
      assert data[|f1|..] == f2[..k - |f1|];
      ReadTruncatedField(data, |f1|, f2, MAX_CONTENT);
    }
  }

  /** Every proper prefix of a built LOCK_REQ payload fails to parse with
      an EOFException. */
  lemma LockReqTruncated(path: string, mode: string, k: nat)
    requires Encodable(path) && |Encode(path)| <= MAX_STRING
    requires Encodable(mode) && |Encode(mode)| <= MAX_STRING
    requires k < |BuildLockReqPayload(path, mode)|
    ensures ParseLockReqPayload(BuildLockReqPayload(path, mode)[..k]) == Err(EOF)
  {
    var f1 := StringField(path);
    var f2 := StringField(mode);
    var full := f1 + f2;
    var data := full[..k];
    if k < |f1| {
      assert data[0..] == f1[..k];
      ReadTruncatedField(data, 0, f1, MAX_STRING);
    } else {
      assert data[0..|f1|] == f1;
      ReadStringAtField(data, 0, path);
      assert data[|f1|..] == f2[..k - |f1|];
      ReadTruncatedField(data, |f1|, f2, MAX_STRING);
    }
  }

  /** Every proper prefix of a built single-string payload fails to parse
      with an EOFException. */
  lemma StringTruncated(text: string, k: nat)
    requires Encodable(text) && |Encode(text)| <= MAX_STRING
    requires k < |BuildStringPayload(text)|
    ensures ParseStringPayload(BuildStringPayload(text)[..k]) == Err(EOF)
  {
    var f := StringField(text);
    var data := f[..k];
    assert data[0..] == f[..k];
    ReadTruncatedField(data, 0, f, MAX_STRING);
  }
}
