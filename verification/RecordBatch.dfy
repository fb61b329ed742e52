/** RecordBatch v2 (sections 5.3.1 and 5.3.2 of the Apache Kafka documentation): the encoder, and the
    decoder that puts up with a cut-off tail. Header names stand as their UTF-8 bytes. */
module RecordBatch {
  import opened Dicts
  import opened Octets
  import opened Varint
  import opened Wrappers
  import Crc32c

  type Headers = seq<(Bytes, Bytes)>

  datatype Record = Record(value: Bytes, key: Option<Bytes>, timestamp: int, offset: int, headers: Headers)

  datatype EncodeError = EmptyBatch | StructError

  /** `crc32c(data)`, as the number that is packed. */
  function Words(data: Bytes): (s: seq<bv8>)
    ensures |s| == |data|
  {
    seq(|data|, i requires 0 <= i < |data| => data[i] as bv8)
  }

  /** A register as an unsigned number, byte by byte. */
  function AsNumber(w: bv32): nat {
    FromBytes((w >> 24) as bv8, ((w >> 16) & 0xFF) as bv8, ((w >> 8) & 0xFF) as bv8, (w & 0xFF) as bv8)
  }

  function FromBytes(a: bv8, b: bv8, c: bv8, d: bv8): nat {
    0x100_0000 * ByteValue(a) + 0x1_0000 * ByteValue(b) + 0x100 * ByteValue(c) + ByteValue(d)
  }

  function ByteValue(b: bv8): nat { b as nat }

  function Checksum(data: Bytes): nat { AsNumber(Crc32c.Crc(Words(data))) }

  // ------------------------------------------------------------ the encoded form

  function Blob(content: Bytes): Bytes { Number(|content|) + content }

  function HeaderBytes(headers: Headers): Bytes {
    if headers == [] then []
    else Blob(headers[0].0) + Blob(headers[0].1) + HeaderBytes(headers[1..])
  }

  function KeyBytes(key: Option<Bytes>): Bytes {
    match key
    case None => Number(-1)
    case Some(k) => Blob(k)
  }

  function Content(record: Record, delta: int, index: nat): Bytes {
    [0] + Number(delta) + Number(index) + KeyBytes(record.key) + Blob(record.value)
    + Number(|record.headers|) + HeaderBytes(record.headers)
  }

  /** `base_timestamp or records[0].timestamp or now`. */
  function FirstTimestamp(records: seq<Record>, baseTimestamp: int, now: int): int
    requires records != []
  {
    if baseTimestamp != 0 then baseTimestamp
    else if records[0].timestamp != 0 then records[0].timestamp
    else now
  }

  function Stamp(record: Record, first: int): int {
    if record.timestamp != 0 then record.timestamp else first
  }

  function Frames(records: seq<Record>, first: int, index: nat): Bytes {
    if records == [] then []
    else Blob(Content(records[0], Stamp(records[0], first) - first, index)) + Frames(records[1..], first, index + 1)
  }

  function Latest(records: seq<Record>, first: int, latest: int): int {
    if records == [] then latest
    else
      var stamp := Stamp(records[0], first);
      Latest(records[1..], first, if stamp > latest then stamp else latest)
  }

  function AttributesToCount(count: int, first: int, latest: int): (s: Bytes)
    ensures |s| == 40
  {
    Packed(0, SHORT) + Packed(count - 1, WORD) + Packed(first, LONG) + Packed(latest, LONG)
    + Packed(-1, LONG) + Packed(-1, SHORT) + Packed(-1, WORD) + Packed(count, WORD)
  }

  /** What the checksum covers: from the attributes to the end of the records. */
  function AfterCrc(records: seq<Record>, first: int): Bytes {
    AttributesToCount(|records|, first, Latest(records, first, first)) + Frames(records, first, 0)
  }

  /** A batch as it travels; a broker that stores it rewrites the base offset. */
  function Batch(baseOffset: int, afterCrc: Bytes): Bytes {
    Packed(baseOffset, LONG) + Packed(9 + |afterCrc|, WORD) + Packed(-1, WORD) + [2]
      + BigEndian(Checksum(afterCrc), WORD) + afterCrc
  }

  /** Everything `struct.pack` insists on. */
  predicate Packable(records: seq<Record>, first: int) {
    && InField(|records|, WORD)
    && InField(first, LONG) && InField(Latest(records, first, first), LONG)
    && InField(9 + |AfterCrc(records, first)|, WORD)
  }

  function Encoded(records: seq<Record>, baseTimestamp: int, now: int): Result<Bytes, EncodeError> {
    if records == [] then Failure(EmptyBatch)
    else
      var first := FirstTimestamp(records, baseTimestamp, now);
      if Packable(records, first) then Success(Batch(0, AfterCrc(records, first))) else Failure(StructError)
  }

  // ------------------------------------------------------------ the encoder

  method EncodeHeaders(headers: Headers) returns (out: Bytes)
    ensures out == HeaderBytes(headers)
  {
    out := [];
    for i := 0 to |headers|
      invariant out + HeaderBytes(headers[i..]) == HeaderBytes(headers)
    {
      var (name, value) := headers[i];
      var nameLength := EncodeVarint(|name|);
      var valueLength := EncodeVarint(|value|);
      assert headers[i..][1..] == headers[i + 1..];
      out := out + (nameLength + name + (valueLength + value));
    }
  }

  method EncodeRecord(record: Record, delta: int, index: nat) returns (out: Bytes)
    ensures out == Content(record, delta, index)
  {
    out := [0];
    var part := EncodeVarint(delta);
    out := out + part;
    part := EncodeVarint(index);
    out := out + part;
    if record.key.None? {
      part := EncodeVarint(-1);
      out := out + part;
    } else {
      part := EncodeVarint(|record.key.value|);
      out := out + (part + record.key.value);
    }
    part := EncodeVarint(|record.value|);
    out := out + (part + record.value);
    part := EncodeVarint(|record.headers|);
    out := out + part;
    part := EncodeHeaders(record.headers);
    out := out + part;
  }

  method EncodeFrames(records: seq<Record>, first: int) returns (encoded: Bytes, latest: int)
    ensures encoded == Frames(records, first, 0) && latest == Latest(records, first, first)
  {
    hide Content;
    hide Zigzag;
    hide Groups;
    latest := first;
    encoded := [];
    for i := 0 to |records|
      invariant encoded + Frames(records[i..], first, i) == Frames(records, first, 0)
      invariant Latest(records[i..], first, latest) == Latest(records, first, first)
    {
      assert records[i..][1..] == records[i + 1..];
      var stamp := Stamp(records[i], first);
      latest := if stamp > latest then stamp else latest;
      var body := EncodeRecord(records[i], stamp - first, i);
      var length := EncodeVarint(|body|);
      encoded := encoded + (length + body);
    }
  }

  /** `encode_record_batch`; `now` is the clock. */
  method EncodeRecordBatch(table: seq<bv32>, records: seq<Record>, baseTimestamp: int, now: int)
      returns (r: Result<Bytes, EncodeError>)
    requires Crc32c.IsTable(table)
    ensures r == Encoded(records, baseTimestamp, now)
  {
    hide Frames;
    hide Packed;
    hide BigEndian;
    hide InField;
    hide AttributesToCount;
    hide Latest;
    hide AsNumber;
    if |records| == 0 {
      return Failure(EmptyBatch);
    }
    var first := FirstTimestamp(records, baseTimestamp, now);
    var encoded, latest := EncodeFrames(records, first);
    if !(InField(|records|, WORD) && InField(first, LONG) && InField(latest, LONG)) {
      return Failure(StructError);
    }
    var afterCrc := AttributesToCount(|records|, first, latest) + encoded;
    var crc := Crc32c.Checksum(table, Words(afterCrc));
    var header := Packed(-1, WORD) + [2];
    var body := header + BigEndian(AsNumber(crc), WORD) + afterCrc;
    if !InField(|body|, WORD) {
      return Failure(StructError);
    }
    r := Success(Packed(0, LONG) + Packed(|body|, WORD) + body);
    assert r.value == Batch(0, afterCrc);
  }

  // ------------------------------------------------------------ reading one record

  /** A length and that many bytes, or nothing at all when the length is negative. */
  function ReadBlob(data: Bytes, cursor: int): Result<(Option<Bytes>, int), DecodeError> {
    var p :- DecodedVarint(data, cursor);
    var (length, from) := p;
    Success(if length >= 0 then (Some(Slice(data, from, from + length)), from + length) else (None, from))
  }

  function OrEmpty(blob: Option<Bytes>): Bytes { if blob.Some? then blob.value else [] }

  /** One name and its value; a negative length moves the cursor back, as the slice arithmetic does. */
  function ReadHeader(data: Bytes, cursor: int, text: Bytes -> bool): Result<(Bytes, Bytes, int), DecodeError> {
    var p :- DecodedVarint(data, cursor);
    var name := Slice(data, p.1, p.1 + p.0);
    if !text(name) then Failure(NotText)
    else
      var v :- ReadBlob(data, p.1 + p.0);
      Success((name, OrEmpty(v.0), v.1))
  }

  function ReadHeaders(data: Bytes, cursor: int, count: int, headers: Headers, text: Bytes -> bool)
      : Result<(Headers, int), DecodeError>
    decreases count
  {
    if count <= 0 then Success((headers, cursor))
    else
      var h :- ReadHeader(data, cursor, text);
      ReadHeaders(data, h.2, count - 1, Put(headers, h.0, h.1), text)
  }

  function ReadRecord(data: Bytes, cursor: int, first: int, baseOffset: int, text: Bytes -> bool)
      : Result<(Record, int), DecodeError>
  {
    var length :- DecodedVarint(data, cursor);
    var delta :- DecodedVarint(data, length.1 + 1);
    var index :- DecodedVarint(data, delta.1);
    var key :- ReadBlob(data, index.1);
    var value :- ReadBlob(data, key.1);
    var count :- DecodedVarint(data, value.1);
    var headers :- ReadHeaders(data, count.1, count.0, [], text);
    Success((Record(OrEmpty(value.0), key.0, first + delta.0, baseOffset + index.0, headers.0), length.1 + length.0))
  }

  function ReadRecords(data: Bytes, cursor: int, count: int, first: int, baseOffset: int, records: seq<Record>,
                       text: Bytes -> bool): Result<seq<Record>, DecodeError>
    decreases count
  {
    if count <= 0 then Success(records)
    else
      var r :- ReadRecord(data, cursor, first, baseOffset, text);
      ReadRecords(data, r.1, count - 1, first, baseOffset, records + [r.0], text)
  }

  // ------------------------------------------------------------ reading batches

  function Field(data: Bytes, from: nat, to: nat): Result<Bytes, DecodeError>
    requires from <= to
  {
    var s := Slice(data, from, to);
    if |s| == to - from then Success(s) else Failure(ShortField)
  }

  function ReadBatch(batch: Bytes, baseOffset: int, records: seq<Record>, text: Bytes -> bool)
      : Result<seq<Record>, DecodeError>
  {
    match At(batch, 16)
    case None => Failure(OutOfRange)
    case Some(magic) =>
      if magic != 2 then Failure(BadMagic(magic))
      else
        var stated :- Field(batch, 17, 21);
        if Checksum(Slice(batch, 21, |batch|)) != Unsigned(stated) then Failure(BadChecksum)
        else
          var first :- Field(batch, 27, 35);
          var count :- Field(batch, 57, 61);
          ReadRecords(batch, 61, Signed(count), Signed(first), baseOffset, records, text)
  }

  function ReadBatches(data: Bytes, offset: nat, records: seq<Record>, text: Bytes -> bool)
      : Result<seq<Record>, DecodeError>
    decreases |data| - offset
  {
    if offset + 61 > |data| then Success(records)
    else
      var baseOffset, length := Signed(data[offset..offset + 8]), Signed(data[offset + 8..offset + 12]);
      var end := offset + 12 + length;
      if length <= 0 || end > |data| then Success(records)
      else
        var records' :- ReadBatch(data[offset..end], baseOffset, records, text);
        ReadBatches(data, end, records', text)
  }

  // ------------------------------------------------------------ the decoder

  method DecodeBlob(data: Bytes, start: int) returns (r: Result<(Option<Bytes>, int), DecodeError>)
    ensures r == ReadBlob(data, start)
  {
    var p :- DecodeVarint(data, start);
    var (length, cursor) := p;
    var blob: Option<Bytes> := None;
    if length >= 0 {
      blob := Some(Slice(data, cursor, cursor + length));
      cursor := cursor + length;
    }
    r := Success((blob, cursor));
  }

  method DecodeHeader(data: Bytes, start: int, text: Bytes -> bool)
    returns (r: Result<(Bytes, Bytes, int), DecodeError>)
    ensures r == ReadHeader(data, start, text)
  {
    var p :- DecodeVarint(data, start);
    var (length, cursor) := p;
    var name := Slice(data, cursor, cursor + length);
    if !text(name) { return Failure(NotText); }
    var value :- DecodeBlob(data, cursor + length);
    r := Success((name, OrEmpty(value.0), value.1));
  }

  method DecodeHeaders(data: Bytes, start: int, count: int, text: Bytes -> bool)
      returns (r: Result<(Headers, int), DecodeError>)
    ensures r == ReadHeaders(data, start, count, [], text)
  {
    hide ReadHeader;
    var cursor, headers, left := start, [], count;
    ghost var all := ReadHeaders(data, start, count, [], text);
    while left > 0
      invariant ReadHeaders(data, cursor, left, headers, text) == all
    {
      var header :- DecodeHeader(data, cursor, text);
      cursor, headers, left := header.2, Put(headers, header.0, header.1), left - 1;
    }
    r := Success((headers, cursor));
  }

  method DecodeRecord(data: Bytes, start: int, first: int, baseOffset: int, text: Bytes -> bool)
      returns (r: Result<(Record, int), DecodeError>)
    ensures r == ReadRecord(data, start, first, baseOffset, text)
  {
    hide DecodedVarint;
    hide ReadBlob;
    hide ReadHeaders;
    var length :- DecodeVarint(data, start);
    var timestampDelta :- DecodeVarint(data, length.1 + 1);
    var offsetDelta :- DecodeVarint(data, timestampDelta.1);
    var key :- DecodeBlob(data, offsetDelta.1);
    var value :- DecodeBlob(data, key.1);
    var headerCount :- DecodeVarint(data, value.1);
    var headers :- DecodeHeaders(data, headerCount.1, headerCount.0, text);
    var record := Record(OrEmpty(value.0), key.0, first + timestampDelta.0, baseOffset + offsetDelta.0, headers.0);
    r := Success((record, length.1 + length.0));
  }

  method DecodeBatch(table: seq<bv32>, batch: Bytes, baseOffset: int, before: seq<Record>, text: Bytes -> bool)
      returns (r: Result<seq<Record>, DecodeError>)
    requires Crc32c.IsTable(table)
    ensures r == ReadBatch(batch, baseOffset, before, text)
  {
    hide ReadRecord;
    hide AsNumber;
    var magic := At(batch, 16);
    if magic.None? { return Failure(OutOfRange); }
    if magic.value != 2 { return Failure(BadMagic(magic.value)); }
    var stated :- Field(batch, 17, 21);
    var crc := Crc32c.Checksum(table, Words(Slice(batch, 21, |batch|)));
    if AsNumber(crc) != Unsigned(stated) { return Failure(BadChecksum); }
    var first :- Field(batch, 27, 35);
    var count :- Field(batch, 57, 61);
    var records, cursor, left := before, 61, Signed(count);
    while left > 0
      invariant ReadRecords(batch, cursor, left, Signed(first), baseOffset, records, text)
             == ReadRecords(batch, 61, Signed(count), Signed(first), baseOffset, before, text)
    {
      var record :- DecodeRecord(batch, cursor, Signed(first), baseOffset, text);
      records, cursor, left := records + [record.0], record.1, left - 1;
    }
    r := Success(records);
  }

  /** `decode_record_batches`. */
  method DecodeRecordBatches(table: seq<bv32>, data: Bytes, text: Bytes -> bool)
      returns (r: Result<seq<Record>, DecodeError>)
    requires Crc32c.IsTable(table)
    ensures r == ReadBatches(data, 0, [], text)
  {
    hide ReadBatch;
    var records, offset := [], 0;
    while offset + 61 <= |data|
      invariant ReadBatches(data, offset, records, text) == ReadBatches(data, 0, [], text)
      decreases |data| - offset
    {
      var baseOffset, length := Signed(data[offset..offset + 8]), Signed(data[offset + 8..offset + 12]);
      var end := offset + 12 + length;
      if length <= 0 || end > |data| {
        break;
      }
      records :- DecodeBatch(table, data[offset..end], baseOffset, records, text);
      offset := end;
    }
    r := Success(records);
  }
}
