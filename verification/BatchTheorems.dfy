/** What the RecordBatch codec is for: encoded batches decode to their records, however the fetch was
    cut and whatever base offset the broker wrote, and damage inside four bytes is always noticed. */
module BatchTheorems {
  import opened Dicts
  import opened Octets
  import opened Varint
  import opened Wrappers
  import opened RecordBatch

  /** What a signed 64-bit varint, and what the decoder's ten groups can hold. */
  const LEAST: int := -0x8000_0000_0000_0000
  const BEYOND: int := 0x20_0000_0000_0000_0000

  // ------------------------------------------------------------ one record

  lemma NumberRead(data: Bytes, at: int, v: int)
    requires Holds(data, at, Number(v)) && LEAST <= v < BEYOND
    ensures DecodedVarint(data, at) == Success((v, at + |Number(v)|))
  {
    hide Number;
    hide DecodedVarint;
    VarintRoundTrip(v);
  }

  lemma BlobRead(data: Bytes, at: int, content: Bytes)
    requires Holds(data, at, Blob(content)) && |content| < BEYOND
    ensures ReadBlob(data, at) == Success((Some(content), at + |Blob(content)|))
  {
    hide Number;
    hide DecodedVarint;
    HoldsBoth(data, at, Number(|content|), content);
    NumberRead(data, at, |content|);
    HoldsSlice(data, at + |Number(|content|)|, content);
  }

  lemma KeyRead(data: Bytes, at: int, key: Option<Bytes>)
    requires Holds(data, at, KeyBytes(key)) && (key.Some? ==> |key.value| < BEYOND)
    ensures ReadBlob(data, at) == Success((key, at + |KeyBytes(key)|))
  {
    hide Number;
    hide DecodedVarint;
    if key.None? {
      NumberRead(data, at, -1);
    } else {
      BlobRead(data, at, key.value);
    }
  }

  lemma HeaderRead(data: Bytes, at: int, name: Bytes, value: Bytes, text: Bytes -> bool)
    requires Holds(data, at, Blob(name) + Blob(value)) && |name| < BEYOND && |value| < BEYOND && text(name)
    ensures ReadHeader(data, at, text) == Success((name, value, at + |Blob(name)| + |Blob(value)|))
  {
    hide Number;
    hide DecodedVarint;
    hide ReadBlob;
    HoldsBoth(data, at, Blob(name), Blob(value));
    HoldsBoth(data, at, Number(|name|), name);
    NumberRead(data, at, |name|);
    HoldsSlice(data, at + |Number(|name|)|, name);
    BlobRead(data, at + |Blob(name)|, value);
  }

  /** The keys of a dict are distinct, and each is the UTF-8 form of a text. */
  ghost predicate IsMapping(headers: Headers, text: Bytes -> bool) {
    && DistinctKeys(headers)
    && (forall i :: 0 <= i < |headers| ==> text(headers[i].0))
  }

  /** A header takes at least two bytes. */
  lemma {:induction false} HeaderBytesBound(headers: Headers, i: int)
    requires 0 <= i < |headers|
    ensures |headers| <= |HeaderBytes(headers)|
    ensures |headers[i].0| + |headers[i].1| <= |HeaderBytes(headers)|
  {
    hide Zigzag;
    hide Groups;
    if |headers| > 1 {
      HeaderBytesBound(headers[1..], if i == 0 then 0 else i - 1);
    }
  }

  lemma {:induction false} HeadersRead(data: Bytes, at: int, headers: Headers, done: nat, text: Bytes -> bool)
    requires done <= |headers| && IsMapping(headers, text) && |HeaderBytes(headers[done..])| < BEYOND
    requires Holds(data, at, HeaderBytes(headers[done..]))
    ensures ReadHeaders(data, at, |headers| - done, headers[..done], text)
         == Success((headers, at + |HeaderBytes(headers[done..])|))
    decreases |headers| - done
  {
    hide Blob;
    hide ReadHeader;
    if done == |headers| {
      assert headers[..done] == headers;
    } else {
      var rest, h := headers[done..], headers[done];
      assert rest[0] == h && rest[1..] == headers[done + 1..];
      HeaderBytesBound(rest, 0);
      HoldsBoth(data, at, Blob(h.0) + Blob(h.1), HeaderBytes(rest[1..]));
      HeaderRead(data, at, h.0, h.1, text);
      PutNew(headers[..done], h.0, h.1);
      assert headers[..done] + [(h.0, h.1)] == headers[..done + 1];
      HeadersRead(data, at + |Blob(h.0)| + |Blob(h.1)|, headers, done + 1, text);
    }
  }

  /** Where the parts of an encoded record stand. */
  lemma ContentParts(data: Bytes, at: int, r: Record, delta: int, index: nat)
      returns (a: int, b: int, c: int, d: int, e: int)
    requires Holds(data, at, Content(r, delta, index))
    ensures a == at + 1 + |Number(delta)| && b == a + |Number(index)| && c == b + |KeyBytes(r.key)|
    ensures d == c + |Blob(r.value)| && e == d + |Number(|r.headers|)|
    ensures Holds(data, at + 1, Number(delta)) && Holds(data, a, Number(index)) && Holds(data, b, KeyBytes(r.key))
    ensures Holds(data, c, Blob(r.value)) && Holds(data, d, Number(|r.headers|))
            && Holds(data, e, HeaderBytes(r.headers))
  {
    hide Number;
    hide KeyBytes;
    hide Blob;
    hide HeaderBytes;
    hide Holds;
    a := at + 1 + |Number(delta)|;
    b := a + |Number(index)|;
    c := b + |KeyBytes(r.key)|;
    d := c + |Blob(r.value)|;
    e := d + |Number(|r.headers|)|;
    var p1 := [0] + Number(delta);
    var p2 := p1 + Number(index);
    var p3 := p2 + KeyBytes(r.key);
    var p4 := p3 + Blob(r.value);
    var p5 := p4 + Number(|r.headers|);
    HoldsBoth(data, at, p5, HeaderBytes(r.headers));
    HoldsBoth(data, at, p4, Number(|r.headers|));
    HoldsBoth(data, at, p3, Blob(r.value));
    HoldsBoth(data, at, p2, KeyBytes(r.key));
    HoldsBoth(data, at, p1, Number(index));
    HoldsBoth(data, at, [0], Number(delta));
  }

  lemma ContentBounds(r: Record, delta: int, index: nat)
    ensures |r.value| < |Content(r, delta, index)| && |HeaderBytes(r.headers)| < |Content(r, delta, index)|
    ensures |r.headers| < |Content(r, delta, index)|
    ensures r.key.Some? ==> |r.key.value| < |Content(r, delta, index)|
  {
    hide Number;
    if r.headers != [] { HeaderBytesBound(r.headers, 0); }
  }

  /** The record as the decoder gives it back. */
  function Kept(r: Record, timestamp: int, offset: int): Record { r.(timestamp := timestamp, offset := offset) }

  lemma RecordRead(data: Bytes, at: int, r: Record, delta: int, index: nat, first: int, base: int, text: Bytes -> bool)
    requires Holds(data, at, Blob(Content(r, delta, index))) && |Content(r, delta, index)| < BEYOND
    requires LEAST <= delta < BEYOND && index < BEYOND && IsMapping(r.headers, text)
    ensures ReadRecord(data, at, first, base, text)
         == Success((Kept(r, first + delta, base + index), at + |Blob(Content(r, delta, index))|))
  {
    hide Number;
    hide DecodedVarint;
    hide ReadBlob;
    hide ReadHeaders;
    hide HeaderBytes;
    hide KeyBytes;
    hide IsMapping;
    var body := Content(r, delta, index);
    HoldsBoth(data, at, Number(|body|), body);
    NumberRead(data, at, |body|);
    var start := at + |Number(|body|)|;
    var a, b, c, d, e := ContentParts(data, start, r, delta, index);
    ContentBounds(r, delta, index);
    hide Content;
    hide Holds;
    NumberRead(data, start + 1, delta);
    NumberRead(data, a, index);
    KeyRead(data, b, r.key);
    BlobRead(data, c, r.value);
    NumberRead(data, d, |r.headers|);
    assert r.headers[0..] == r.headers && r.headers[..0] == [];
    HeadersRead(data, e, r.headers, 0, text);
  }

  lemma NumberMisread(data: Bytes, at: int, v: int)
    requires Holds(data, at, Number(v)) && v < LEAST
    ensures DecodedVarint(data, at).Success? ==> DecodedVarint(data, at).value.0 != v
  {
    hide Unzigzag;
    hide Zigzag;
    UnzigzagZigzag(v);
    GroupsDecode(data, at, Zigzag(v), GROUPS);
  }

  /** A delta below 64 bits is not read back. */
  lemma RecordMisread(
    data: Bytes, at: int, r: Record, delta: int, index: nat, first: int, base: int, text: Bytes -> bool)
    requires Holds(data, at, Blob(Content(r, delta, index))) && |Content(r, delta, index)| < BEYOND && delta < LEAST
    ensures var read := ReadRecord(data, at, first, base, text);
            read.Success? ==> read.value.0.timestamp != first + delta
  {
    hide Number;
    hide DecodedVarint;
    hide ReadBlob;
    hide ReadHeaders;
    hide HeaderBytes;
    hide KeyBytes;
    var body := Content(r, delta, index);
    HoldsBoth(data, at, Number(|body|), body);
    NumberRead(data, at, |body|);
    var start := at + |Number(|body|)|;
    var a, b, c, d, e := ContentParts(data, start, r, delta, index);
    NumberMisread(data, start + 1, delta);
  }

  // ------------------------------------------------------------ the records of a batch

  function Stored(records: seq<Record>, first: int, base: int, index: nat): (s: seq<Record>)
    ensures |s| == |records|
    ensures forall i :: 0 <= i < |records| ==> s[i] == Kept(records[i], Stamp(records[i], first), base + index + i)
  {
    if records == [] then []
    else [Kept(records[0], Stamp(records[0], first), base + index)] + Stored(records[1..], first, base, index + 1)
  }

  ghost predicate Legible(records: seq<Record>, text: Bytes -> bool) {
    forall i :: 0 <= i < |records| ==> IsMapping(records[i].headers, text)
  }

  /** No record is more than 2^63 milliseconds older than the batch's first timestamp. */
  predicate Near(records: seq<Record>, first: int) {
    forall i :: 0 <= i < |records| ==> Stamp(records[i], first) - first >= LEAST
  }

  ghost predicate Ahead(records: seq<Record>, first: int) {
    forall i :: 0 <= i < |records| ==> Stamp(records[i], first) - first < BEYOND
  }

  /** One turn of the decoder's loop over records, on a record it reads back. */
  lemma HeadRead(data: Bytes, at: int, records: seq<Record>, index: nat, first: int, base: int,
                 before: seq<Record>, text: Bytes -> bool) returns (next: int, r: Record)
    requires records != [] && Holds(data, at, Frames(records, first, index)) && |Frames(records, first, index)| < BEYOND
    requires LEAST <= Stamp(records[0], first) - first < BEYOND && index < BEYOND && IsMapping(records[0].headers, text)
    ensures r == Kept(records[0], Stamp(records[0], first), base + index)
    ensures Holds(data, next, Frames(records[1..], first, index + 1))
    ensures |Frames(records[1..], first, index + 1)| < BEYOND
    ensures ReadRecords(data, at, |records|, first, base, before, text)
         == ReadRecords(data, next, |records| - 1, first, base, before + [r], text)
  {
    hide Content;
    hide ReadRecord;
    hide IsMapping;
    hide Stamp;
    var delta := Stamp(records[0], first) - first;
    var frame := Blob(Content(records[0], delta, index));
    HoldsBoth(data, at, frame, Frames(records[1..], first, index + 1));
    RecordRead(data, at, records[0], delta, index, first, base, text);
    next, r := at + |frame|, Kept(records[0], first + delta, base + index);
  }

  lemma StoredFrom(before: seq<Record>, records: seq<Record>, first: int, base: int, index: nat, r: Record)
    requires records != [] && r == Kept(records[0], Stamp(records[0], first), base + index)
    ensures before + [r] + Stored(records[1..], first, base, index + 1) == before + Stored(records, first, base, index)
  {}

  lemma {:induction false} FramesRead(data: Bytes, at: int, records: seq<Record>, index: nat, first: int, base: int,
                                      before: seq<Record>, text: Bytes -> bool)
    requires Holds(data, at, Frames(records, first, index)) && |Frames(records, first, index)| < BEYOND
    requires index + |records| < BEYOND && Legible(records, text) && Near(records, first) && Ahead(records, first)
    ensures ReadRecords(data, at, |records|, first, base, before, text)
         == Success(before + Stored(records, first, base, index))
    decreases |records|
  {
    hide Frames;
    hide ReadRecord;
    hide IsMapping;
    hide Stamp;
    hide Holds;
    if records == [] {
      assert before + Stored(records, first, base, index) == before;
    } else {
      hide ReadRecords;
      hide Stored;
      var next, r := HeadRead(data, at, records, index, first, base, before, text);
      FramesRead(data, next, records[1..], index + 1, first, base, before + [r], text);
      StoredFrom(before, records, first, base, index, r);
    }
  }

  lemma {:induction false} ReadRecordsExtends(data: Bytes, cursor: int, count: int, first: int, base: int,
                                              before: seq<Record>, text: Bytes -> bool)
    requires ReadRecords(data, cursor, count, first, base, before, text).Success?
    ensures before <= ReadRecords(data, cursor, count, first, base, before, text).value
    decreases count
  {
    hide ReadRecord;
    if count > 0 {
      var r := ReadRecord(data, cursor, first, base, text).value;
      ReadRecordsExtends(data, r.1, count - 1, first, base, before + [r.0], text);
    }
  }

  lemma HeadMisread(data: Bytes, at: int, records: seq<Record>, index: nat, first: int, base: int,
                    before: seq<Record>, text: Bytes -> bool)
    requires records != [] && Holds(data, at, Frames(records, first, index)) && |Frames(records, first, index)| < BEYOND
    requires Stamp(records[0], first) - first < LEAST
    ensures ReadRecords(data, at, |records|, first, base, before, text)
         != Success(before + Stored(records, first, base, index))
  {
    hide Content;
    hide ReadRecord;
    var delta := Stamp(records[0], first) - first;
    var frame := Blob(Content(records[0], delta, index));
    HoldsBoth(data, at, frame, Frames(records[1..], first, index + 1));
    RecordMisread(data, at, records[0], delta, index, first, base, text);
    hide Blob;
    hide Frames;
    hide Holds;
    var all := ReadRecords(data, at, |records|, first, base, before, text);
    if all.Success? {
      var read := ReadRecord(data, at, first, base, text).value;
      ReadRecordsExtends(data, read.1, |records| - 1, first, base, before + [read.0], text);
      assert all.value[|before|] == (before + [read.0])[|before|];
      assert (before + Stored(records, first, base, index))[|before|] == Stored(records, first, base, index)[0];
    }
  }

  lemma NearTail(records: seq<Record>, first: int)
    requires records != [] && Stamp(records[0], first) - first >= LEAST && Near(records[1..], first)
    ensures Near(records, first)
  {
    forall i | 0 <= i < |records| ensures Stamp(records[i], first) - first >= LEAST {
      if i > 0 { assert records[1..][i - 1] == records[i]; }
    }
  }

  lemma {:induction false} FramesMisread(data: Bytes, at: int, records: seq<Record>, index: nat, first: int, base: int,
                                         before: seq<Record>, text: Bytes -> bool)
    requires Holds(data, at, Frames(records, first, index)) && |Frames(records, first, index)| < BEYOND
    requires index + |records| < BEYOND && Legible(records, text) && !Near(records, first) && Ahead(records, first)
    ensures ReadRecords(data, at, |records|, first, base, before, text)
         != Success(before + Stored(records, first, base, index))
    decreases |records|
  {
    hide Content;
    hide ReadRecord;
    hide IsMapping;
    hide Frames;
    hide Stamp;
    hide Holds;
    hide ReadRecords;
    hide Stored;
    if Stamp(records[0], first) - first < LEAST {
      HeadMisread(data, at, records, index, first, base, before, text);
    } else {
      var next, r := HeadRead(data, at, records, index, first, base, before, text);
      if Near(records[1..], first) { NearTail(records, first); }
      hide Near;
      FramesMisread(data, next, records[1..], index + 1, first, base, before + [r], text);
      StoredFrom(before, records, first, base, index, r);
    }
  }

  // ------------------------------------------------------------ a whole batch

  /** An encoded batch, as stored under some base offset. */
  datatype Posted = Posted(records: seq<Record>, first: int, base: int) {
    function Wire(): Bytes { Batch(base, AfterCrc(records, first)) }

    function Fetched(): seq<Record> { Stored(records, first, base, 0) }

    ghost predicate Valid(text: Bytes -> bool) {
      records != [] && Packable(records, first) && InField(base, LONG) && Legible(records, text)
    }
  }

  lemma {:induction false} LatestIsLast(records: seq<Record>, first: int, latest: int, i: int)
    requires 0 <= i < |records|
    ensures Stamp(records[i], first) <= Latest(records, first, latest) && latest <= Latest(records, first, latest)
    decreases records
  {
    hide Stamp;
    var stamp := Stamp(records[0], first);
    if |records| > 1 {
      LatestIsLast(records[1..], first, if stamp > latest then stamp else latest, if i == 0 then 0 else i - 1);
    }
  }

  lemma FieldLimits(v: int)
    ensures InField(v, LONG) <==> LEAST <= v < -LEAST
    ensures InField(v, WORD) <==> -0x8000_0000 <= v < 0x8000_0000
  {
    assert Pow256(2) == 0x1_0000 && Pow256(4) == 0x1_0000 * Pow256(2) && Pow256(6) == 0x1_0000 * Pow256(4)
      && Pow256(8) == 0x1_0000 * Pow256(6);
  }

  lemma PackableAhead(records: seq<Record>, first: int)
    requires Packable(records, first)
    ensures Ahead(records, first)
  {
    FieldLimits(first);
    FieldLimits(Latest(records, first, first));
    forall i | 0 <= i < |records| ensures Stamp(records[i], first) - first < BEYOND {
      LatestIsLast(records, first, first, i);
    }
  }

  /** The fixed fields in front of what the checksum covers. */
  lemma BatchFields(base: int, after: Bytes)
    ensures |Batch(base, after)| == 21 + |after|
    ensures Batch(base, after)[..8] == Packed(base, LONG) && Batch(base, after)[8..12] == Packed(9 + |after|, WORD)
    ensures Batch(base, after)[16] == 2 && Batch(base, after)[17..21] == BigEndian(Checksum(after), WORD)
    ensures Batch(base, after)[21..] == after
  {
    hide Packed;
    hide BigEndian;
    hide Checksum;
    var a, b, c, d := Packed(base, LONG), Packed(9 + |after|, WORD), Packed(-1, WORD), BigEndian(Checksum(after), WORD);
    assert Batch(base, after) == a + (b + (c + ([2] + (d + after))));
  }

  /** The first timestamp, the record count and the records inside it. */
  lemma AfterCrcFields(records: seq<Record>, first: int)
    ensures |AfterCrc(records, first)| == 40 + |Frames(records, first, 0)|
    ensures AfterCrc(records, first)[6..14] == Packed(first, LONG)
    ensures AfterCrc(records, first)[36..40] == Packed(|records|, WORD)
    ensures AfterCrc(records, first)[40..] == Frames(records, first, 0)
  {
    hide Packed;
    hide Frames;
    hide Latest;
    var a, b, c, d := Packed(0, SHORT), Packed(|records| - 1, WORD), Packed(first, LONG),
      Packed(Latest(records, first, first), LONG);
    var e, f, g, h := Packed(-1, LONG), Packed(-1, SHORT), Packed(-1, WORD), Packed(|records|, WORD);
    assert AfterCrc(records, first) == a + (b + (c + (d + (e + (f + (g + (h + Frames(records, first, 0))))))));
  }

  lemma ChecksumFits(data: Bytes)
    ensures Unsigned(BigEndian(Checksum(data), WORD)) == Checksum(data)
  {
    var w := Crc32c.Crc(Words(data));
    ByteNumber((w >> 24) as bv8, 0);
    ByteNumber(((w >> 16) & 0xFF) as bv8, 0);
    ByteNumber(((w >> 8) & 0xFF) as bv8, 0);
    ByteNumber((w & 0xFF) as bv8, 0);
    assert Pow256(2) == 0x1_0000 && Pow256(4) == 0x1_0000 * Pow256(2);
    BigEndianRead(Checksum(data), WORD);
  }

  /** A batch that arrives undamaged passes every check, and its records are read. */
  lemma BatchOpens(p: Posted, before: seq<Record>, text: Bytes -> bool)
    requires Packable(p.records, p.first)
    ensures ReadBatch(p.Wire(), p.base, before, text)
         == ReadRecords(p.Wire(), 61, |p.records|, p.first, p.base, before, text)
    ensures Holds(p.Wire(), 61, Frames(p.records, p.first, 0))
  {
    hide Packed;
    hide Checksum;
    hide Signed;
    hide ReadRecords;
    hide Frames;
    hide InField;
    var after, batch := AfterCrc(p.records, p.first), p.Wire();
    BatchFields(p.base, after);
    AfterCrcFields(p.records, p.first);
    hide Batch;
    hide AfterCrc;
    ChecksumFits(after);
    FieldRead(p.first, LONG);
    FieldRead(|p.records|, WORD);
    assert batch[21..][6..14] == batch[27..35];
    assert batch[21..][36..40] == batch[57..61];
    assert batch[21..][40..] == batch[61..];
    assert Slice(batch, 21, |batch|) == after;
    assert Slice(batch, 17, 21) == batch[17..21];
    assert Slice(batch, 27, 35) == Packed(p.first, LONG);
    assert Slice(batch, 57, 61) == Packed(|p.records|, WORD);
  }

  lemma PackableSizes(p: Posted)
    requires Packable(p.records, p.first)
    ensures |p.records| < 0x8000_0000 && |Frames(p.records, p.first, 0)| < 0x8000_0000
    ensures 61 <= |p.Wire()| == 12 + 9 + |AfterCrc(p.records, p.first)|
    ensures InField(9 + |AfterCrc(p.records, p.first)|, WORD)
            && p.Wire()[8..12] == Packed(9 + |AfterCrc(p.records, p.first)|, WORD)
    ensures p.Wire()[..8] == Packed(p.base, LONG)
  {
    hide Latest;
    FieldLimits(|p.records|);
    FieldLimits(9 + |AfterCrc(p.records, p.first)|);
    AfterCrcFields(p.records, p.first);
    BatchFields(p.base, AfterCrc(p.records, p.first));
  }

  /** Its own records come back exactly when none of them is too old for a 64-bit delta. */
  lemma BatchRead(p: Posted, before: seq<Record>, text: Bytes -> bool)
    requires p.Valid(text)
    ensures ReadBatch(p.Wire(), p.base, before, text) == Success(before + p.Fetched()) <==> Near(p.records, p.first)
  {
    hide Packable;
    hide Ahead;
    hide Near;
    hide Legible;
    hide ReadBatch;
    hide ReadRecords;
    hide Batch;
    hide AfterCrc;
    hide Holds;
    BatchOpens(p, before, text);
    PackableSizes(p);
    PackableAhead(p.records, p.first);
    if Near(p.records, p.first) {
      FramesRead(p.Wire(), 61, p.records, 0, p.first, p.base, before, text);
    } else {
      FramesMisread(p.Wire(), 61, p.records, 0, p.first, p.base, before, text);
    }
  }

  // ------------------------------------------------------------ a fetch

  /** The decoder's next turn, on a batch that is there in full. */
  lemma NextBatch(
    data: Bytes, offset: nat, batch: Bytes, base: int, length: int, before: seq<Record>, text: Bytes -> bool)
    requires Holds(data, offset, batch) && 61 <= |batch| == 12 + length
    requires InField(base, LONG) && batch[..8] == Packed(base, LONG)
    requires InField(length, WORD) && batch[8..12] == Packed(length, WORD)
    ensures ReadBatches(data, offset, before, text)
         == match ReadBatch(batch, base, before, text)
            case Failure(e) => Failure(e)
            case Success(records) => ReadBatches(data, offset + |batch|, records, text)
  {
    hide Packed;
    hide Signed;
    hide InField;
    hide ReadBatch;
    FieldRead(base, LONG);
    FieldRead(length, WORD);
    var end := offset + |batch|;
    assert data[offset..end][..8] == data[offset..offset + 8];
    assert data[offset..end][8..12] == data[offset + 8..offset + 12];
  }

  /** The decoder's last turn, on a batch whose tail the fetch has cut off. */
  lemma CutBatch(
    data: Bytes, offset: nat, batch: Bytes, base: int, length: int, before: seq<Record>, text: Bytes -> bool)
    requires offset <= |data| < offset + |batch| && Holds(data, offset, batch[..|data| - offset])
    requires 61 <= |batch| == 12 + length
    requires InField(length, WORD) && batch[8..12] == Packed(length, WORD)
    ensures ReadBatches(data, offset, before, text) == Success(before)
  {
    hide Packed;
    hide Signed;
    hide InField;
    hide ReadBatch;
    FieldRead(length, WORD);
    if offset + 61 <= |data| {
      var part := batch[..|data| - offset];
      assert data[offset..offset + |part|][8..12] == data[offset + 8..offset + 12];
      assert part[8..12] == batch[8..12];
    }
  }

  function Stream(ps: seq<Posted>): Bytes {
    if ps == [] then [] else ps[0].Wire() + Stream(ps[1..])
  }

  function FetchedAll(ps: seq<Posted>): seq<Record> {
    if ps == [] then [] else ps[0].Fetched() + FetchedAll(ps[1..])
  }

  /** The records of the batches that lie wholly before the cut. */
  function FetchedBefore(ps: seq<Posted>, cut: nat): seq<Record> {
    if ps == [] || |ps[0].Wire()| > cut then []
    else ps[0].Fetched() + FetchedBefore(ps[1..], cut - |ps[0].Wire()|)
  }

  ghost predicate Sendable(ps: seq<Posted>, text: Bytes -> bool) {
    forall i :: 0 <= i < |ps| ==> ps[i].Valid(text) && Near(ps[i].records, ps[i].first)
  }

  lemma BatchInStream(data: Bytes, offset: nat, p: Posted, before: seq<Record>, text: Bytes -> bool)
    requires Holds(data, offset, p.Wire()) && p.Valid(text) && Near(p.records, p.first)
    ensures ReadBatches(data, offset, before, text)
         == ReadBatches(data, offset + |p.Wire()|, before + p.Fetched(), text)
  {
    hide Batch;
    hide AfterCrc;
    hide ReadBatch;
    hide InField;
    hide Packable;
    hide Legible;
    hide Near;
    hide Packed;
    hide Stored;
    hide Holds;
    hide ReadBatches;
    PackableSizes(p);
    BatchRead(p, before, text);
    NextBatch(data, offset, p.Wire(), p.base, 9 + |AfterCrc(p.records, p.first)|, before, text);
  }

  /** Whole batches are read one after the other, and reading goes on behind them. */
  lemma {:induction false} StreamRead(
    data: Bytes, offset: nat, ps: seq<Posted>, before: seq<Record>, text: Bytes -> bool)
    requires Holds(data, offset, Stream(ps)) && Sendable(ps, text)
    ensures ReadBatches(data, offset, before, text)
         == ReadBatches(data, offset + |Stream(ps)|, before + FetchedAll(ps), text)
    decreases |ps|
  {
    hide Batch;
    hide AfterCrc;
    hide ReadBatches;
    hide Stored;
    hide Packable;
    hide Legible;
    hide Near;
    hide InField;
    if ps == [] {
      assert before + FetchedAll(ps) == before;
    } else {
      HoldsBoth(data, offset, ps[0].Wire(), Stream(ps[1..]));
      BatchInStream(data, offset, ps[0], before, text);
      StreamRead(data, offset + |ps[0].Wire()|, ps[1..], before + ps[0].Fetched(), text);
      assert before + ps[0].Fetched() + FetchedAll(ps[1..]) == before + FetchedAll(ps);
    }
  }

  lemma EmptyTail(data: Bytes, offset: nat, before: seq<Record>, text: Bytes -> bool)
    requires offset == |data|
    ensures ReadBatches(data, offset, before, text) == Success(before)
  {}

  lemma CutBehind(data: Bytes, offset: nat, a: Bytes, b: Bytes)
    requires offset <= |data| <= offset + |a| + |b| && data[offset..] == (a + b)[..|data| - offset]
    requires |a| <= |data| - offset
    ensures Holds(data, offset, a) && data[offset + |a|..] == b[..|data| - offset - |a|]
  {
    var cut := |data| - offset;
    assert (a + b)[..cut][..|a|] == a && (a + b)[..cut][|a|..] == b[..cut - |a|];
    assert data[offset..][..|a|] == data[offset..offset + |a|] && data[offset..][|a|..] == data[offset + |a|..];
  }

  lemma {:induction false} CutStreamRead(
    data: Bytes, offset: nat, ps: seq<Posted>, before: seq<Record>, text: Bytes -> bool)
    requires offset <= |data| <= offset + |Stream(ps)| && data[offset..] == Stream(ps)[..|data| - offset]
    requires Sendable(ps, text)
    ensures ReadBatches(data, offset, before, text) == Success(before + FetchedBefore(ps, |data| - offset))
    decreases |ps|
  {
    hide Batch;
    hide AfterCrc;
    hide Stored;
    hide Packable;
    hide Legible;
    hide Near;
    hide InField;
    hide ReadBatch;
    hide ReadBatches;
    if ps == [] {
      EmptyTail(data, offset, before, text);
      assert before + FetchedBefore(ps, |data| - offset) == before;
    } else {
      var cut, wire, rest := |data| - offset, ps[0].Wire(), Stream(ps[1..]);
      if |wire| > cut {
        assert (wire + rest)[..cut] == wire[..cut];
        PackableSizes(ps[0]);
        CutBatch(data, offset, wire, ps[0].base, 9 + |AfterCrc(ps[0].records, ps[0].first)|, before, text);
        assert before + FetchedBefore(ps, cut) == before;
      } else {
        CutBehind(data, offset, wire, rest);
        BatchInStream(data, offset, ps[0], before, text);
        CutStreamRead(data, offset + |wire|, ps[1..], before + ps[0].Fetched(), text);
        assert before + ps[0].Fetched() + FetchedBefore(ps[1..], cut - |wire|) == before + FetchedBefore(ps, cut);
      }
    }
  }

  // ------------------------------------------------------------ the main results

  /** A fetch cut at any byte gives exactly the records of the batches before the cut. */
  lemma TruncatedFetch(ps: seq<Posted>, cut: nat, text: Bytes -> bool)
    requires Sendable(ps, text) && cut <= |Stream(ps)|
    ensures ReadBatches(Stream(ps)[..cut], 0, [], text) == Success(FetchedBefore(ps, cut))
  {
    hide Sendable;
    hide Stream;
    hide ReadBatches;
    hide FetchedBefore;
    var data := Stream(ps)[..cut];
    assert data[0..] == data;
    CutStreamRead(data, 0, ps, [], text);
    assert [] + FetchedBefore(ps, cut) == FetchedBefore(ps, cut);
  }

  /** What was encoded comes back: same keys, values and headers, offsets counting from zero, a zero
      timestamp replaced by the batch's first. It does so exactly when no timestamp lies more than
      2^63 before the first. */
  lemma EncodedRoundTrip(records: seq<Record>, baseTimestamp: int, now: int, text: Bytes -> bool)
    requires Encoded(records, baseTimestamp, now).Success? && Legible(records, text)
    ensures var first := FirstTimestamp(records, baseTimestamp, now);
            ReadBatches(Encoded(records, baseTimestamp, now).value, 0, [], text)
              == Success(Stored(records, first, 0, 0))
            <==> Near(records, first)
  {
    var p := Posted(records, FirstTimestamp(records, baseTimestamp, now), 0);
    FieldLimits(0);
    SingleBatch(p, text);
  }

  lemma SingleBatch(p: Posted, text: Bytes -> bool)
    requires p.Valid(text)
    ensures ReadBatches(p.Wire(), 0, [], text) == Success(p.Fetched()) <==> Near(p.records, p.first)
  {
    hide Packable;
    hide Legible;
    hide Near;
    hide Batch;
    hide ReadBatch;
    hide Stored;
    hide InField;
    hide AfterCrc;
    PackableSizes(p);
    BatchRead(p, [], text);
    NextBatch(p.Wire(), 0, p.Wire(), p.base, 9 + |AfterCrc(p.records, p.first)|, [], text);
    assert [] + p.Fetched() == p.Fetched();
  }

  /** Rewriting the base offset in place shifts the offsets and changes nothing else. */
  lemma RebasedFetch(p: Posted, base: int, text: Bytes -> bool)
    requires p.Valid(text) && Near(p.records, p.first) && InField(base, LONG)
    ensures var read := ReadBatches(Packed(base, LONG) + p.Wire()[8..], 0, [], text);
            read.Success? && |read.value| == |p.records| &&
            forall i :: 0 <= i < |p.records| ==>
              read.value[i] == p.Fetched()[i].(offset := p.Fetched()[i].offset + base - p.base)
  {
    var q := p.(base := base);
    var after := AfterCrc(p.records, p.first);
    hide AfterCrc;
    hide Packed;
    hide BigEndian;
    hide Checksum;
    hide ReadBatches;
    var a, b, c, d := Packed(p.base, LONG), Packed(9 + |after|, WORD), Packed(-1, WORD),
      BigEndian(Checksum(after), WORD);
    assert p.Wire() == a + (b + c + [2] + d + after);
    assert q.Wire() == Packed(base, LONG) + (b + c + [2] + d + after);
    assert p.Wire()[8..] == b + c + [2] + d + after;
    assert Stream([q]) == q.Wire() + Stream([]);
    TruncatedFetch([q], |q.Wire()|, text);
  }

  lemma BytesDiffer(x: Octet, y: Octet, u: bv8, v: bv8)
    requires x != y && u as int == x % 256 && v as int == y % 256
    ensures u != v
  {}

  lemma WordsDiffer(a: Bytes, b: Bytes, j: nat)
    requires |a| == |b| && j < |a| && a[j] != b[j]
    ensures Words(a) != Words(b)
  {
    hide Words;
    var u, v := Words(a)[j], Words(b)[j];
    WordAt(a, j, u);
    WordAt(b, j, v);
    BytesDiffer(a[j], b[j], u, v);
  }

  lemma WordAt(a: Bytes, j: nat, u: bv8)
    requires j < |a| && u == Words(a)[j]
    ensures u as int == a[j] % 256
  {
    OctetAsByte(a[j]);
  }

  /** Two texts of one length that differ, but only inside four bytes, have different checksums. */
  lemma ChecksumsDiffer(a: Bytes, b: Bytes, from: nat)
    requires |a| == |b| && a != b && forall j :: 0 <= j < |a| && !(from <= j < from + 4) ==> a[j] == b[j]
    ensures Checksum(a) != Checksum(b)
  {
    var j :| 0 <= j < |a| && a[j] != b[j];
    WordsDiffer(a, b, j);
    forall i | 0 <= i < |a| && !(from <= i < from + 4) ensures Words(a)[i] == Words(b)[i] {}
    Crc32c.BurstDetected(Words(a), Words(b), from);
    if Checksum(a) == Checksum(b) {
      SameNumber(Crc32c.Crc(Words(a)), Crc32c.Crc(Words(b)));
    }
  }

  lemma ByteNumber(x: bv8, y: bv8)
    ensures 0 <= ByteValue(x) < 256 && 0 <= ByteValue(y) < 256 && (ByteValue(x) == ByteValue(y) ==> x == y)
  {
    assert (x as nat) as bv8 == x && (y as nat) as bv8 == y;
  }

  lemma SameBytes(x: bv32, y: bv32)
    requires (x >> 24) as bv8 == (y >> 24) as bv8 && ((x >> 16) & 0xFF) as bv8 == ((y >> 16) & 0xFF) as bv8
    requires ((x >> 8) & 0xFF) as bv8 == ((y >> 8) & 0xFF) as bv8 && (x & 0xFF) as bv8 == (y & 0xFF) as bv8
    ensures x == y
  {}

  lemma Places(a: nat, b: nat, c: nat, d: nat, a': nat, b': nat, c': nat, d': nat)
    requires a < 256 && b < 256 && c < 256 && d < 256 && a' < 256 && b' < 256 && c' < 256 && d' < 256
    requires 0x100_0000 * a + 0x1_0000 * b + 0x100 * c + d == 0x100_0000 * a' + 0x1_0000 * b' + 0x100 * c' + d'
    ensures a == a' && b == b' && c == c' && d == d'
  {}

  lemma SameParts(a: bv8, b: bv8, c: bv8, d: bv8, a': bv8, b': bv8, c': bv8, d': bv8)
    requires FromBytes(a, b, c, d) == FromBytes(a', b', c', d')
    ensures a == a' && b == b' && c == c' && d == d'
  {
    hide ByteValue;
    ByteNumber(a, a');
    ByteNumber(b, b');
    ByteNumber(c, c');
    ByteNumber(d, d');
    Places(ByteValue(a), ByteValue(b), ByteValue(c), ByteValue(d),
           ByteValue(a'), ByteValue(b'), ByteValue(c'), ByteValue(d'));
  }

  lemma SameNumber(x: bv32, y: bv32)
    requires AsNumber(x) == AsNumber(y)
    ensures x == y
  {
    hide FromBytes;
    SameParts((x >> 24) as bv8, ((x >> 16) & 0xFF) as bv8, ((x >> 8) & 0xFF) as bv8, (x & 0xFF) as bv8,
              (y >> 24) as bv8, ((y >> 16) & 0xFF) as bv8, ((y >> 8) & 0xFF) as bv8, (y & 0xFF) as bv8);
    SameBytes(x, y);
  }

  /** The first 21 bytes of a batch, and something else behind them. */
  function Tampered(p: Posted, after: Bytes): Bytes { p.Wire()[..21] + after }

  /** What stands in front of the checksum's range is left alone. */
  lemma TamperedHead(p: Posted, after: Bytes)
    requires 61 <= |p.Wire()|
    ensures |Tampered(p, after)| == 21 + |after|
    ensures Tampered(p, after)[..8] == p.Wire()[..8] && Tampered(p, after)[8..12] == p.Wire()[8..12]
  {
    hide Batch;
    hide AfterCrc;
    var wire, bad := p.Wire(), Tampered(p, after);
    assert bad[..21] == wire[..21];
    assert bad[..8] == bad[..21][..8] && bad[8..12] == bad[..21][8..12];
    assert wire[..8] == wire[..21][..8] && wire[8..12] == wire[..21][8..12];
  }

  lemma TamperedRead(p: Posted, after: Bytes, before: seq<Record>, text: Bytes -> bool)
    requires Checksum(after) != Checksum(AfterCrc(p.records, p.first))
    ensures ReadBatch(Tampered(p, after), p.base, before, text) == Failure(BadChecksum)
  {
    hide Packed;
    hide Checksum;
    hide AfterCrc;
    hide BigEndian;
    var wire, bad := p.Wire(), Tampered(p, after);
    BatchFields(p.base, AfterCrc(p.records, p.first));
    hide Batch;
    ChecksumFits(AfterCrc(p.records, p.first));
    assert bad[16] == wire[16];
    assert Slice(bad, 17, 21) == bad[17..21] == wire[17..21];
    assert Slice(bad, 21, |bad|) == after;
  }

  /** Damage to a stored batch from its attributes on, inside four consecutive bytes, makes the fetch fail,
      whatever came before it and whatever follows. */
  lemma DamageNoticed(ps: seq<Posted>, p: Posted, after: Bytes, rest: Bytes, from: nat, text: Bytes -> bool)
    requires Sendable(ps, text) && p.Valid(text)
    requires |after| == |AfterCrc(p.records, p.first)| && after != AfterCrc(p.records, p.first)
    requires forall j :: 0 <= j < |after| && !(from <= j < from + 4) ==> after[j] == AfterCrc(p.records, p.first)[j]
    ensures ReadBatches(Stream(ps) + Tampered(p, after) + rest, 0, [], text) == Failure(BadChecksum)
  {
    hide Sendable;
    hide ReadBatches;
    hide Stream;
    hide FetchedAll;
    hide AfterCrc;
    hide Packable;
    hide Legible;
    hide InField;
    hide Batch;
    hide ReadBatch;
    hide Tampered;
    ChecksumsDiffer(after, AfterCrc(p.records, p.first), from);
    hide Checksum;
    var bad, good := Tampered(p, after), Stream(ps);
    var data, length := good + bad + rest, 9 + |after|;
    PackableSizes(p);
    TamperedHead(p, after);
    HoldsIn([], good, bad + rest);
    HoldsIn(good, bad, rest);
    assert [] + good + (bad + rest) == data;
    StreamRead(data, 0, ps, [], text);
    var before := [] + FetchedAll(ps);
    NextBatch(data, |good|, bad, p.base, length, before, text);
    TamperedRead(p, after, before, text);
  }
}
