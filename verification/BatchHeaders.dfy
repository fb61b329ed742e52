/** The header of an encoded batch, read as bytes: what it states about the records that decoding the same bytes
    gives back. */
module BatchHeaders {
  import opened Octets
  import opened Varint
  import opened Wrappers
  import opened RecordBatch
  import opened BatchTheorems

  lemma {:induction false} LatestOccurs(records: seq<Record>, first: int, latest: int)
    ensures Latest(records, first, latest) == latest
            || exists i :: 0 <= i < |records| && Latest(records, first, latest) == Stamp(records[i], first)
    decreases |records|
  {
    hide Stamp;
    if records != [] {
      var stamp := Stamp(records[0], first);
      var next := if stamp > latest then stamp else latest;
      LatestOccurs(records[1..], first, next);
      if i :| 0 <= i < |records[1..]| && Latest(records[1..], first, next) == Stamp(records[1..][i], first) {
        assert records[1..][i] == records[i + 1];
      }
    }
  }

  /** Where the fields stand, first of what the checksum covers, then of the whole batch. */
  lemma CoveredFields(records: seq<Record>, first: int)
    ensures var after := AfterCrc(records, first);
      && |after| == 40 + |Frames(records, first, 0)|
      && after[..2] == Packed(0, SHORT) && after[2..6] == Packed(|records| - 1, WORD)
      && after[6..14] == Packed(first, LONG) && after[14..22] == Packed(Latest(records, first, first), LONG)
      && after[22..30] == Packed(-1, LONG) && after[30..32] == Packed(-1, SHORT)
      && after[32..36] == Packed(-1, WORD) && after[36..40] == Packed(|records|, WORD)
  {
    hide Packed;
    hide Frames;
    hide Latest;
    var a, b, c, d := Packed(0, SHORT), Packed(|records| - 1, WORD), Packed(first, LONG),
      Packed(Latest(records, first, first), LONG);
    var e, f, g, h := Packed(-1, LONG), Packed(-1, SHORT), Packed(-1, WORD), Packed(|records|, WORD);
    assert AfterCrc(records, first) == a + (b + (c + (d + (e + (f + (g + (h + Frames(records, first, 0))))))));
  }

  lemma HeaderFields(records: seq<Record>, first: int)
    ensures var batch := Batch(0, AfterCrc(records, first));
      && |batch| == 61 + |Frames(records, first, 0)| == 21 + |AfterCrc(records, first)|
      && batch[..8] == Packed(0, LONG) && batch[8..12] == Packed(9 + |AfterCrc(records, first)|, WORD)
      && batch[12..16] == Packed(-1, WORD) && batch[16] == 2
      && batch[17..21] == BigEndian(Checksum(batch[21..]), WORD)
      && batch[21..23] == Packed(0, SHORT) && batch[23..27] == Packed(|records| - 1, WORD)
      && batch[27..35] == Packed(first, LONG) && batch[35..43] == Packed(Latest(records, first, first), LONG)
      && batch[43..51] == Packed(-1, LONG) && batch[51..53] == Packed(-1, SHORT)
      && batch[53..57] == Packed(-1, WORD) && batch[57..61] == Packed(|records|, WORD)
  {
    hide Packed;
    hide BigEndian;
    hide Checksum;
    hide Frames;
    hide Latest;
    CoveredFields(records, first);
    hide AfterCrc;
    var after := AfterCrc(records, first);
    BatchFields(0, after);
    LeaderEpoch(0, after);
    hide Batch;
    var batch := Batch(0, after);
    forall i, j | 0 <= i <= j <= |after| ensures batch[21 + i..21 + j] == after[i..j] {
      assert batch[21 + i..21 + j] == batch[21..][i..j];
    }
    assert batch[21..23] == after[0..2] && batch[23..27] == after[2..6] && batch[27..35] == after[6..14];
    assert batch[35..43] == after[14..22] && batch[43..51] == after[22..30] && batch[51..53] == after[30..32];
    assert batch[53..57] == after[32..36] && batch[57..61] == after[36..40];
  }

  lemma LeaderEpoch(base: int, after: Bytes)
    ensures Batch(base, after)[12..16] == Packed(-1, WORD)
  {
    hide Packed;
    hide BigEndian;
    hide Checksum;
    var a, b, c := Packed(base, LONG), Packed(9 + |after|, WORD), Packed(-1, WORD);
    assert Batch(base, after) == a + (b + (c + ([2] + (BigEndian(Checksum(after), WORD) + after))));
  }

  lemma ShortLimits()
    ensures InField(-1, SHORT) && Packed(0, SHORT) == [0, 0]
  {
    assert Pow256(2) == 0x1_0000;
    assert BigEndian(0, 1) == [0] && BigEndian(0, 2) == BigEndian(0, 1) + [0];
  }

  lemma MinusOnes()
    ensures Signed(Packed(-1, LONG)) == -1 && Signed(Packed(-1, WORD)) == -1 && Signed(Packed(-1, SHORT)) == -1
    ensures Signed(Packed(0, LONG)) == 0
  {
    hide Signed;
    hide Packed;
    hide InField;
    FieldLimits(-1);
    FieldLimits(0);
    ShortLimits();
    FieldRead(-1, LONG);
    FieldRead(-1, WORD);
    FieldRead(0, LONG);
    FieldRead(-1, SHORT);
  }

  lemma FourBytes(a: nat, b: nat, c: nat, d: nat)
    requires a < 256 && b < 256 && c < 256 && d < 256
    ensures BigEndian(0x100_0000 * a + 0x1_0000 * b + 0x100 * c + d, WORD) == [a, b, c, d]
  {
    var all := 0x100_0000 * a + 0x1_0000 * b + 0x100 * c + d;
    assert all == 256 * (0x1_0000 * a + 0x100 * b + c) + d;
    assert 0x1_0000 * a + 0x100 * b + c == 256 * (0x100 * a + b) + c;
    assert BigEndian(a, 1) == [a];
    assert BigEndian(0x100 * a + b, 2) == [a, b];
    assert BigEndian(0x1_0000 * a + 0x100 * b + c, 3) == [a, b, c];
  }

  lemma ByteIsNumber(b: bv8)
    ensures 0 <= b as int < 256 && ByteValue(b) == b as int
  {}

  lemma NumberBytes(a: bv8, b: bv8, c: bv8, d: bv8)
    ensures BigEndian(FromBytes(a, b, c, d), WORD) == [ByteValue(a), ByteValue(b), ByteValue(c), ByteValue(d)]
  {
    hide ByteValue;
    ByteIsNumber(a);
    ByteIsNumber(b);
    ByteIsNumber(c);
    ByteIsNumber(d);
    FourBytes(ByteValue(a), ByteValue(b), ByteValue(c), ByteValue(d));
  }

  /** The checksum field holds the register, high byte first. */
  lemma ChecksumBytes(data: Bytes, w: bv32, a: bv8, b: bv8, c: bv8, d: bv8)
    requires w == Crc32c.Crc(Words(data)) && a == (w >> 24) as bv8 && b == ((w >> 16) & 0xFF) as bv8
    requires c == ((w >> 8) & 0xFF) as bv8 && d == (w & 0xFF) as bv8
    ensures BigEndian(Checksum(data), WORD) == [ByteValue(a), ByteValue(b), ByteValue(c), ByteValue(d)]
  {
    hide BigEndian;
    hide FromBytes;
    hide ByteValue;
    NumberBytes(a, b, c, d);
  }

  /** From `at` on, `count` records, each a length and a body of that length whose first byte, the record's own
      attributes, is zero. */
  ghost predicate PlainRecords(data: Bytes, at: int, count: nat)
    decreases count
  {
    count == 0 ||
      var length := DecodedVarint(data, at);
      && length.Success? && 0 <= length.value.1 < |data| && data[length.value.1] == 0
      && PlainRecords(data, length.value.1 + length.value.0, count - 1)
  }

  lemma PlainBody(data: Bytes, at: int, r: Record, delta: int, index: nat)
    requires Holds(data, at, Blob(Content(r, delta, index))) && |Content(r, delta, index)| < BEYOND
    ensures var length := DecodedVarint(data, at);
      && length.Success? && 0 <= length.value.1 < |data| && data[length.value.1] == 0
      && length.value.1 + length.value.0 == at + |Blob(Content(r, delta, index))|
  {
    hide Number;
    hide DecodedVarint;
    var body := Content(r, delta, index);
    HoldsBoth(data, at, Number(|body|), body);
    NumberRead(data, at, |body|);
    ContentBounds(r, delta, index);
    assert body[0] == 0;
    hide Content;
    var from := at + |Number(|body|)|;
    assert data[from] == data[from..from + |body|][0];
  }

  lemma {:induction false} FramesPlain(data: Bytes, at: int, records: seq<Record>, index: nat, first: int)
    requires Holds(data, at, Frames(records, first, index)) && |Frames(records, first, index)| < BEYOND
    ensures PlainRecords(data, at, |records|)
    decreases |records|
  {
    hide Content;
    hide DecodedVarint;
    hide Stamp;
    hide Number;
    if records != [] {
      var delta := Stamp(records[0], first) - first;
      var frame := Blob(Content(records[0], delta, index));
      HoldsBoth(data, at, frame, Frames(records[1..], first, index + 1));
      PlainBody(data, at, records[0], delta, index);
      FramesPlain(data, at + |frame|, records[1..], index + 1, first);
    }
  }

  lemma BatchRecordsPlain(records: seq<Record>, first: int)
    requires Packable(records, first)
    ensures PlainRecords(Batch(0, AfterCrc(records, first)), 61, |records|)
  {
    hide Batch;
    hide AfterCrc;
    hide Holds;
    hide Frames;
    hide PlainRecords;
    var p := Posted(records, first, 0);
    BatchOpens(p, [], _ => true);
    PackableSizes(p);
    FramesPlain(p.Wire(), 61, records, 0, first);
  }

  /** What an encoded batch states about itself, field by field: its length, the checksum of what follows it,
      the first timestamp, how many records there are, minus one for everything that belongs to a transaction,
      and a zero wherever attributes stand. No timestamp lies behind the latest, and it is the first timestamp or
      a record's. */
  lemma HeaderStates(records: seq<Record>, baseTimestamp: int, now: int)
    requires Encoded(records, baseTimestamp, now).Success?
    ensures var batch := Encoded(records, baseTimestamp, now).value;
      && |batch| >= 61 && Signed(batch[..8]) == 0 && Signed(batch[8..12]) == |batch| - 12
      && Signed(batch[12..16]) == -1 && batch[16] == 2 && Unsigned(batch[17..21]) == Checksum(batch[21..])
      && batch[21..23] == [0, 0] && Signed(batch[23..27]) == |records| - 1
      && Signed(batch[43..51]) == -1 && Signed(batch[51..53]) == -1 && Signed(batch[53..57]) == -1
      && Signed(batch[57..61]) == |records|
    ensures PlainRecords(Encoded(records, baseTimestamp, now).value, 61, |records|)
    ensures var batch := Encoded(records, baseTimestamp, now).value;
      Signed(batch[27..35]) == if baseTimestamp != 0 then baseTimestamp
                               else if records[0].timestamp != 0 then records[0].timestamp else now
    ensures var batch := Encoded(records, baseTimestamp, now).value;
      var first, latest := Signed(batch[27..35]), Signed(batch[35..43]);
      && first <= latest && (forall r :: r in records && r.timestamp != 0 ==> r.timestamp <= latest)
      && (latest == first || exists r :: r in records && r.timestamp == latest != 0)
  {
    hide Packed;
    hide BigEndian;
    hide Checksum;
    hide Frames;
    hide Latest;
    hide Signed;
    hide InField;
    var first := FirstTimestamp(records, baseTimestamp, now);
    var batch, latest := Batch(0, AfterCrc(records, first)), Latest(records, first, first);
    HeaderFields(records, first);
    BatchRecordsPlain(records, first);
    hide PlainRecords;
    hide Batch;
    MinusOnes();
    ShortLimits();
    ChecksumFits(batch[21..]);
    FieldRead(9 + |AfterCrc(records, first)|, WORD);
    FieldRead(first, LONG);
    FieldRead(latest, LONG);
    FieldRead(|records|, WORD);
    hide AfterCrc;
    FieldLimits(|records|);
    FieldLimits(|records| - 1);
    FieldRead(|records| - 1, WORD);
    LatestOccurs(records, first, first);
    LatestIsLast(records, first, first, 0);
    forall r | r in records && r.timestamp != 0 ensures r.timestamp <= latest {
      var i :| 0 <= i < |records| && records[i] == r;
      LatestIsLast(records, first, first, i);
    }
    if latest != first {
      var i :| 0 <= i < |records| && latest == Stamp(records[i], first);
      assert records[i] in records;
    }
  }

  /** The same of what decoding those bytes gives back: the records in order, numbered from zero, with the batch's
      first timestamp where they had none; and the last offset and the latest timestamp are the header's. */
  lemma HeaderMatchesRecords(records: seq<Record>, baseTimestamp: int, now: int, text: Bytes -> bool)
    requires Encoded(records, baseTimestamp, now).Success? && Legible(records, text)
    requires Near(records, FirstTimestamp(records, baseTimestamp, now))
    ensures var batch := Encoded(records, baseTimestamp, now).value;
      var read := ReadBatches(batch, 0, [], text);
      && |batch| >= 61 && read.Success? && |read.value| == |records| > 0
      && var last, first, latest := read.value[|records| - 1], Signed(batch[27..35]), Signed(batch[35..43]);
         && (forall i :: 0 <= i < |records| ==>
               var r := records[i];
               read.value[i] == Record(r.value, r.key, if r.timestamp == 0 then first else r.timestamp, i, r.headers))
         && Signed(batch[23..27]) == last.offset - Signed(batch[..8]) && Signed(batch[57..61]) == |records|
         && first <= latest && (forall r :: r in read.value ==> r.timestamp <= latest)
         && (latest == first || exists r :: r in read.value && r.timestamp == latest)
  {
    EncodedRoundTrip(records, baseTimestamp, now, text);
    HeaderStates(records, baseTimestamp, now);
    hide Signed;
    var batch, first := Encoded(records, baseTimestamp, now).value, FirstTimestamp(records, baseTimestamp, now);
    StoredLatest(records, first, Signed(batch[35..43]));
    hide Encoded;
    hide ReadBatches;
    hide Near;
    hide Legible;
    hide Stored;
  }

  /** The latest timestamp of the records is that of what is stored of them. */
  lemma StoredLatest(records: seq<Record>, first: int, latest: int)
    requires first <= latest && forall r :: r in records && r.timestamp != 0 ==> r.timestamp <= latest
    requires latest == first || exists r :: r in records && r.timestamp == latest != 0
    ensures forall r :: r in Stored(records, first, 0, 0) ==> r.timestamp <= latest
    ensures latest == first || exists r :: r in Stored(records, first, 0, 0) && r.timestamp == latest
  {
    var read := Stored(records, first, 0, 0);
    hide Stored;
    forall r | r in read ensures r.timestamp <= latest {
      var i :| 0 <= i < |read| && read[i] == r;
      assert records[i] in records;
    }
    if latest != first {
      var r :| r in records && r.timestamp == latest != 0;
      var i :| 0 <= i < |records| && records[i] == r;
      assert read[i] in read;
    }
  }

  // ------------------------------------------------------------ batches of other producers

  /** What is wrong with a batch, if anything is, in the order in which it is found out: no magic byte or another
      than 2, no room for a checksum or a wrong one, no room for the header. */
  lemma BatchVerdict(batch: Bytes, base: int, before: seq<Record>, text: Bytes -> bool)
    ensures ReadBatch(batch, base, before, text) ==
      if |batch| < 17 then Failure(OutOfRange)
      else if batch[16] != 2 then Failure(BadMagic(batch[16]))
      else if |batch| < 21 then Failure(ShortField)
      else if Unsigned(batch[17..21]) != Checksum(batch[21..]) then Failure(BadChecksum)
      else if |batch| < 61 then Failure(ShortField)
      else ReadRecords(batch, 61, Signed(batch[57..61]), Signed(batch[27..35]), base, before, text)
  {
    hide ReadRecords;
    hide Checksum;
    hide Unsigned;
    hide Signed;
    if |batch| >= 21 { assert batch[21..|batch|] == batch[21..]; }
  }

  /** A record whose value is null, as a broker keeps one for a deleted key, whatever its attributes are. */
  function Tombstone(attributes: Octet, delta: int, index: int, key: Option<Bytes>): Bytes {
    [attributes] + Number(delta) + Number(index) + KeyBytes(key) + Number(-1) + Number(0)
  }

  lemma TombstoneParts(data: Bytes, at: int, attributes: Octet, delta: int, index: int, key: Option<Bytes>)
    requires Holds(data, at, Tombstone(attributes, delta, index, key))
    ensures var a := at + 1 + |Number(delta)|;
      var b := a + |Number(index)|;
      var c := b + |KeyBytes(key)|;
      && Holds(data, at + 1, Number(delta)) && Holds(data, a, Number(index)) && Holds(data, b, KeyBytes(key))
      && Holds(data, c, Number(-1)) && Holds(data, c + |Number(-1)|, Number(0))
  {
    hide Number;
    hide KeyBytes;
    hide Holds;
    var p1 := [attributes] + Number(delta);
    var p2 := p1 + Number(index);
    var p3 := p2 + KeyBytes(key);
    var p4 := p3 + Number(-1);
    HoldsBoth(data, at, p4, Number(0));
    HoldsBoth(data, at, p3, Number(-1));
    HoldsBoth(data, at, p2, KeyBytes(key));
    HoldsBoth(data, at, p1, Number(index));
    HoldsBoth(data, at, [attributes], Number(delta));
  }

  /** It is read as an empty value, and the next record begins where its length says. */
  lemma TombstoneRead(data: Bytes, at: int, length: int, attributes: Octet, delta: int, index: int,
                      key: Option<Bytes>, first: int, base: int, text: Bytes -> bool)
    requires Holds(data, at, Number(length) + Tombstone(attributes, delta, index, key))
    requires LEAST <= length < BEYOND && LEAST <= delta < BEYOND && LEAST <= index < BEYOND
    requires key.Some? ==> |key.value| < BEYOND
    ensures ReadRecord(data, at, first, base, text)
         == Success((Record([], key, first + delta, base + index, []), at + |Number(length)| + length))
  {
    hide Number;
    hide DecodedVarint;
    hide KeyBytes;
    HoldsBoth(data, at, Number(length), Tombstone(attributes, delta, index, key));
    NumberRead(data, at, length);
    var start := at + |Number(length)|;
    TombstoneParts(data, start, attributes, delta, index, key);
    hide Tombstone;
    hide Holds;
    NumberRead(data, start + 1, delta);
    var a := start + 1 + |Number(delta)|;
    NumberRead(data, a, index);
    KeyRead(data, a + |Number(index)|, key);
    var c := a + |Number(index)| + |KeyBytes(key)|;
    NumberRead(data, c, -1);
    NumberRead(data, c + |Number(-1)|, 0);
  }

  /** A header whose value is null is read as an empty one. */
  lemma NullHeaderRead(data: Bytes, at: int, name: Bytes, text: Bytes -> bool)
    requires Holds(data, at, Blob(name) + Number(-1)) && |name| < BEYOND && text(name)
    ensures ReadHeader(data, at, text) == Success((name, [], at + |Blob(name)| + |Number(-1)|))
  {
    hide Number;
    hide DecodedVarint;
    HoldsBoth(data, at, Blob(name), Number(-1));
    HoldsBoth(data, at, Number(|name|), name);
    NumberRead(data, at, |name|);
    HoldsSlice(data, at + |Number(|name|)|, name);
    NumberRead(data, at + |Blob(name)|, -1);
  }
}
