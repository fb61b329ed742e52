/** Incremental framing: `vnd.amazon.eventstream` messages and Server-Sent Events, from chunks that
    arrive cut anywhere. The CRC-32 is any function into 32 bits. */
module Framing {
  import opened Octets
  import opened Wrappers

  type Word = x: int | 0 <= x < 0x1_0000_0000
  type Crc = Bytes -> Word

  function Joined(chunks: seq<Bytes>): Bytes {
    if chunks == [] then [] else chunks[0] + Joined(chunks[1..])
  }

  // ------------------------------------------------------------ event-stream frames

  datatype FrameError = Implausible(total: nat, headers: nat) | PreludeCrc | MessageCrc

  datatype Taken = NotYet | Frame(payload: Bytes, rest: Bytes) | Broken(error: FrameError)

  /** `_take_frame`. */
  function TakeFrame(crc: Crc, buffer: Bytes): (t: Taken)
    ensures t.Frame? ==> |t.rest| + 16 <= |buffer|
  {
    if |buffer| < 16 then NotYet
    else
      var total, headers := Unsigned(buffer[..4]), Unsigned(buffer[4..8]);
      if total < 16 || headers > total - 16 then Broken(Implausible(total, headers))
      else if |buffer| < total then NotYet
      else if crc(buffer[..8]) != Unsigned(buffer[8..12]) then Broken(PreludeCrc)
      else if crc(buffer[..total - 4]) != Unsigned(buffer[total - 4..total]) then Broken(MessageCrc)
      else Frame(buffer[12 + headers..total - 4], buffer[total..])
  }

  /** What a parser has yielded, and how it stands: waiting on a rest, or stopped by an error. */
  datatype Parsed = Parsed(payloads: seq<Bytes>, rest: Bytes, error: Option<FrameError>)

  /** All frames of a byte string, taken off the front one by one. */
  function Parse(crc: Crc, data: Bytes): Parsed
    decreases |data|
  {
    match TakeFrame(crc, data)
    case NotYet => Parsed([], data, None)
    case Broken(e) => Parsed([], [], Some(e))
    case Frame(payload, rest) =>
      var p := Parse(crc, rest);
      Parsed([payload] + p.payloads, p.rest, p.error)
  }

  /** Going on with more bytes. */
  function Resume(crc: Crc, p: Parsed, more: Bytes): Parsed {
    if p.error.Some? then p
    else
      var q := Parse(crc, p.rest + more);
      Parsed(p.payloads + q.payloads, q.rest, q.error)
  }

  /** A frame that is there, or seen to be broken, stays so when more bytes follow. */
  lemma TakeFrameStable(crc: Crc, buffer: Bytes, more: Bytes)
    ensures match TakeFrame(crc, buffer)
            case NotYet => true
            case Broken(e) => TakeFrame(crc, buffer + more) == Broken(e)
            case Frame(payload, rest) => TakeFrame(crc, buffer + more) == Frame(payload, rest + more)
  {
    hide Unsigned;
    if |buffer| >= 16 {
      var all := buffer + more;
      assert all[..4] == buffer[..4] && all[4..8] == buffer[4..8] && all[..8] == buffer[..8]
             && all[8..12] == buffer[8..12];
      var total, headers := Unsigned(buffer[..4]), Unsigned(buffer[4..8]);
      if 16 <= total <= |buffer| && headers <= total - 16 {
        assert all[..total - 4] == buffer[..total - 4] && all[total - 4..total] == buffer[total - 4..total];
        assert all[12 + headers..total - 4] == buffer[12 + headers..total - 4]
               && all[total..] == buffer[total..] + more;
      }
    }
  }

  /** Parsing what there is and then going on is parsing everything at once. */
  lemma {:induction false} ParseResumes(crc: Crc, data: Bytes, more: Bytes)
    ensures Parse(crc, data + more) == Resume(crc, Parse(crc, data), more)
    decreases |data|
  {
    hide TakeFrame;
    TakeFrameStable(crc, data, more);
    var t := TakeFrame(crc, data);
    if t.Frame? {
      assert |t.rest| < |data| by { FrameShrinks(crc, data); }
      ParseResumes(crc, t.rest, more);
      var p := Parse(crc, t.rest);
      assert [t.payload] + (p.payloads + Parse(crc, p.rest + more).payloads)
          == [t.payload] + p.payloads + Parse(crc, p.rest + more).payloads;
    } else if t.NotYet? {
      var q := Parse(crc, data + more);
      assert [] + q.payloads == q.payloads;
    }
  }

  lemma FrameShrinks(crc: Crc, buffer: Bytes)
    requires TakeFrame(crc, buffer).Frame?
    ensures |TakeFrame(crc, buffer).rest| < |buffer|
  {}

  /** `event_stream_payloads`, run to its end or to its error. Only the bytes matter, not their chunks. */
  method EventStreamPayloads(crc: Crc, chunks: seq<Bytes>) returns (p: Parsed)
    ensures p == Parse(crc, Joined(chunks))
  {
    hide TakeFrame;
    var yielded: seq<Bytes>, buffer: Bytes := [], [];
    ghost var seen: Bytes := [];
    NothingYet(crc);
    for i := 0 to |chunks|
      invariant seen + Joined(chunks[i..]) == Joined(chunks)
      invariant Parse(crc, seen) == Parsed(yielded, buffer, None)
    {
      assert chunks[i..][1..] == chunks[i + 1..];
      ghost var tail := Joined(chunks[i + 1..]);
      ghost var before := Parsed(yielded, buffer, None);
      ParseResumes(crc, seen, chunks[i]);
      assert seen + (chunks[i] + tail) == seen + chunks[i] + tail;
      seen := seen + chunks[i];
      buffer := buffer + chunks[i];
      while true
        invariant Parse(crc, seen).payloads == yielded + Parse(crc, buffer).payloads
        invariant Parse(crc, seen).rest == Parse(crc, buffer).rest && Parse(crc, seen).error == Parse(crc, buffer).error
        decreases |buffer|
      {
        var t := TakeFrame(crc, buffer);
        if t.Broken? {
          ParseResumes(crc, seen, tail);
          assert yielded + [] == yielded;
          return Parsed(yielded, [], Some(t.error));
        }
        if t.NotYet? {
          break;
        }
        FrameShrinks(crc, buffer);
        assert yielded + ([t.payload] + Parse(crc, t.rest).payloads)
               == yielded + [t.payload] + Parse(crc, t.rest).payloads;
        yielded, buffer := yielded + [t.payload], t.rest;
      }
      assert yielded + [] == yielded;
    }
    assert seen + [] == seen;
    p := Parsed(yielded, buffer, None);
  }

  lemma NothingYet(crc: Crc)
    ensures Parse(crc, []) == Parsed([], [], None)
  {}

  // ------------------------------------------------------------ building frames

  /** A header; a name's length is written in characters, whatever its UTF-8 form takes. */
  datatype Header = Header(nameLength: nat, name: Bytes, valueLength: nat, value: Bytes)

  function HeaderBlock(headers: seq<Header>): Bytes {
    if headers == [] then []
    else
      var h := headers[0];
      [h.nameLength % 256] + h.name + [7] + BigEndian(h.valueLength, SHORT) + h.value + HeaderBlock(headers[1..])
  }

  /** The lengths that `bytes([n])` and `struct.pack` accept. */
  predicate Encodable(headers: seq<Header>, payload: Bytes) {
    && (forall h :: h in headers ==> h.nameLength < 256 && h.valueLength < 0x1_0000)
    && 16 + |HeaderBlock(headers)| + |payload| < 0x1_0000_0000
  }

  function Prelude(headers: Bytes, payload: Bytes): (s: Bytes)
    ensures |s| == 8
  {
    BigEndian(16 + |headers| + |payload|, WORD) + BigEndian(|headers|, WORD)
  }

  function Message(crc: Crc, headers: Bytes, payload: Bytes): Bytes {
    var prelude := Prelude(headers, payload);
    prelude + BigEndian(crc(prelude), WORD) + headers + payload
  }

  /** `encode_event_frame`; `None` where it raises. */
  function EncodeFrame(crc: Crc, headers: seq<Header>, payload: Bytes): Option<Bytes> {
    if !Encodable(headers, payload) then None
    else
      var message := Message(crc, HeaderBlock(headers), payload);
      Some(message + BigEndian(crc(message), WORD))
  }

  lemma WordFits(u: int)
    requires 0 <= u < 0x1_0000_0000
    ensures Unsigned(BigEndian(u, WORD)) == u
  {
    assert Pow256(2) == 0x1_0000 && Pow256(4) == 0x1_0000 * Pow256(2);
    BigEndianRead(u, WORD);
  }

  lemma MessageLayout(crc: Crc, headers: Bytes, payload: Bytes, sum: Bytes, more: Bytes)
    requires |sum| == 4
    ensures var message := Message(crc, headers, payload);
            var data := message + sum + more;
            var total := 16 + |headers| + |payload|;
            && |message| == total - 4 && |data| == total + |more|
            && data[..4] == BigEndian(total, WORD) && data[4..8] == BigEndian(|headers|, WORD)
            && data[..8] == Prelude(headers, payload) && data[8..12] == BigEndian(crc(Prelude(headers, payload)), WORD)
            && data[..total - 4] == message && data[total - 4..total] == sum
            && data[12 + |headers|..total - 4] == payload && data[total..] == more
  {
    hide BigEndian;
    var prelude := Prelude(headers, payload);
    var check := BigEndian(crc(prelude), WORD);
    var message := Message(crc, headers, payload);
    var data := message + sum + more;
    assert data == prelude + (check + (headers + (payload + (sum + more))));
    assert data == message + (sum + more);
    assert data[..8] == prelude;
    assert prelude[..4] == data[..4] && prelude[4..8] == data[4..8];
  }

  /** The header at the front of a block, and what follows it: the name's length and the name, the type of a
      text, and the value's length and the value. */
  function HeaderIn(block: Bytes): (r: Option<(Header, Bytes)>)
    ensures r.Some? ==> |r.value.1| < |block|
  {
    if block == [] then None
    else
      var n := block[0];
      if |block| < 4 + n || block[1 + n] != 7 then None
      else
        var m := Unsigned(block[2 + n..4 + n]);
        if |block| < 4 + n + m then None
        else Some((Header(n, block[1..1 + n], m, block[4 + n..4 + n + m]), block[4 + n + m..]))
  }

  function HeadersIn(block: Bytes): Option<seq<Header>>
    decreases |block|
  {
    if block == [] then Some([])
    else
      match HeaderIn(block)
      case None => None
      case Some((header, rest)) =>
        match HeadersIn(rest)
        case None => None
        case Some(others) => Some([header] + others)
  }

  lemma HeaderReadBack(h: Header, rest: Bytes)
    requires h.nameLength == |h.name| < 256 && h.valueLength == |h.value| < 0x1_0000
    ensures HeaderIn([h.nameLength] + h.name + [7] + BigEndian(h.valueLength, SHORT) + h.value + rest)
         == Some((h, rest))
  {
    hide BigEndian;
    hide Unsigned;
    var n, m := |h.name|, BigEndian(h.valueLength, SHORT);
    ShortFits(h.valueLength);
    var block := [n] + h.name + [7] + m + h.value + rest;
    assert block == [n] + (h.name + ([7] + (m + (h.value + rest))));
    assert block[0] == n && block[1 + n] == 7 && |block| == 4 + n + |h.value| + |rest|;
    assert block[1..1 + n] == h.name && block[2 + n..4 + n] == m;
    assert block[4 + n..4 + n + |h.value|] == h.value && block[4 + n + |h.value|..] == rest;
  }

  /** Headers whose lengths count bytes can be read back from their block; those of an ASCII text do. */
  lemma {:induction false} HeadersReadBack(headers: seq<Header>)
    requires forall h :: h in headers ==> h.nameLength == |h.name| < 256 && h.valueLength == |h.value| < 0x1_0000
    ensures HeadersIn(HeaderBlock(headers)) == Some(headers)
  {
    hide BigEndian;
    hide HeaderIn;
    if headers != [] {
      assert headers[0] in headers;
      var h, rest := headers[0], HeaderBlock(headers[1..]);
      HeaderReadBack(h, rest);
      assert HeaderBlock(headers) == [h.nameLength] + h.name + [7] + BigEndian(h.valueLength, SHORT) + h.value + rest;
      HeadersReadBack(headers[1..]);
      assert HeaderBlock(headers) != [] && [h] + headers[1..] == headers;
    }
  }

  lemma ShortFits(u: int)
    requires 0 <= u < 0x1_0000
    ensures Unsigned(BigEndian(u, SHORT)) == u
  {
    assert Pow256(2) == 0x1_0000;
    BigEndianRead(u, SHORT);
  }

  // ------------------------------------------------------------ what counts as a frame

  /** `frame` carries this block of headers and this payload, with both checksums in place. */
  ghost predicate IsFrame(crc: Crc, frame: Bytes, headers: Bytes, payload: Bytes) {
    && 16 + |headers| + |payload| < 0x1_0000_0000
    && frame == Message(crc, headers, payload) + BigEndian(crc(Message(crc, headers, payload)), WORD)
  }

  lemma {:induction false} BytesOfNumber(s: Bytes)
    ensures BigEndian(Unsigned(s), |s|) == s && Unsigned(s) < Pow256(|s|)
  {
    if s != [] {
      var front := s[..|s| - 1];
      BytesOfNumber(front);
      assert Unsigned(s) / 256 == Unsigned(front) && Unsigned(s) % 256 == s[|s| - 1];
    }
  }

  lemma WordOfBytes(s: Bytes, u: nat)
    requires |s| == 4 && Unsigned(s) == u
    ensures BigEndian(u, WORD) == s && u < 0x1_0000_0000
  {
    BytesOfNumber(s);
    assert Pow256(2) == 0x1_0000 && Pow256(4) == 0x1_0000 * Pow256(2);
  }

  lemma TakenIsFrame(crc: Crc, buffer: Bytes)
    requires TakeFrame(crc, buffer).Frame?
    ensures var t := TakeFrame(crc, buffer);
            exists frame, headers :: IsFrame(crc, frame, headers, t.payload) && buffer == frame + t.rest
  {
    hide BigEndian;
    hide Unsigned;
    var total, h := Unsigned(buffer[..4]), Unsigned(buffer[4..8]);
    var headers, payload := buffer[12..12 + h], buffer[12 + h..total - 4];
    WordOfBytes(buffer[..4], total);
    WordOfBytes(buffer[4..8], h);
    WordOfBytes(buffer[8..12], crc(buffer[..8]));
    WordOfBytes(buffer[total - 4..total], crc(buffer[..total - 4]));
    assert Prelude(headers, payload) == buffer[..8];
    assert Message(crc, headers, payload) == buffer[..total - 4];
    assert IsFrame(crc, buffer[..total], headers, payload);
    assert buffer == buffer[..total] + buffer[total..];
  }

  lemma FrameIsTaken(crc: Crc, frame: Bytes, headers: Bytes, payload: Bytes, more: Bytes)
    requires IsFrame(crc, frame, headers, payload)
    ensures TakeFrame(crc, frame + more) == Frame(payload, more)
  {
    hide BigEndian;
    hide Unsigned;
    hide Message;
    var message := Message(crc, headers, payload);
    MessageLayout(crc, headers, payload, BigEndian(crc(message), WORD), more);
    WordFits(16 + |headers| + |payload|);
    WordFits(|headers|);
    WordFits(crc(Prelude(headers, payload)));
    WordFits(crc(message));
  }

  /** A frame is taken off exactly when one stands at the front with both checksums right. The parser waits
      only while the stated length is plausible and not there yet; otherwise it stops, and says which of the
      lengths, the prelude's checksum and the message's is the first that is wrong. */
  lemma FrameVerdict(crc: Crc, buffer: Bytes, payload: Bytes, rest: Bytes)
    ensures TakeFrame(crc, buffer) == Frame(payload, rest) <==>
              exists frame, headers :: IsFrame(crc, frame, headers, payload) && buffer == frame + rest
    ensures var t, total := TakeFrame(crc, buffer), Unsigned(if |buffer| < 4 then [] else buffer[..4]);
            var headers := Unsigned(if |buffer| < 8 then [] else buffer[4..8]);
            && (t.NotYet? <==> |buffer| < 16 || (|buffer| < total && 16 + headers <= total))
            && (t == Broken(Implausible(total, headers)) <==> |buffer| >= 16 && total < 16 + headers)
            && (t == Broken(PreludeCrc) <==>
                  |buffer| >= 16 && 16 + headers <= total <= |buffer| && crc(buffer[..8]) != Unsigned(buffer[8..12]))
            && (t.Broken? ==> t.error in {PreludeCrc, MessageCrc} || t.error == Implausible(total, headers))
  {
    hide Unsigned;
    if exists frame, headers :: IsFrame(crc, frame, headers, payload) && buffer == frame + rest {
      var frame, headers :| IsFrame(crc, frame, headers, payload) && buffer == frame + rest;
      FrameIsTaken(crc, frame, headers, payload, rest);
    } else if TakeFrame(crc, buffer).Frame? {
      TakenIsFrame(crc, buffer);
    }
  }

  /** An encoded frame is taken off whole, and what follows it is left. */
  lemma FrameTaken(crc: Crc, headers: seq<Header>, payload: Bytes, more: Bytes)
    requires Encodable(headers, payload)
    ensures TakeFrame(crc, EncodeFrame(crc, headers, payload).value + more) == Frame(payload, more)
  {
    hide Message;
    var block := HeaderBlock(headers);
    FrameIsTaken(crc, EncodeFrame(crc, headers, payload).value, block, payload, more);
  }

  datatype Event = Event(headers: seq<Header>, payload: Bytes)

  function Encoded(crc: Crc, events: seq<Event>): Bytes
    requires forall e :: e in events ==> Encodable(e.headers, e.payload)
  {
    if events == [] then []
    else EncodeFrame(crc, events[0].headers, events[0].payload).value + Encoded(crc, events[1..])
  }

  function Payloads(events: seq<Event>): seq<Bytes> {
    if events == [] then [] else [events[0].payload] + Payloads(events[1..])
  }

  /** Frames sent one after the other come out as their payloads in order, whatever their headers are, and
      the parser then stands before whatever follows. */
  lemma {:induction false} EncodedFramesParse(crc: Crc, events: seq<Event>, tail: Bytes)
    requires forall e :: e in events ==> Encodable(e.headers, e.payload)
    ensures var p := Parse(crc, tail);
            Parse(crc, Encoded(crc, events) + tail) == Parsed(Payloads(events) + p.payloads, p.rest, p.error)
    decreases |events|
  {
    hide TakeFrame;
    hide Message;
    hide BigEndian;
    hide HeaderBlock;
    var p := Parse(crc, tail);
    if events == [] {
      assert Encoded(crc, events) + tail == tail && [] + p.payloads == p.payloads;
    } else {
      assert events[0] in events;
      var frame, rest := EncodeFrame(crc, events[0].headers, events[0].payload).value, Encoded(crc, events[1..]);
      FrameTaken(crc, events[0].headers, events[0].payload, rest + tail);
      assert frame + rest + tail == frame + (rest + tail);
      EncodedFramesParse(crc, events[1..], tail);
      assert [events[0].payload] + (Payloads(events[1..]) + p.payloads) == Payloads(events) + p.payloads;
    }
  }

  // ------------------------------------------------------------ Server-Sent Events

  const NEWLINE: Octet := 10
  const DATA: Bytes := [100, 97, 116, 97, 58]

  predicate IsSpace(b: Octet) { b == 32 || 9 <= b <= 13 }

  function StripLeft(s: Bytes): Bytes {
    if s != [] && IsSpace(s[0]) then StripLeft(s[1..]) else s
  }

  function StripRight(s: Bytes): Bytes {
    if s != [] && IsSpace(s[|s| - 1]) then StripRight(s[..|s| - 1]) else s
  }

  /** `bytes.strip()`. */
  function Strip(s: Bytes): Bytes { StripRight(StripLeft(s)) }

  /** The place of the first newline, or the length. */
  function LineEnd(data: Bytes): (i: nat)
    ensures i <= |data| && NEWLINE !in data[..i] && (i < |data| ==> data[i] == NEWLINE)
  {
    if data == [] || data[0] == NEWLINE then 0
    else
      var i := LineEnd(data[1..]) + 1;
      assert data[..i] == [data[0]] + data[1..][..i - 1];
      i
  }

  /** What one line yields. */
  function DataOf(line: Bytes): seq<Bytes> {
    var stripped := Strip(line);
    if DATA <= stripped then [Strip(stripped[|DATA|..])] else []
  }

  /** What all lines yield, the last one included even if no newline ends it. */
  function DataLines(data: Bytes): seq<Bytes>
    decreases |data|
  {
    var i := LineEnd(data);
    DataOf(data[..i]) + if i == |data| then [] else DataLines(data[i + 1..])
  }

  /** The first newline is the place where a newline stands with none before it. */
  lemma LineEndIs(line: Bytes, rest: Bytes)
    requires NEWLINE !in line
    ensures LineEnd(line + [NEWLINE] + rest) == |line|
  {
    var data := line + [NEWLINE] + rest;
    var i := LineEnd(data);
    assert data[|line|] == NEWLINE;
    assert forall j :: 0 <= j < i ==> data[..i][j] == data[j];
    assert forall j :: 0 <= j < |line| ==> data[j] == line[j];
  }

  lemma LineSplit(buffer: Bytes, end: nat)
    requires end == LineEnd(buffer) && NEWLINE in buffer
    ensures end < |buffer| && NEWLINE !in buffer[..end] && buffer == buffer[..end] + [NEWLINE] + buffer[end + 1..]
  {
    assert forall j :: 0 <= j < end ==> buffer[..end][j] == buffer[j];
  }

  /** The first line of what is buffered is the first line of all there is to come. */
  lemma LineTaken(buffer: Bytes, tail: Bytes, end: nat)
    requires end == LineEnd(buffer) && NEWLINE in buffer
    ensures end < |buffer|
    ensures DataLines(buffer + tail) == DataOf(buffer[..end]) + DataLines(buffer[end + 1..] + tail)
  {
    hide DataOf;
    LineSplit(buffer, end);
    var line, rest := buffer[..end], buffer[end + 1..] + tail;
    assert buffer + tail == line + [NEWLINE] + rest;
    FirstLine(line, rest);
  }

  lemma FirstLine(line: Bytes, rest: Bytes)
    requires NEWLINE !in line
    ensures DataLines(line + [NEWLINE] + rest) == DataOf(line) + DataLines(rest)
  {
    hide DataOf;
    hide LineEnd;
    var data := line + [NEWLINE] + rest;
    LineEndIs(line, rest);
    assert data[..|line|] == line && data[|line| + 1..] == rest;
  }

  // ------------------------------------------------------------ what a stream of lines is made of

  /** White space inside a line. */
  predicate White(b: Octet) { b == 32 || b == 9 || b == 11 || b == 12 || b == 13 }

  ghost predicate Blank(s: Bytes) { forall b :: b in s ==> White(b) }

  /** One line, and with no white space at its ends. */
  ghost predicate Tight(s: Bytes) {
    NEWLINE !in s && (s != [] ==> !White(s[0]) && !White(s[|s| - 1]))
  }

  /** A line of an event stream: one that carries a payload, or any other. */
  datatype Line =
    | Payload(left: Bytes, inner: Bytes, core: Bytes, right: Bytes)
    | Other(left: Bytes, text: Bytes)
  {
    function Text(): Bytes {
      match this
      case Payload(left, inner, core, right) => left + DATA + inner + core + right
      case Other(left, text) => left + text
    }

    /** The payload's margins are white; the other line does not begin with the mark behind its margin. */
    ghost predicate Legal() {
      Blank(left) && match this
        case Payload(_, inner, core, right) => Blank(inner) && Tight(core) && Blank(right)
        case Other(_, text) => NEWLINE !in text && !(DATA <= text) && (text != [] ==> !White(text[0]))
    }
  }

  ghost predicate AllLegal(lines: seq<Line>) { forall l :: l in lines ==> l.Legal() }

  /** The lines as they are sent, the last one with or without its newline. */
  function Wire(lines: seq<Line>, ended: bool): Bytes {
    if lines == [] then []
    else if |lines| == 1 && !ended then lines[0].Text()
    else lines[0].Text() + [NEWLINE] + Wire(lines[1..], ended)
  }

  function Cores(lines: seq<Line>): seq<Bytes> {
    if lines == [] then []
    else (if lines[0].Payload? then [lines[0].core] else []) + Cores(lines[1..])
  }

  /** However the bytes are read as lines, these are the payloads of the lines that carry one, in order. */
  ghost predicate CoresOf(data: Bytes, payloads: seq<Bytes>) {
    forall lines, ended :: AllLegal(lines) && Wire(lines, ended) == data ==> payloads == Cores(lines)
  }

  lemma {:induction false} LeftStripped(left: Bytes, s: Bytes)
    requires Blank(left) && (s != [] ==> !IsSpace(s[0]))
    ensures StripLeft(left + s) == s
  {
    if left == [] {
      assert left + s == s;
    } else {
      assert left[0] in left && (left + s)[1..] == left[1..] + s;
      LeftStripped(left[1..], s);
    }
  }

  lemma {:induction false} RightStripped(s: Bytes, right: Bytes)
    requires Blank(right) && (s != [] ==> !IsSpace(s[|s| - 1]))
    ensures StripRight(s + right) == s
  {
    if right == [] {
      assert s + right == s;
    } else {
      var front := right[..|right| - 1];
      assert right[|right| - 1] in right && (s + right)[..|s + right| - 1] == s + front;
      RightStripped(s, front);
    }
  }

  /** Stripping takes off exactly the margins. */
  lemma MarginsStripped(left: Bytes, core: Bytes, right: Bytes)
    requires Blank(left) && Tight(core) && Blank(right)
    ensures Strip(left + core + right) == core
  {
    if core == [] {
      assert left + core + right == left + right + [];
      LeftStripped(left + right, []);
    } else {
      assert core[0] in core && core[|core| - 1] in core;
      assert left + core + right == left + (core + right);
      LeftStripped(left, core + right);
      RightStripped(core, right);
    }
  }

  lemma EmptyPayload(left: Bytes, blank: Bytes)
    requires Blank(left) && Blank(blank)
    ensures DataOf(left + DATA + blank) == [[]]
  {
    hide Strip;
    MarginsStripped(left, DATA, blank);
    MarginsStripped([], [], []);
    assert DATA[|DATA|..] == [] == [] + [] + [];
  }

  lemma FullPayload(left: Bytes, inner: Bytes, core: Bytes, right: Bytes)
    requires Blank(left) && Blank(inner) && Tight(core) && Blank(right) && core != []
    ensures DataOf(left + (DATA + inner + core) + right) == [core]
  {
    hide Strip;
    var middle := DATA + inner + core;
    assert Tight(middle) && DATA <= middle;
    MarginsStripped(left, middle, right);
    MarginsStripped(inner, core, []);
    assert middle[|DATA|..] == inner + core + [];
  }

  lemma PayloadYields(left: Bytes, inner: Bytes, core: Bytes, right: Bytes)
    requires Payload(left, inner, core, right).Legal()
    ensures DataOf(Payload(left, inner, core, right).Text()) == [core]
  {
    hide DataOf;
    if core == [] {
      EmptyPayload(left, inner + right);
      assert left + DATA + (inner + right) == left + DATA + inner + core + right;
    } else {
      FullPayload(left, inner, core, right);
      assert left + (DATA + inner + core) + right == left + DATA + inner + core + right;
    }
  }

  lemma {:induction false} StripRightPrefix(s: Bytes)
    ensures StripRight(s) <= s
  {
    if s != [] && IsSpace(s[|s| - 1]) { StripRightPrefix(s[..|s| - 1]); }
  }

  lemma OtherYields(left: Bytes, text: Bytes)
    requires Other(left, text).Legal()
    ensures DataOf(Other(left, text).Text()) == []
  {
    assert text != [] ==> text[0] in text;
    LeftStripped(left, text);
    StripRightPrefix(text);
  }

  lemma LineNewlineFree(line: Line)
    requires line.Legal()
    ensures NEWLINE !in line.Text()
  {}

  lemma LineIs(line: Line)
    requires line.Legal()
    ensures DataOf(line.Text()) == if line.Payload? then [line.core] else []
  {
    match line
    case Payload(left, inner, core, right) => PayloadYields(left, inner, core, right);
    case Other(left, text) => OtherYields(left, text);
  }

  lemma {:induction false} LinesYield(lines: seq<Line>, ended: bool)
    requires AllLegal(lines)
    ensures DataLines(Wire(lines, ended)) == Cores(lines)
  {
    hide DataOf;
    hide DataLines;
    hide Line.Text;
    hide Line.Legal;
    if lines == [] {
      NoLine();
    } else {
      var line := lines[0];
      assert line in lines;
      LineIs(line);
      LineNewlineFree(line);
      if |lines| == 1 && !ended {
        LastLine(line.Text());
      } else {
        FirstLine(line.Text(), Wire(lines[1..], ended));
        LinesYield(lines[1..], ended);
      }
    }
  }

  lemma StreamYields(data: Bytes)
    ensures CoresOf(data, DataLines(data))
  {
    forall lines, ended | AllLegal(lines) && Wire(lines, ended) == data ensures DataLines(data) == Cores(lines) {
      LinesYield(lines, ended);
    }
  }

  lemma {:induction false} LeftMargin(s: Bytes) returns (left: Bytes, rest: Bytes)
    requires NEWLINE !in s
    ensures s == left + rest && Blank(left) && (rest != [] ==> !White(rest[0]))
  {
    if s != [] && White(s[0]) {
      left, rest := LeftMargin(s[1..]);
      left := [s[0]] + left;
    } else {
      left, rest := [], s;
    }
  }

  lemma {:induction false} RightMargin(s: Bytes) returns (rest: Bytes, right: Bytes)
    requires NEWLINE !in s
    ensures s == rest + right && Blank(right) && (rest != [] ==> !White(rest[|rest| - 1]))
  {
    if s != [] && White(s[|s| - 1]) {
      rest, right := RightMargin(s[..|s| - 1]);
      right := right + [s[|s| - 1]];
    } else {
      rest, right := s, [];
    }
  }

  lemma LineOf(text: Bytes) returns (line: Line)
    requires NEWLINE !in text
    ensures line.Legal() && line.Text() == text
  {
    var left, rest := LeftMargin(text);
    if DATA <= rest {
      var inner, tail := LeftMargin(rest[|DATA|..]);
      var core, right := RightMargin(tail);
      line := Payload(left, inner, core, right);
      assert text == left + (DATA + (inner + (core + right)));
      assert core != [] ==> core[0] == tail[0];
    } else {
      line := Other(left, rest);
    }
  }

  /** Every byte string is a stream of such lines. */
  lemma {:induction false} EveryStream(data: Bytes) returns (lines: seq<Line>, ended: bool)
    ensures AllLegal(lines) && Wire(lines, ended) == data
    decreases |data|
  {
    hide Line.Text;
    hide Line.Legal;
    var i := LineEnd(data);
    var line := LineOf(data[..i]);
    if i == |data| {
      lines, ended := [line], false;
      assert data[..i] == data;
    } else {
      var rest;
      rest, ended := EveryStream(data[i + 1..]);
      lines := [line] + rest;
      assert data == data[..i] + [NEWLINE] + data[i + 1..];
      if rest == [] { ended := true; }
      assert lines[1..] == rest;
    }
  }

  /** `sse_data`, run to its end; the decoding of a payload as UTF-8 is left to the caller. */
  method SseData(chunks: seq<Bytes>) returns (yielded: seq<Bytes>)
    ensures yielded == DataLines(Joined(chunks))
    ensures CoresOf(Joined(chunks), yielded)
  {
    hide CoresOf;
    hide DataOf;
    hide DataLines;
    hide LineEnd;
    var buffer: Bytes := [];
    yielded := [];
    ghost var all := DataLines(Joined(chunks));
    assert chunks[0..] == chunks && buffer + Joined(chunks) == Joined(chunks) && yielded + all == all;
    for i := 0 to |chunks|
      invariant yielded + DataLines(buffer + Joined(chunks[i..])) == all && NEWLINE !in buffer
    {
      assert chunks[i..][1..] == chunks[i + 1..];
      ghost var tail := Joined(chunks[i + 1..]);
      assert buffer + (chunks[i] + tail) == buffer + chunks[i] + tail;
      buffer := buffer + chunks[i];
      while NEWLINE in buffer
        invariant yielded + DataLines(buffer + tail) == all
        decreases |buffer|
      {
        var end := LineEnd(buffer);
        LineTaken(buffer, tail, end);
        var line := buffer[..end];
        assert yielded + (DataOf(line) + DataLines(buffer[end + 1..] + tail))
            == yielded + DataOf(line) + DataLines(buffer[end + 1..] + tail);
        yielded, buffer := yielded + DataOf(line), buffer[end + 1..];
      }
    }
    assert buffer + [] == buffer;
    LastLine(buffer);
    yielded := yielded + DataOf(buffer);
    StreamYields(Joined(chunks));
  }

  lemma LastLine(buffer: Bytes)
    requires NEWLINE !in buffer
    ensures DataLines(buffer) == DataOf(buffer)
  {
    hide DataOf;
    assert LineEnd(buffer) == |buffer| && buffer[..|buffer|] == buffer;
    assert DataOf(buffer) + [] == DataOf(buffer);
  }

  // ------------------------------------------------------------ sending Server-Sent Events

  function DataLine(payload: Bytes): Bytes { DATA + payload + [NEWLINE] }

  function DataStream(payloads: seq<Bytes>): Bytes {
    if payloads == [] then [] else DataLine(payloads[0]) + DataStream(payloads[1..])
  }

  function Stripped(payloads: seq<Bytes>): seq<Bytes> {
    if payloads == [] then [] else [Strip(payloads[0])] + Stripped(payloads[1..])
  }

  lemma {:induction false} StripRightKeeps(head: Bytes, s: Bytes)
    requires head != [] && !IsSpace(head[|head| - 1])
    ensures StripRight(head + s) == head + StripRight(s)
    decreases |s|
  {
    var all := head + s;
    if s == [] {
      assert all == head;
    } else {
      assert all[|all| - 1] == s[|s| - 1] && all[..|all| - 1] == head + s[..|s| - 1];
      StripRightKeeps(head, s[..|s| - 1]);
    }
  }

  lemma {:induction false} StripLeftRight(s: Bytes)
    ensures Strip(StripRight(s)) == Strip(s)
    decreases |s|
  {
    if s != [] && IsSpace(s[|s| - 1]) {
      StripLeftRight(s[..|s| - 1]);
      DropLast(s);
    }
  }

  lemma {:induction false} DropLast(s: Bytes)
    requires s != [] && IsSpace(s[|s| - 1])
    ensures Strip(s) == Strip(s[..|s| - 1])
  {
    var front := s[..|s| - 1];
    if IsSpace(s[0]) {
      if |s| > 1 {
        DropLast(s[1..]);
        assert s[1..][..|s| - 2] == front[1..];
      }
    }
  }

  lemma LineYields(payload: Bytes)
    ensures DataOf(DATA + payload) == [Strip(payload)]
  {
    var line := DATA + payload;
    assert StripLeft(line) == line;
    hide StripLeft;
    StripRightKeeps(DATA, payload);
    assert Strip(line) == DATA + StripRight(payload);
    assert (DATA + StripRight(payload))[|DATA|..] == StripRight(payload);
    StripLeftRight(payload);
  }

  /** One `data:` line each: the payloads come back in order, stripped at both ends. */
  lemma {:induction false} DataStreamParses(payloads: seq<Bytes>)
    requires forall p :: p in payloads ==> NEWLINE !in p
    ensures DataLines(DataStream(payloads)) == Stripped(payloads)
  {
    hide DataOf;
    hide Strip;
    if payloads == [] {
      NoLine();
    } else {
      var p, rest := payloads[0], DataStream(payloads[1..]);
      assert p in payloads;
      FirstLine(DATA + p, rest);
      LineYields(p);
      DataStreamParses(payloads[1..]);
    }
  }

  lemma NoLine()
    ensures DataLines([]) == []
  {}
}
