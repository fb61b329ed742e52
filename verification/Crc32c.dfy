/** CRC32C: the table-driven loop against the bit-serial Castagnoli register (the polynomial of
    section 12.1 of RFC 3720), and the errors the checksum cannot miss. */
module Crc32c {
  import opened Registers

  /** Bits in a byte. */
  const BITS: nat := 8

  /** One shift of the register. The constant is the Castagnoli polynomial with its bits reversed. */
  function Step(crc: bv32): bv32 {
    (crc >> 1) ^ (if crc & 1 == 1 then 0x82F63B78 else 0)
  }

  function Xor(a: bv32, b: bv32): bv32 { a ^ b }

  function Low(w: bv32): bv32 { w & 1 }

  function Down(w: bv32): bv32 { w >> 1 }

  function Up(w: bv32): bv32 { w << 1 }

  /** The bits of a byte, least significant first. */
  function BitWords(b: bv8): seq<bv32> { Digits(Low, Down, b as bv32, BITS) }

  function MessageBits(data: seq<bv8>): seq<bv32> {
    if data == [] then [] else BitWords(data[0]) + MessageBits(data[1..])
  }

  /** The register after the message has been fed in bit by bit. */
  function Register(crc: bv32, data: seq<bv8>): bv32 {
    Feed(Step, Xor, crc, MessageBits(data))
  }

  /** The checksum by definition: register preset to ones, all message bits, complemented. */
  function Crc(data: seq<bv8>): bv32 {
    Register(0xFFFFFFFF, data) ^ 0xFFFFFFFF
  }

  // ------------------------------------------------------------ the register's laws

  lemma ShiftXor(a: bv32, b: bv32)
    ensures (a ^ b) >> 1 == (a >> 1) ^ (b >> 1)
    ensures (a ^ b) & 1 == (a & 1) ^ (b & 1)
    ensures (a & 1 == 0 || a & 1 == 1) && (b & 1 == 0 || b & 1 == 1)
  {}

  lemma XorLaws(p: bv32, q: bv32, m: bv32)
    ensures (p ^ m) ^ q == (p ^ q) ^ m && p ^ (q ^ m) == (p ^ q) ^ m && (p ^ m) ^ (q ^ m) == p ^ q
    ensures p ^ 0 == p && p ^ p == 0
  {}

  lemma StepXor(a: bv32, b: bv32)
    ensures Step(a ^ b) == Step(a) ^ Step(b)
  {
    ShiftXor(a, b);
    XorLaws(a >> 1, b >> 1, 0x82F63B78);
    XorLaws(a >> 1, b >> 1, 0);
  }

  /** The reversed polynomial has its top bit set, so no shift loses information. */
  lemma StepInjective(a: bv32, b: bv32)
    requires Step(a) == Step(b)
    ensures a == b
  {}

  lemma LowBit(w: bv32)
    ensures w == Xor(Low(w), Up(Down(w)))
    ensures Step(Up(Down(w))) == Down(w)
  {}

  lemma XorIsExclusive()
    ensures ExclusiveOr(Xor, 0)
  {
    forall a, b, c ensures Xor(Xor(a, b), c) == Xor(a, Xor(b, c)) { XorLaws(a, b, c); }
    forall a ensures Xor(a, 0) == a && Xor(a, a) == 0 { XorLaws(a, a, a); }
  }

  lemma StepIsAdditive()
    ensures Additive(Step, Xor)
  {
    forall a, b ensures Step(Xor(a, b)) == Xor(Step(a), Step(b)) { StepXor(a, b); }
  }

  lemma StepIsInjective()
    ensures Injective(Step)
  {
    forall a, b | Step(a) == Step(b) ensures a == b { StepInjective(a, b); }
  }

  lemma WordsSplit()
    ensures Splits(Step, Xor, Low, Down, Up)
  {
    forall w ensures w == Xor(Low(w), Up(Down(w))) { LowBit(w); }
    forall w ensures Step(Up(Down(w))) == Down(w) { LowBit(w); }
  }

  // ------------------------------------------------------------ a byte at a time

  lemma ByteFits(b: bv8)
    ensures Iterate(Down, BITS, b as bv32) == 0
  {
    Iterate8(Down, BITS, b as bv32);
  }

  /** Feeding a byte's bits one by one is adding the byte and shifting eight times. */
  lemma FeedByte(crc: bv32, b: bv8, w: bv32, x: bv32)
    requires w == b as bv32 && x == Xor(crc, w)
    ensures Feed(Step, Xor, crc, BitWords(b)) == Iterate(Step, BITS, x)
  {
    ByteFits(b);
    FeedWord(crc, w, x);
  }

  lemma FeedWord(crc: bv32, w: bv32, x: bv32)
    requires Iterate(Down, BITS, w) == 0 && x == Xor(crc, w)
    ensures Feed(Step, Xor, crc, Digits(Low, Down, w, BITS)) == Iterate(Step, BITS, x)
  {
    XorIsExclusive();
    StepIsAdditive();
    WordsSplit();
    FeedDigits(Step, Xor, 0, Low, Down, Up, crc, w, BITS);
  }

  lemma ShiftOut(w: bv32)
    requires w & 0xFF == 0
    ensures Iterate(Step, BITS, w) == w >> 8
  {
    Iterate8(Step, BITS, w);
  }

  /** A register value in two parts: eight shifts drop the upper one down by a byte. */
  lemma LowAndHigh(x: bv32, low: bv32, out: bv32) returns (high: bv32)
    requires low == x & 0xFF && out == x >> 8
    ensures x == Xor(low, high) && Iterate(Step, BITS, high) == out
  {
    high := x & 0xFFFFFF00;
    PartsOf(x);
    ShiftOut(high);
  }

  lemma PartsOf(x: bv32)
    ensures x == Xor(x & 0xFF, x & 0xFFFFFF00) && (x & 0xFFFFFF00) & 0xFF == 0 && (x & 0xFFFFFF00) >> 8 == x >> 8
  {}

  lemma Parts(n: nat, x: bv32, a: bv32, b: bv32, out: bv32)
    requires x == Xor(a, b) && Iterate(Step, n, b) == out
    ensures Iterate(Step, n, x) == Xor(Iterate(Step, n, a), out)
  {
    StepIsAdditive();
    IterateParts(Step, Xor, n, x, a, b, out);
  }

  lemma EightSteps(x: bv32, low: bv32, out: bv32)
    requires low == x & 0xFF && out == x >> 8
    ensures Iterate(Step, BITS, x) == Xor(Iterate(Step, BITS, low), out)
  {
    var high := LowAndHigh(x, low, out);
    Parts(BITS, x, low, high, out);
  }

  lemma UpperPart(crc: bv32, b: bv8, w: bv32, x: bv32, high: bv32)
    requires w == b as bv32 && x == Xor(crc, w) && high == crc >> 8
    ensures high == x >> 8
  {}

  /** One turn of the table-driven loop is the register fed with one byte. */
  lemma TableTurn(crc: bv32, b: bv8, w: bv32, x: bv32, low: bv32, high: bv32)
    requires w == b as bv32 && x == Xor(crc, w) && low == x & 0xFF && high == crc >> 8
    ensures Feed(Step, Xor, crc, BitWords(b)) == Xor(Iterate(Step, BITS, low), high)
  {
    UpperPart(crc, b, w, x, high);
    FeedByte(crc, b, w, x);
    EightSteps(x, low, high);
  }

  // ------------------------------------------------------------ the table-driven loop

  function Entry(i: int): bv32
    requires 0 <= i < 256
  {
    (i as bv8) as bv32
  }

  ghost predicate IsTable(table: seq<bv32>) {
    |table| == 256 && forall i :: 0 <= i < 256 ==> table[i] == Iterate(Step, BITS, Entry(i))
  }

  /** One turn of the inner loop. */
  lemma ShiftOnce(n: nat, crc: bv32)
    requires n > 0
    ensures Iterate(Step, n, crc) == Iterate(Step, n - 1, (crc >> 1) ^ (if crc & 1 == 1 then 0x82F63B78 else 0))
  {}

  lemma NoShift(crc: bv32)
    ensures Iterate(Step, 0, crc) == crc
  {}

  method BuildTable() returns (table: seq<bv32>)
    ensures IsTable(table)
  {
    hide Iterate;
    table := [];
    for index := 0 to 256
      invariant |table| == index
      invariant forall i :: 0 <= i < index ==> table[i] == Iterate(Step, BITS, Entry(i))
    {
      var crc := Entry(index);
      for bit := 0 to BITS
        invariant Iterate(Step, BITS - bit, crc) == Iterate(Step, BITS, Entry(index))
      {
        ShiftOnce(BITS - bit, crc);
        crc := (crc >> 1) ^ (if crc & 1 == 1 then 0x82F63B78 else 0);
      }
      NoShift(crc);
      table := table + [crc];
    }
  }

  lemma ByteIndex(byte: bv8)
    ensures 0 <= byte as int < 256 && (byte as int) as bv8 == byte
  {}

  lemma LowByte(low: bv32, byte: bv8)
    requires low & 0xFF == low && byte == (low & 0xFF) as bv8
    ensures low == byte as bv32
  {}

  lemma EntryOf(i: int, byte: bv8, low: bv32)
    requires 0 <= i < 256 && i as bv8 == byte && low == byte as bv32
    ensures Entry(i) == low
  {}

  lemma TableEntry(table: seq<bv32>, i: int, low: bv32)
    requires IsTable(table) && 0 <= i < 256 && Entry(i) == low
    ensures table[i] == Iterate(Step, BITS, low)
  {}

  lemma {:induction false} MessageBitsAppend(a: seq<bv8>, b: seq<bv8>)
    ensures MessageBits(a + b) == MessageBits(a) + MessageBits(b)
  {
    if a == [] {
      assert a + b == b;
    } else {
      assert (a + b)[0] == a[0] && (a + b)[1..] == a[1..] + b;
      MessageBitsAppend(a[1..], b);
    }
  }

  lemma RegisterAppend(crc: bv32, a: seq<bv8>, b: seq<bv8>)
    ensures Register(crc, a + b) == Register(Register(crc, a), b)
  {
    MessageBitsAppend(a, b);
    FeedAppend(Step, Xor, crc, MessageBits(a), MessageBits(b));
  }

  lemma RegisterByte(crc: bv32, b: bv8)
    ensures Register(crc, [b]) == Feed(Step, Xor, crc, BitWords(b))
  {
    assert MessageBits([b]) == BitWords(b);
  }

  /** `crc32c`: a byte at a time through the table is the register fed bit by bit. */
  method Checksum(table: seq<bv32>, data: seq<bv8>) returns (checksum: bv32)
    requires IsTable(table)
    ensures checksum == Crc(data)
  {
    var crc: bv32 := 0xFFFFFFFF;
    for k := 0 to |data|
      invariant crc == Register(0xFFFFFFFF, data[..k])
    {
      crc := Turn(table, crc, data[k]);
      RegisterAppend(0xFFFFFFFF, data[..k], [data[k]]);
      assert data[..k + 1] == data[..k] + [data[k]];
    }
    assert data[..|data|] == data;
    checksum := crc ^ 0xFFFFFFFF;
  }

  lemma Masked(x: bv32, low: bv32)
    requires low == x & 0xFF
    ensures low & 0xFF == low
  {}

  method Turn(table: seq<bv32>, crc: bv32, b: bv8) returns (next: bv32)
    requires IsTable(table)
    ensures next == Register(crc, [b])
  {
    var w, x, low, byte, high := Mix(crc, b);
    var i := byte as int;
    ByteIndex(byte);
    EntryOf(i, byte, low);
    TableEntry(table, i, low);
    TableTurn(crc, b, w, x, low, high);
    RegisterByte(crc, b);
    next := Xor(table[i], high);
  }

  /** The parts of one turn: the index into the table, and what is kept of the register. */
  method Mix(crc: bv32, b: bv8) returns (w: bv32, x: bv32, low: bv32, byte: bv8, high: bv32)
    ensures w == b as bv32 && x == Xor(crc, w) && low == x & 0xFF && low == byte as bv32 && high == crc >> 8
  {
    w := b as bv32;
    x := crc ^ w;
    low, high := x & 0xFF, crc >> 8;
    Masked(x, low);
    byte := (low & 0xFF) as bv8;
    LowByte(low, byte);
  }

  // ------------------------------------------------------------ errors that cannot be missed

  /** Up to four bytes as a register value, the first one lowest. */
  function Word(bs: seq<bv8>): bv32 {
    if bs == [] then 0 else Xor(bs[0] as bv32, OneByteUp(Word(bs[1..])))
  }

  function OneByteUp(w: bv32): bv32 { w << 8 }

  lemma Room1(w: bv32, rest: bv32)
    requires w & 0xFFFFFF00 == 0 && rest == 0
    ensures Xor(w, OneByteUp(rest)) & 0xFFFFFF00 == 0
  {}

  lemma Room2(w: bv32, rest: bv32)
    requires w & 0xFFFFFF00 == 0 && rest & 0xFFFFFF00 == 0
    ensures Xor(w, OneByteUp(rest)) & 0xFFFF0000 == 0
  {}

  lemma Room3(w: bv32, rest: bv32)
    requires w & 0xFFFFFF00 == 0 && rest & 0xFFFF0000 == 0
    ensures Xor(w, OneByteUp(rest)) & 0xFF000000 == 0
  {}

  lemma ByteRoom(b: bv8)
    ensures (b as bv32) & 0xFFFFFF00 == 0
  {}

  lemma WordFits1(bs: seq<bv8>)
    requires |bs| <= 1
    ensures Word(bs) & 0xFFFFFF00 == 0
  {
    hide Xor;
    hide OneByteUp;
    if bs != [] {
      ByteRoom(bs[0]);
      Room1(bs[0] as bv32, Word(bs[1..]));
    }
  }

  lemma WordFits2(bs: seq<bv8>)
    requires |bs| <= 2
    ensures Word(bs) & 0xFFFF0000 == 0
  {
    hide Xor;
    hide OneByteUp;
    if bs != [] {
      ByteRoom(bs[0]);
      WordFits1(bs[1..]);
      Room2(bs[0] as bv32, Word(bs[1..]));
    }
  }

  /** Three bytes leave the top byte of the word free. */
  lemma WordFits(bs: seq<bv8>)
    requires |bs| <= 3
    ensures Word(bs) & 0xFF000000 == 0
  {
    hide Xor;
    hide OneByteUp;
    if bs != [] {
      ByteRoom(bs[0]);
      WordFits2(bs[1..]);
      Room3(bs[0] as bv32, Word(bs[1..]));
    }
  }

  lemma Lifted(rest: bv32, u: bv32)
    requires rest & 0xFF000000 == 0 && u == OneByteUp(rest)
    ensures u & 0xFF == 0 && u >> 8 == rest
  {}

  /** The first byte and the rest of a window's word; eight shifts bring the rest down. */
  lemma WordParts(bs: seq<bv8>) returns (w: bv32, u: bv32, rest: bv32)
    requires 0 < |bs| <= 4
    ensures w == bs[0] as bv32 && rest == Word(bs[1..]) && Word(bs) == Xor(w, u) && Iterate(Step, BITS, u) == rest
  {
    hide Xor;
    hide OneByteUp;
    w, rest := bs[0] as bv32, Word(bs[1..]);
    u := OneByteUp(rest);
    WordFits(bs[1..]);
    Lifted(rest, u);
    ShiftOut(u);
  }

  /** Feeding up to four bytes is adding their word and shifting. */
  lemma {:induction false} WindowIsWord(crc: bv32, bs: seq<bv8>, word: bv32, x: bv32)
    requires |bs| <= 4 && word == Word(bs) && x == Xor(crc, word)
    ensures Register(crc, bs) == Iterate(Step, BITS * |bs|, x)
    decreases bs
  {
    if bs == [] {
      XorLaws(crc, crc, crc);
    } else {
      var w, u, rest := WordParts(bs);
      var after := Feed(Step, Xor, crc, BitWords(bs[0]));
      FeedAppend(Step, Xor, crc, BitWords(bs[0]), MessageBits(bs[1..]));
      WindowIsWord(after, bs[1..], rest, Xor(after, rest));
      FeedByte(crc, bs[0], w, Xor(crc, w));
      Preloaded(BITS, BITS * |bs[1..]|, crc, w, u, rest);
    }
  }

  lemma Preloaded(n: nat, m: nat, crc: bv32, w: bv32, u: bv32, rest: bv32)
    requires Iterate(Step, n, u) == rest
    ensures Iterate(Step, m, Xor(Iterate(Step, n, Xor(crc, w)), rest)) == Iterate(Step, n + m, Xor(crc, Xor(w, u)))
  {
    XorIsExclusive();
    StepIsAdditive();
    Preload(Step, Xor, 0, n, m, crc, w, u);
  }

  lemma SplitWord(w: bv32, w': bv32, rest: bv32, rest': bv32, word: bv32)
    requires w & 0xFFFFFF00 == 0 && w' & 0xFFFFFF00 == 0
    requires rest & 0xFF000000 == 0 && rest' & 0xFF000000 == 0
    requires word == Xor(w, OneByteUp(rest)) && word == Xor(w', OneByteUp(rest'))
    ensures w == w' && rest == rest'
  {}

  lemma SameByte(b: bv8, b': bv8)
    requires b as bv32 == b' as bv32
    ensures b == b'
  {}

  lemma FirstByte(bs: seq<bv8>, w: bv32, rest: bv32, word: bv32)
    requires 0 < |bs| <= 4 && w == bs[0] as bv32 && rest == Word(bs[1..]) && word == Word(bs)
    ensures word == Xor(w, OneByteUp(rest))
  {
    hide Xor;
    hide OneByteUp;
  }

  lemma FirstByteRoom(bs: seq<bv8>, w: bv32)
    requires 0 < |bs| && w == bs[0] as bv32
    ensures w & 0xFFFFFF00 == 0
  {
    ByteRoom(bs[0]);
  }

  lemma {:induction false} WordInjective(bs: seq<bv8>, bs': seq<bv8>, word: bv32)
    requires |bs| == |bs'| <= 4 && Word(bs) == word && Word(bs') == word
    ensures bs == bs'
  {
    hide Xor;
    hide OneByteUp;
    if bs != [] {
      var w, rest, w', rest' := bs[0] as bv32, Word(bs[1..]), bs'[0] as bv32, Word(bs'[1..]);
      FirstByte(bs, w, rest, word);
      FirstByte(bs', w', rest', word);
      FirstByteRoom(bs, w);
      FirstByteRoom(bs', w');
      WordFits(bs[1..]);
      WordFits(bs'[1..]);
      SplitWord(w, w', rest, rest', word);
      SameByte(bs[0], bs'[0]);
      WordInjective(bs[1..], bs'[1..], rest);
      assert bs == [bs[0]] + bs[1..] && bs' == [bs'[0]] + bs'[1..];
    }
  }

  lemma WindowInjective(crc: bv32, bs: seq<bv8>, bs': seq<bv8>)
    requires |bs| == |bs'| <= 4 && Register(crc, bs) == Register(crc, bs')
    ensures bs == bs'
  {
    var word, word' := Word(bs), Word(bs');
    WindowIsWord(crc, bs, word, Xor(crc, word));
    WindowIsWord(crc, bs', word', Xor(crc, word'));
    StepIsInjective();
    IterateInjective(Step, BITS * |bs|, Xor(crc, word), Xor(crc, word'));
    SameOperand(crc, word, word');
    WordInjective(bs, bs', word);
  }

  lemma SameOperand(crc: bv32, word: bv32, word': bv32)
    requires Xor(crc, word) == Xor(crc, word')
    ensures word == word'
  {}

  lemma SuffixInjective(x: bv32, y: bv32, data: seq<bv8>)
    requires Register(x, data) == Register(y, data)
    ensures x == y
  {
    XorIsExclusive();
    StepIsInjective();
    FeedInjective(Step, Xor, 0, x, y, MessageBits(data));
  }

  lemma Complement(x: bv32, y: bv32, init: bv32)
    requires x ^ init == y ^ init
    ensures x == y
  {}

  /** One start value, a common head and tail: only the middle can tell two registers apart. */
  lemma MiddleDecides(init: bv32, head: seq<bv8>, m: seq<bv8>, m': seq<bv8>, tail: seq<bv8>)
    requires |m| == |m'| <= 4 && Register(init, head + m + tail) == Register(init, head + m' + tail)
    ensures m == m'
  {
    var crc := Register(init, head);
    RegisterAppend(init, head + m, tail);
    RegisterAppend(init, head + m', tail);
    RegisterAppend(init, head, m);
    RegisterAppend(init, head, m');
    SuffixInjective(Register(crc, m), Register(crc, m'), tail);
    WindowInjective(crc, m, m');
  }

  lemma CrcOf(data: seq<bv8>, init: bv32, x: bv32, crc: bv32)
    requires init == 0xFFFFFFFF && x == Register(init, data) && crc == Crc(data)
    ensures crc == x ^ init
  {}

  lemma SameRegisters(a: seq<bv8>, b: seq<bv8>, init: bv32, x: bv32, y: bv32, crc: bv32)
    requires init == 0xFFFFFFFF && x == Register(init, a) && y == Register(init, b) && crc == Crc(a) && crc == Crc(b)
    ensures x == y
  {
    CrcOf(a, init, x, crc);
    CrcOf(b, init, y, crc);
    Complement(x, y, init);
  }

  /** Two different messages of the same length that differ only inside four consecutive bytes
      never have the same checksum. */
  lemma BurstDetected(a: seq<bv8>, b: seq<bv8>, from: nat)
    requires |a| == |b| && a != b
    requires forall j :: 0 <= j < |a| && !(from <= j < from + 4) ==> a[j] == b[j]
    ensures Crc(a) != Crc(b)
  {
    var i := if from <= |a| then from else |a|;
    var k := if from + 4 <= |a| then from + 4 else |a|;
    var head, tail := a[..i], a[k..];
    assert a == head + a[i..k] + tail && b == head + b[i..k] + tail;
    var init: bv32 := 0xFFFFFFFF;
    if Crc(a) == Crc(b) {
      SameRegisters(a, b, init, Register(init, a), Register(init, b), Crc(a));
      MiddleDecides(init, head, a[i..k], b[i..k], tail);
    }
  }

  // ------------------------------------------------------------ the standard check value

  lemma FourShifts(x: bv32, a: bv32, b: bv32, c: bv32, d: bv32)
    requires Step(x) == a && Step(a) == b && Step(b) == c && Step(c) == d
    ensures Iterate(Step, 4, x) == d
  {
    hide Step;
  }

  lemma ByteFed(crc: bv32, byte: bv8, x: bv32, half: bv32, out: bv32)
    requires x == crc ^ (byte as bv32) && Iterate(Step, 4, x) == half && Iterate(Step, 4, half) == out
    ensures Register(crc, [byte]) == out
  {
    hide Step;
    IterateAdd(Step, 4, 4, x);
    RegisterByte(crc, byte);
    FeedByte(crc, byte, byte as bv32, x);
  }

  /** One byte of a text, and the eight shifts that follow it. */
  lemma ByteTurn(text: seq<bv8>, k: nat, crc: bv32, x: bv32, a: bv32, b: bv32, c: bv32, d: bv32,
                 e: bv32, f: bv32, g: bv32, h: bv32)
    requires k < |text| && Register(0xFFFFFFFF, text[..k]) == crc && x == crc ^ (text[k] as bv32)
    requires Step(x) == a && Step(a) == b && Step(b) == c && Step(c) == d
    requires Step(d) == e && Step(e) == f && Step(f) == g && Step(g) == h
    ensures Register(0xFFFFFFFF, text[..k + 1]) == h
  {
    hide Step;
    hide Register;
    FourShifts(x, a, b, c, d);
    FourShifts(d, e, f, g, h);
    ByteFed(crc, text[k], x, d, h);
    RegisterAppend(0xFFFFFFFF, text[..k], [text[k]]);
    assert text[..k + 1] == text[..k] + [text[k]];
  }

  const NINE_DIGITS: seq<bv8> := [0x31, 0x32, 0x33, 0x34, 0x35, 0x36, 0x37, 0x38, 0x39]

  lemma FirstThree()
    ensures Register(0xFFFFFFFF, NINE_DIGITS[..3]) == 0xEF84D04D
  {
    var text := NINE_DIGITS;
    assert text[..0] == [] && Register(0xFFFFFFFF, []) == 0xFFFFFFFF;
    hide Register;
    ByteTurn(text, 0, 0xFFFFFFFF, 0xFFFFFFCE, 0x7FFFFFE7, 0xBD09C48B, 0xDC72D93D, 0xECCF57E6,
             0x7667ABF3, 0xB9C5EE81, 0xDE14CC38, 0x6F0A661C);
    ByteTurn(text, 1, 0x6F0A661C, 0x6F0A662E, 0x37853317, 0x9934A2F3, 0xCE6C6A01, 0xE5C00E78,
             0x72E0073C, 0x3970039E, 0x1CB801CF, 0x8CAA3B9F);
    ByteTurn(text, 2, 0x8CAA3B9F, 0x8CAA3BAC, 0x46551DD6, 0x232A8EEB, 0x93637C0D, 0xCB47857E,
             0x65A3C2BF, 0xB027DA27, 0xDAE5D66B, 0xEF84D04D);
  }

  lemma NextThree()
    requires Register(0xFFFFFFFF, NINE_DIGITS[..3]) == 0xEF84D04D
    ensures Register(0xFFFFFFFF, NINE_DIGITS[..6]) == 0xBECA8E79
  {
    var text := NINE_DIGITS;
    hide Register;
    ByteTurn(text, 3, 0xEF84D04D, 0xEF84D079, 0xF5345344, 0x7A9A29A2, 0x3D4D14D1, 0x9C50B110,
             0x4E285888, 0x27142C44, 0x138A1622, 0x09C50B11);
    ByteTurn(text, 4, 0x09C50B11, 0x09C50B24, 0x04E28592, 0x027142C9, 0x83CE9A1C, 0x41E74D0E,
             0x20F3A687, 0x928FE83B, 0xCBB1CF65, 0xE72EDCCA);
    ByteTurn(text, 5, 0xE72EDCCA, 0xE72EDCFC, 0x73976E7E, 0x39CBB73F, 0x9E13E0E7, 0xCDFFCB0B,
             0xE409DEFD, 0xF0F2D406, 0x78796A03, 0xBECA8E79);
  }

  lemma LastThree()
    requires Register(0xFFFFFFFF, NINE_DIGITS[..6]) == 0xBECA8E79
    ensures Register(0xFFFFFFFF, NINE_DIGITS[..9]) == 0x1CF96D7C
  {
    var text := NINE_DIGITS;
    hide Register;
    ByteTurn(text, 6, 0xBECA8E79, 0xBECA8E4E, 0x5F654727, 0xAD4498EB, 0xD454770D, 0xE8DC00FE,
             0x746E007F, 0xB8C13B47, 0xDE96A6DB, 0xEDBD6815);
    ByteTurn(text, 7, 0xEDBD6815, 0xEDBD682D, 0xF4288F6E, 0x7A1447B7, 0xBFFC18A3, 0xDD083729,
             0xEC7220EC, 0x76391076, 0x3B1C883B, 0x9F787F65);
    ByteTurn(text, 8, 0x9F787F65, 0x9F787F5C, 0x4FBC3FAE, 0x27DE1FD7, 0x91193493, 0xCA7AA131,
             0xE7CB6BE0, 0x73E5B5F0, 0x39F2DAF8, 0x1CF96D7C);
  }

  /** The check value of CRC-32C: the checksum of the digits 1 to 9 as ASCII text. */
  lemma CheckValue()
    ensures Crc(NINE_DIGITS) == 0xE3069283 && Crc([]) == 0
  {
    assert Register(0xFFFFFFFF, []) == 0xFFFFFFFF;
    hide Register;
    FirstThree();
    NextThree();
    LastThree();
    assert NINE_DIGITS[..9] == NINE_DIGITS;
  }
}
