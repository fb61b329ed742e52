/** Zigzag varints, on Python's unbounded integers. */
module Varint {
  import opened Octets
  import opened Wrappers

  // ------------------------------------------------------------ Python's integer operators

  function Magnitude(a: int): nat { if a < 0 then -a - 1 else a }

  /** `a ^ b` on integers in infinite two's complement. */
  function IntXor(a: int, b: int): int
    decreases Magnitude(a) + Magnitude(b)
  {
    if Magnitude(a) == 0 && Magnitude(b) == 0 then (if a == b then 0 else -1)
    else 2 * IntXor(a / 2, b / 2) + if a % 2 == b % 2 then 0 else 1
  }

  /** `a | b` on non-negative integers. */
  function IntOr(a: nat, b: nat): nat
    decreases a + b
  {
    if a == 0 && b == 0 then 0
    else 2 * IntOr(a / 2, b / 2) + if a % 2 == 0 && b % 2 == 0 then 0 else 1
  }

  lemma {:induction false} XorMinusOne(a: int)
    ensures IntXor(a, -1) == -a - 1
    decreases Magnitude(a)
  {
    if Magnitude(a) != 0 { XorMinusOne(a / 2); }
  }

  lemma {:induction false} XorZero(a: int)
    ensures IntXor(a, 0) == a
    decreases Magnitude(a)
  {
    if Magnitude(a) != 0 { XorZero(a / 2); }
  }

  lemma {:induction false} XorSign(a: int, b: int)
    ensures IntXor(a, b) >= 0 <==> ((a < 0) == (b < 0))
    decreases Magnitude(a) + Magnitude(b)
  {
    if Magnitude(a) != 0 || Magnitude(b) != 0 { XorSign(a / 2, b / 2); }
  }

  lemma {:induction false} XorCancels(a: int, b: int, c: int)
    requires IntXor(a, b) == IntXor(a, c)
    ensures b == c
    decreases Magnitude(a) + Magnitude(b) + Magnitude(c)
  {
    if Magnitude(a) != 0 || Magnitude(b) != 0 || Magnitude(c) != 0 {
      XorUnfold(a, b);
      XorUnfold(a, c);
      XorCancels(a / 2, b / 2, c / 2);
      assert b % 2 == c % 2;
    }
  }

  /** The recursive equation holds of every pair. */
  lemma XorUnfold(a: int, b: int)
    ensures IntXor(a, b) == 2 * IntXor(a / 2, b / 2) + if a % 2 == b % 2 then 0 else 1
  {}

  /** Below the shift the two operands have no bit in common, so or-ing is adding. */
  lemma {:induction false} OrIsPlus(a: nat, b: nat, shift: nat)
    requires a < Pow2(shift)
    ensures IntOr(a, b * Pow2(shift)) == a + b * Pow2(shift)
    decreases shift
  {
    if shift == 0 {
      OrZero(b);
    } else {
      var half := Pow2(shift - 1);
      assert b * Pow2(shift) == 2 * (b * half);
      OrIsPlus(a / 2, b, shift - 1);
      if a != 0 || b * Pow2(shift) != 0 {
        assert IntOr(a, b * Pow2(shift)) == 2 * IntOr(a / 2, b * half) + if a % 2 == 0 then 0 else 1;
      }
    }
  }

  lemma {:induction false} OrZero(b: nat)
    ensures IntOr(0, b) == b
    decreases b
  {
    if b != 0 { OrZero(b / 2); }
  }

  // ------------------------------------------------------------ encoding

  function Zigzag(v: int): nat {
    XorSign(2 * v, v / 0x8000_0000_0000_0000);
    if v < 0 then IntXor(2 * v, v / 0x8000_0000_0000_0000) else 2 * v
  }

  lemma SignFill(v: int, k: int)
    requires v < 0 && k == v / 0x8000_0000_0000_0000
    ensures k < 0 && (k == -1 <==> v >= -0x8000_0000_0000_0000)
  {}

  /** On 64-bit values zigzag interleaves: 0, -1, 1, -2, 2, ... */
  lemma ZigzagOf(v: int)
    requires v >= -0x8000_0000_0000_0000
    ensures Zigzag(v) == if v >= 0 then 2 * v else -2 * v - 1
  {
    if v < 0 {
      SignFill(v, v / 0x8000_0000_0000_0000);
      XorMinusOne(2 * v);
    }
  }

  /** Base 128, low group first, the high bit set on all but the last byte. */
  function Groups(u: nat): (s: Bytes)
    ensures s != []
  {
    if u < 128 then [u] else [(u % 128 + 128)] + Groups(u / 128)
  }

  /** A number in a record. */
  function Number(v: int): Bytes { Groups(Zigzag(v)) }

  lemma NextGroup(u: nat)
    ensures Groups(u) == if u / 128 != 0 then [(u % 128 + 128)] + Groups(u / 128) else [u % 128]
  {}

  /** `encode_varint`. */
  method EncodeVarint(v: int) returns (out: Bytes)
    ensures out == Number(v)
  {
    hide Groups;
    hide IntXor;
    var unsigned := if v < 0 then IntXor(2 * v, v / 0x8000_0000_0000_0000) else 2 * v;
    assert unsigned == Zigzag(v);
    hide Zigzag;
    out := [];
    while true
      invariant unsigned >= 0 && out + Groups(unsigned) == Groups(Zigzag(v))
      decreases unsigned
    {
      var chunk := unsigned % 128;
      var rest := unsigned / 128;
      NextGroup(unsigned);
      if rest != 0 {
        assert out + ([(chunk + 128)] + Groups(rest)) == out + [(chunk + 128)] + Groups(rest);
        out := out + [(chunk + 128)];
        unsigned := rest;
      } else {
        out := out + [chunk];
        return;
      }
    }
  }

  // ------------------------------------------------------------ decoding

  /** How many groups the shift limit of 63 bits lets through. */
  const GROUPS: nat := 10

  /** The number that at most `groups` groups from `offset` on stand for, and where they end. */
  function ReadGroups(data: Bytes, offset: int, groups: nat): Result<(nat, int), DecodeError>
    decreases groups
  {
    match At(data, offset)
    case None => Failure(OutOfRange)
    case Some(byte) =>
      if byte < 128 then Success((byte, offset + 1))
      else if groups <= 1 then Failure(VarintTooLong)
      else
        match ReadGroups(data, offset + 1, groups - 1)
        case Success(rest) => Success((byte - 128 + 128 * rest.0, rest.1))
        case Failure(e) => Failure(e)
  }

  /** Even numbers stand for 0, 1, 2, ..., odd ones for -1, -2, -3, ... */
  function Unzigzag(u: nat): int { if u % 2 == 0 then u / 2 else -(u / 2) - 1 }

  function DecodedVarint(data: Bytes, offset: int): Result<(int, int), DecodeError> {
    match ReadGroups(data, offset, GROUPS)
    case Success(p) => Success((Unzigzag(p.0), p.1))
    case Failure(e) => Failure(e)
  }

  /** What the loop ends with when `result` is already there and the groups at the cursor are still to come. */
  ghost function Completed(
    result: nat, p: nat, rest: Result<(nat, int), DecodeError>): Result<(nat, int), DecodeError>
  {
    match rest
    case Success(r) => Success((result + p * r.0, r.1))
    case Failure(e) => Failure(e)
  }

  /** One turn of the loop: take in the low seven bits at their place `p`, then stop, give up or go on. */
  lemma DecodeTurn(data: Bytes, offset: int, groups: nat, result: nat, p: nat, byte: Octet, low: nat, next: nat)
    requires At(data, offset) == Some(byte) && 1 <= groups
    requires low == (if byte < 128 then byte else byte - 128) && next == result + low * p
    ensures Completed(result, p, ReadGroups(data, offset, groups))
         == if byte < 128 then Success((next, offset + 1))
            else if groups == 1 then Failure(VarintTooLong)
            else Completed(next, 128 * p, ReadGroups(data, offset + 1, groups - 1))
  {
    if byte < 128 {
      assert low * p == p * low;
    } else if groups > 1 {
      var rest := ReadGroups(data, offset + 1, groups - 1);
      if rest.Success? { Regroup(result, low, rest.value.0, p); }
    }
  }

  lemma DecodeStops(data: Bytes, offset: int, groups: nat, result: nat, p: nat)
    requires At(data, offset).None?
    ensures Completed(result, p, ReadGroups(data, offset, groups)) == Failure(OutOfRange)
  {}

  lemma DecodeStarts(all: Result<(nat, int), DecodeError>)
    ensures all == Completed(0, Pow2(0), all)
  {}

  lemma Regroup(result: nat, low: nat, rest: nat, p: nat)
    ensures result + p * (low + 128 * rest) == result + low * p + 128 * p * rest
  {
    assert p * (128 * rest) == 128 * p * rest;
  }

  lemma Pow2Seven(shift: nat)
    ensures Pow2(shift + 7) == 128 * Pow2(shift)
  {
    assert Pow2(shift + 2) == 4 * Pow2(shift) by { assert Pow2(shift + 1) == 2 * Pow2(shift); }
    assert Pow2(shift + 4) == 4 * Pow2(shift + 2) by { assert Pow2(shift + 3) == 2 * Pow2(shift + 2); }
    assert Pow2(shift + 6) == 4 * Pow2(shift + 4) by { assert Pow2(shift + 5) == 2 * Pow2(shift + 4); }
  }

  lemma Scale(a: nat, b: nat, p: nat)
    requires a <= b
    ensures 0 <= a * p <= b * p
  {}

  /** Or-ing one more group into a partial result adds it at its place. */
  lemma GroupAdds(result: nat, chunk: nat, shift: nat)
    requires result < Pow2(shift) && chunk < 128
    ensures IntOr(result, chunk * Pow2(shift)) == result + chunk * Pow2(shift) < Pow2(shift + 7)
  {
    OrIsPlus(result, chunk, shift);
    Pow2Seven(shift);
    Scale(chunk, 127, Pow2(shift));
  }

  /** `(result >> 1) ^ -(result & 1)`. */
  lemma UnzigzagByXor(u: nat)
    ensures IntXor(u / 2, -(u % 2)) == Unzigzag(u)
  {
    XorZero(u / 2);
    XorMinusOne(u / 2);
  }

  /** `decode_varint`. */
  method DecodeVarint(data: Bytes, start: int) returns (r: Result<(int, int), DecodeError>)
    ensures r == DecodedVarint(data, start)
  {
    hide ReadGroups;
    hide Completed;
    hide IntOr;
    hide IntXor;
    hide Unzigzag;
    hide At;
    hide Pow2;
    var result, shift, offset := 0, 0, start;
    ghost var groups, all := GROUPS, ReadGroups(data, start, GROUPS);
    DecodeStarts(all);
    while true
      invariant 1 <= groups && shift == 70 - 7 * groups && 0 <= result < Pow2(shift)
      invariant all == Completed(result, Pow2(shift), ReadGroups(data, offset, groups))
      decreases groups
    {
      var byte := At(data, offset);
      if byte.None? {
        DecodeStops(data, offset, groups, result, Pow2(shift));
        return Failure(OutOfRange);
      }
      offset := offset + 1;
      GroupAdds(result, byte.value % 128, shift);
      ghost var before := result;
      result := IntOr(result, (byte.value % 128) * Pow2(shift));
      DecodeTurn(data, offset - 1, groups, before, Pow2(shift), byte.value, byte.value % 128, result);
      Pow2Seven(shift);
      if byte.value < 128 {
        break;
      }
      shift := shift + 7;
      if shift > 63 {
        return Failure(VarintTooLong);
      }
      groups := groups - 1;
    }
    UnzigzagByXor(result);
    r := Success((IntXor(result / 2, -(result % 2)), offset));
  }

  // ------------------------------------------------------------ lengths

  function Pow128(k: nat): nat { if k == 0 then 1 else 128 * Pow128(k - 1) }

  lemma {:induction false} Pow128Grows(j: nat, k: nat)
    requires j <= k
    ensures Pow128(j) <= Pow128(k)
    decreases k - j
  {
    if j < k { Pow128Grows(j, k - 1); }
  }

  /** The encoding is as short as base 128 allows. */
  lemma {:induction false} GroupsAreMinimal(u: nat)
    ensures u < Pow128(|Groups(u)|)
    ensures |Groups(u)| == 1 || Pow128(|Groups(u)| - 1) <= u
    decreases u
  {
    if u < 128 {
      assert Pow128(1) == 128 * Pow128(0);
    } else {
      GroupsAreMinimal(u / 128);
      assert |Groups(u)| == 1 + |Groups(u / 128)|;
      if |Groups(u / 128)| == 1 {
        assert Pow128(1) == 128 * Pow128(0);
      }
    }
  }

  /** The number of bytes is the least `k >= 1` for which the zigzag value is below `128^k`. */
  lemma EncodedLength(v: int, k: nat)
    requires k >= 1
    ensures |Number(v)| <= k <==> Zigzag(v) < Pow128(k)
  {
    var u := Zigzag(v);
    GroupsAreMinimal(u);
    if |Groups(u)| <= k {
      Pow128Grows(|Groups(u)|, k);
    } else {
      Pow128Grows(k, |Groups(u)| - 1);
    }
  }

  lemma Pow128Ten()
    ensures Pow128(10) == 0x40_0000_0000_0000_0000
  {
    assert Pow128(5) == 128 * 128 * 128 * 128 * 128 by {
      assert Pow128(3) == 128 * 128 * 128;
    }
    assert Pow128(8) == 128 * 128 * 128 * Pow128(5);
  }

  /** Every 64-bit value fits ten bytes. */
  lemma EncodedLengthBound(v: int)
    requires -0x8000_0000_0000_0000 <= v < 0x8000_0000_0000_0000
    ensures 1 <= |Number(v)| <= 10
  {
    hide Zigzag;
    hide Pow128;
    ZigzagOf(v);
    Pow128Ten();
    EncodedLength(v, 10);
  }

  /** An accepted decode consumes between one byte and ten. */
  lemma {:induction false} AcceptedReadsTenAtMost(data: Bytes, offset: int, groups: nat)
    requires 1 <= groups && ReadGroups(data, offset, groups).Success?
    ensures offset < ReadGroups(data, offset, groups).value.1 <= offset + groups
    decreases groups
  {
    if At(data, offset).value >= 128 {
      AcceptedReadsTenAtMost(data, offset + 1, groups - 1);
    }
  }

  // ------------------------------------------------------------ round trip

  /** Reading the groups of `u`, `groups` of which may still be read, wherever they stand. */
  lemma {:induction false} GroupsDecode(data: Bytes, at: int, u: nat, groups: nat)
    requires 1 <= groups && Holds(data, at, Groups(u))
    ensures ReadGroups(data, at, groups)
         == if u < Pow128(groups) then Success((u, at + |Groups(u)|)) else Failure(VarintTooLong)
    decreases u
  {
    Pow128Unfold(groups);
    HoldsFirst(data, at, u);
    if u >= 128 && groups > 1 {
      GroupsDecode(data, at + 1, u / 128, groups - 1);
    }
  }

  lemma Pow128Unfold(groups: nat)
    requires groups >= 1
    ensures Pow128(groups) == 128 * Pow128(groups - 1)
    ensures 128 <= Pow128(groups)
    ensures groups == 1 ==> Pow128(groups) == 128
  {
    Pow128Grows(0, groups - 1);
  }

  lemma HoldsFirst(data: Bytes, at: int, u: nat)
    requires Holds(data, at, Groups(u))
    ensures 0 <= at < |data| && data[at] == if u < 128 then u else u % 128 + 128
    ensures u < 128 ==> |Groups(u)| == 1
    ensures u >= 128 ==> Holds(data, at + 1, Groups(u / 128)) && |Groups(u)| == 1 + |Groups(u / 128)|
  {
    assert data[at] == data[at..at + |Groups(u)|][0];
    if u >= 128 { HoldsRest(data, at, u); }
  }

  lemma HoldsRest(data: Bytes, at: int, u: nat)
    requires u >= 128 && Holds(data, at, Groups(u))
    ensures Holds(data, at + 1, Groups(u / 128))
  {
    var part, rest := Groups(u), Groups(u / 128);
    assert part[1..] == rest;
    assert data[at + 1..at + 1 + |rest|] == data[at..at + |part|][1..];
  }

  lemma ZigzagHalves(v: int, k: int)
    requires v < 0 && k == v / 0x8000_0000_0000_0000
    ensures Zigzag(v) / 2 == IntXor(v, k / 2)
    ensures Zigzag(v) % 2 == k % 2
  {
    XorUnfold(2 * v, k);
    assert 2 * v / 2 == v && 2 * v % 2 == 0;
  }

  /** With the fill `k` for its sign, a negative value comes back exactly when `k` is -1. */
  lemma UnzigzagNegative(v: int, k: int, u: nat)
    requires v < 0 && k < 0 && u / 2 == IntXor(v, k / 2) && u % 2 == k % 2
    ensures Unzigzag(u) == v <==> k == -1
  {
    XorMinusOne(v);
    if k % 2 == 1 && u / 2 == -v - 1 { XorCancels(v, k / 2, -1); }
  }

  /** Zigzag is undone on every value that is not negative, and below that as far as `v >> 63` is -1. */
  lemma UnzigzagZigzag(v: int)
    ensures Unzigzag(Zigzag(v)) == v <==> v >= -0x8000_0000_0000_0000
  {
    if v >= 0 {
    } else {
      var k := v / 0x8000_0000_0000_0000;
      ZigzagHalves(v, k);
      SignFill(v, k);
      UnzigzagNegative(v, k, Zigzag(v));
    }
  }

  /** Wherever the bytes stand, decoding gives `v` and stops right behind them. */
  ghost predicate ReadsAs(part: Bytes, v: int) {
    forall data, at: int {:trigger Holds(data, at, part)} ::
      Holds(data, at, part) ==> DecodedVarint(data, at) == Success((v, at + |part|))
  }

  lemma GroupsReadAs(u: nat, v: int)
    ensures ReadsAs(Groups(u), v) <==> u < Pow128(GROUPS) && Unzigzag(u) == v
  {
    hide ReadGroups;
    hide Pow128;
    hide Unzigzag;
    var part := Groups(u);
    if u < Pow128(GROUPS) && Unzigzag(u) == v {
      forall data, at: int | Holds(data, at, part)
        ensures DecodedVarint(data, at) == Success((v, at + |part|))
      {
        GroupsDecode(data, at, u, GROUPS);
      }
    } else {
      assert Holds(part, 0, part);
      GroupsDecode(part, 0, u, GROUPS);
    }
  }

  lemma TenGroupsSuffice(v: int)
    requires v >= -0x8000_0000_0000_0000
    ensures Zigzag(v) < Pow128(GROUPS) <==> v < 0x20_0000_0000_0000_0000
  {
    hide Zigzag;
    hide Pow128;
    ZigzagOf(v);
    Pow128Ten();
  }

  /** Exactly the values from -2^63 up to 2^69 come back. */
  lemma VarintRoundTrip(v: int)
    ensures ReadsAs(Number(v), v) <==> -0x8000_0000_0000_0000 <= v < 0x20_0000_0000_0000_0000
  {
    GroupsReadAs(Zigzag(v), v);
    UnzigzagZigzag(v);
    if v >= -0x8000_0000_0000_0000 { TenGroupsSuffice(v); }
  }
}
