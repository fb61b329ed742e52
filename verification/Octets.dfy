/** Python's `bytes`: indexing, slicing, and the big-endian fields that `struct` packs. */
module Octets {
  import opened Wrappers

  type Octet = x: int | 0 <= x < 256
  type Bytes = seq<Octet>

  lemma OctetAsByte(x: int)
    requires 0 <= x < 256
    ensures (x as bv8) as int == x % 256
  {}

  /** What can go wrong while reading: an IndexError, an overlong varint, `struct` given too few
      bytes, and the three complaints of the batch decoder. */
  datatype DecodeError = OutOfRange | VarintTooLong | ShortField | BadMagic(magic: int) | BadChecksum | NotText

  /** `data[i]`, where a negative index counts from the end; `None` is an IndexError. */
  function At(data: Bytes, i: int): Option<Octet> {
    if 0 <= i < |data| then Some(data[i])
    else if -|data| <= i < 0 then Some(data[|data| + i])
    else None
  }

  /** Where one end of a slice falls: negative counts from the end, and the result is clamped. */
  function Clamp(i: int, length: nat): nat {
    var j := if i < 0 then i + length else i;
    if j < 0 then 0 else if j > length then length else j
  }

  /** `data[lo:hi]`. */
  function Slice(data: Bytes, lo: int, hi: int): Bytes {
    var a, b := Clamp(lo, |data|), Clamp(hi, |data|);
    if a <= b <= |data| then data[a..b] else []
  }

  /** Inside the data, counting from the end means the same as counting from the front; behind it there is nothing. */
  lemma CountedFromEnd(data: Bytes, i: nat, j: nat, k: nat)
    requires i <= j < |data| <= k
    ensures At(data, i) == At(data, i - |data|) == Some(data[i]) && At(data, k) == At(data, -1 - k) == None
    ensures Slice(data, i, j) == Slice(data, i - |data|, j - |data|) == data[i..j] && Slice(data, i, k) == data[i..]
    ensures Slice(data, -1 - k, j) == data[..j] && Slice(data, j, i) == []
  {}

  function Pow2(n: nat): nat
    ensures Pow2(n) > 0
  {
    if n == 0 then 1 else 2 * Pow2(n - 1)
  }

  // ------------------------------------------------------------ a part standing somewhere in the data

  ghost predicate Holds(data: Bytes, at: int, part: Bytes) {
    0 <= at <= at + |part| <= |data| && data[at..at + |part|] == part
  }

  lemma HoldsBoth(data: Bytes, at: int, a: Bytes, b: Bytes)
    ensures Holds(data, at, a + b) <==> Holds(data, at, a) && Holds(data, at + |a|, b)
  {
    if 0 <= at <= at + |a| + |b| <= |data| {
      var whole := data[at..at + |a + b|];
      assert whole[..|a|] == data[at..at + |a|] && whole[|a|..] == data[at + |a|..at + |a| + |b|];
      assert (a + b)[..|a|] == a && (a + b)[|a|..] == b;
      assert whole == whole[..|a|] + whole[|a|..];
    }
  }

  lemma HoldsSlice(data: Bytes, at: int, part: Bytes)
    requires Holds(data, at, part)
    ensures Slice(data, at, at + |part|) == part
  {}

  lemma HoldsIn(before: Bytes, part: Bytes, after: Bytes)
    ensures Holds(before + part + after, |before|, part)
  {}

  // ------------------------------------------------------------ big-endian fields

  /** The widths of `struct`'s `h`, `i` and `q`. */
  const SHORT: nat := 2
  const WORD: nat := 4
  const LONG: nat := 8

  function Pow256(n: nat): (p: nat)
    ensures p > 0
  {
    if n == 0 then 1 else 256 * Pow256(n - 1)
  }

  /** The low `n` bytes of a number, most significant first. */
  function BigEndian(u: nat, n: nat): (s: Bytes)
    ensures |s| == n
  {
    if n == 0 then [] else BigEndian(u / 256, n - 1) + [u % 256]
  }

  function Unsigned(s: Bytes): nat {
    if s == [] then 0 else 256 * Unsigned(s[..|s| - 1]) + s[|s| - 1]
  }

  /** What fits a signed field of `n` bytes; anything else makes `struct.pack` raise. */
  predicate InField(v: int, n: nat) { 0 <= 2 * v + Pow256(n) < 2 * Pow256(n) }

  /** A signed field in two's complement. */
  function Packed(v: int, n: nat): (s: Bytes)
    ensures |s| == n
  {
    BigEndian(v % Pow256(n), n)
  }

  function Signed(s: Bytes): int {
    var u := Unsigned(s);
    if 2 * u >= Pow256(|s|) then u - Pow256(|s|) else u
  }

  lemma {:induction false} BigEndianRead(u: nat, n: nat)
    requires u < Pow256(n)
    ensures Unsigned(BigEndian(u, n)) == u
    decreases n
  {
    if n > 0 {
      var high := BigEndian(u / 256, n - 1);
      assert BigEndian(u, n)[..n - 1] == high;
      BigEndianRead(u / 256, n - 1);
    }
  }

  lemma Wraps(v: int, p: nat)
    requires p > 0 && 0 <= 2 * v + p < 2 * p
    ensures v % p == if v < 0 then v + p else v
  {
    if v < 0 {
      assert (v + p) % p == v + p;
      assert v == (-1) * p + (v + p);
    }
  }

  /** A number inside the field's range survives packing and unpacking. */
  lemma FieldRead(v: int, n: nat)
    requires InField(v, n)
    ensures Signed(Packed(v, n)) == v
  {
    Wraps(v, Pow256(n));
    BigEndianRead(v % Pow256(n), n);
  }
}
