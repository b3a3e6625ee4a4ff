/** Little-endian fixed-width integers, booleans and the Option wrapper used by the
    Borsh byte layouts of every record of the matching engine. */
module Borsh {

  type Byte = x: int | 0 <= x < 256

  const U16_LIMIT: int := 0x1_0000
  const U64_LIMIT: int := 0x1_0000_0000_0000_0000
  const U128_LIMIT: int := 0x1_0000_0000_0000_0000_0000_0000_0000_0000
  const I64_MIN: int := -0x8000_0000_0000_0000
  const I64_LIMIT: int := 0x8000_0000_0000_0000

  type U16 = x: int | 0 <= x < U16_LIMIT
  type U64 = x: int | 0 <= x < U64_LIMIT
  type U128 = x: int | 0 <= x < U128_LIMIT
  type I64 = x: int | I64_MIN <= x < I64_LIMIT

  /** A 32-byte public key. */
  type Pubkey = s: seq<Byte> | |s| == 32 witness DefaultKeyBytes()

  function DefaultKeyBytes(): seq<Byte>
  {
    [0, 0, 0, 0, 0, 0, 0, 0, 0, 0, 0, 0, 0, 0, 0, 0, 0, 0, 0, 0, 0, 0, 0, 0, 0, 0, 0, 0, 0, 0, 0, 0]
  }

  /** `Pubkey::default()`: all zero bytes. */
  const DefaultKey: Pubkey := DefaultKeyBytes()

  datatype Option<+T> = None | Some(value: T) {
    predicate IsFailure() { None? }
    function PropagateFailure<U>(): Option<U> requires None? { None }
    function Extract(): T requires Some? { value }
  }

  function Pow256(n: nat): (r: nat)
    ensures r >= 1
  {
    if n == 0 then 1 else 256 * Pow256(n - 1)
  }

  /** Little-endian encoding of `x` in `n` bytes. */
  function EncodeLE(x: nat, n: nat): (r: seq<Byte>)
    requires x < Pow256(n)
    ensures |r| == n
  {
    if n == 0 then [] else [x % 256] + EncodeLE(x / 256, n - 1)
  }

  /** Little-endian value of a byte string. */
  function DecodeLE(s: seq<Byte>): (r: nat)
    ensures r < Pow256(|s|)
  {
    if s == [] then 0 else s[0] + 256 * DecodeLE(s[1..])
  }

  lemma {:induction false} DecodeEncodeLE(x: nat, n: nat)
    requires x < Pow256(n)
    ensures DecodeLE(EncodeLE(x, n)) == x
  {
    if n > 0 {
      var e := EncodeLE(x, n);
      assert e[1..] == EncodeLE(x / 256, n - 1);
      DecodeEncodeLE(x / 256, n - 1);
    }
  }

  lemma {:induction false} EncodeZero(n: nat)
    ensures EncodeLE(0, n) == seq(n, _ => 0)
  {
    if n > 0 {
      EncodeZero(n - 1);
    }
  }

  lemma {:induction false} EncodeDecodeLE(s: seq<Byte>)
    ensures EncodeLE(DecodeLE(s), |s|) == s
  {
    if s != [] {
      EncodeDecodeLE(s[1..]);
      assert DecodeLE(s) % 256 == s[0];
      assert DecodeLE(s) / 256 == DecodeLE(s[1..]);
    }
  }

  lemma Pow256Values()
    ensures Pow256(2) == U16_LIMIT && Pow256(8) == U64_LIMIT && Pow256(16) == U128_LIMIT
  {
    assert Pow256(8) == U64_LIMIT by {
      assert Pow256(4) == 0x1_0000_0000;
    }
    assert Pow256(16) == U128_LIMIT by {
      assert Pow256(12) == 0x1_0000_0000_0000_0000_0000_0000;
    }
  }

  function EncodeU16(x: U16): (r: seq<Byte>)
    ensures |r| == 2
  {
    Pow256Values();
    EncodeLE(x, 2)
  }

  function EncodeU64(x: U64): (r: seq<Byte>)
    ensures |r| == 8
  {
    Pow256Values();
    EncodeLE(x, 8)
  }

  function EncodeU128(x: U128): (r: seq<Byte>)
    ensures |r| == 16
  {
    Pow256Values();
    EncodeLE(x, 16)
  }

  function DecodeU16(s: seq<Byte>): (r: U16)
    requires |s| == 2
  {
    Pow256Values();
    DecodeLE(s)
  }

  function DecodeU64(s: seq<Byte>): (r: U64)
    requires |s| == 8
  {
    Pow256Values();
    DecodeLE(s)
  }

  function DecodeU128(s: seq<Byte>): (r: U128)
    requires |s| == 16
  {
    Pow256Values();
    DecodeLE(s)
  }

  /** Two's-complement bit pattern of a signed 64-bit value. */
  function ToBits64(x: I64): U64
  {
    if x < 0 then x + U64_LIMIT else x
  }

  /** Signed value of a 64-bit pattern; this is also Rust's `u64 as i64`. */
  function FromBits64(u: U64): I64
  {
    if u >= I64_LIMIT then u - U64_LIMIT else u
  }

  function EncodeI64(x: I64): (r: seq<Byte>)
    ensures |r| == 8
  {
    EncodeU64(ToBits64(x))
  }

  function DecodeI64(s: seq<Byte>): I64
    requires |s| == 8
  {
    FromBits64(DecodeU64(s))
  }

  function EncodeBool(b: bool): Byte
  {
    if b then 1 else 0
  }

  /** Borsh accepts only 0 and 1 as a boolean. */
  function DecodeBool(x: Byte): (r: Option<bool>)
    ensures r.Some? <==> x <= 1
    ensures r.Some? ==> EncodeBool(r.value) == x
  {
    if x == 0 then Some(false) else if x == 1 then Some(true) else None
  }

  lemma U16RoundTrip(x: U16)
    ensures DecodeU16(EncodeU16(x)) == x
  {
    Pow256Values();
    DecodeEncodeLE(x, 2);
  }

  lemma U16Canonical(s: seq<Byte>)
    requires |s| == 2
    ensures EncodeU16(DecodeU16(s)) == s
  {
    Pow256Values();
    EncodeDecodeLE(s);
  }

  lemma U64RoundTrip(x: U64)
    ensures DecodeU64(EncodeU64(x)) == x
  {
    Pow256Values();
    DecodeEncodeLE(x, 8);
  }

  lemma U64Canonical(s: seq<Byte>)
    requires |s| == 8
    ensures EncodeU64(DecodeU64(s)) == s
  {
    Pow256Values();
    EncodeDecodeLE(s);
  }

  lemma U128RoundTrip(x: U128)
    ensures DecodeU128(EncodeU128(x)) == x
  {
    Pow256Values();
    DecodeEncodeLE(x, 16);
  }

  lemma U128Canonical(s: seq<Byte>)
    requires |s| == 16
    ensures EncodeU128(DecodeU128(s)) == s
  {
    Pow256Values();
    EncodeDecodeLE(s);
  }

  lemma I64RoundTrip(x: I64)
    ensures DecodeI64(EncodeI64(x)) == x
  {
    U64RoundTrip(ToBits64(x));
  }

  lemma I64Canonical(s: seq<Byte>)
    requires |s| == 8
    ensures EncodeI64(DecodeI64(s)) == s
  {
    U64Canonical(s);
  }

  function Min(a: int, b: int): int
  {
    if a <= b then a else b
  }

  predicate InI64(x: int)
  {
    I64_MIN <= x < I64_LIMIT
  }
}
