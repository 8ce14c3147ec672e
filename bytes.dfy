/**
 * Byte-level primitives the codec relies on: the Go integer widths, the
 * big- and little-endian reads of encoding/binary, bitwise XOR of bytes and
 * the byte form of ASCII string literals.
 */
module Bytes {

  type byte = x: int | 0 <= x < 0x100
  type u16 = x: int | 0 <= x < 0x1_0000
  type u32 = x: int | 0 <= x < 0x1_0000_0000

  /** Go's `uint16(n)` conversion of a non-negative int: wraps modulo 2^16. */
  function ToU16(n: nat): (r: u16)
    ensures n < 0x1_0000 ==> r == n
  {
    n % 0x1_0000
  }

  /** binary.BigEndian.Uint16 on the first two bytes. */
  function ReadU16(b: seq<byte>): (v: u16)
    requires |b| >= 2
  {
    b[0] as int * 0x100 + b[1] as int
  }

  /** binary.BigEndian.Uint32 on the first four bytes. */
  function ReadU32(b: seq<byte>): (v: u32)
    requires |b| >= 4
  {
    b[0] as int * 0x100_0000 + b[1] as int * 0x1_0000 + b[2] as int * 0x100 + b[3] as int
  }

  /** binary.LittleEndian.PutUint32 into a fresh 4-byte buffer. */
  function PutU32LE(v: u32): (r: seq<byte>)
    ensures |r| == 4
    ensures ReadU32([r[3], r[2], r[1], r[0]]) == v
  {
    var q1 := v / 0x100;
    var q2 := q1 / 0x100;
    var q3 := q2 / 0x100;
    assert v == q1 * 0x100 + v % 0x100;
    assert q1 == q2 * 0x100 + q1 % 0x100;
    assert q2 == q3 * 0x100 + q2 % 0x100;
    assert q3 < 0x100;
    [v % 0x100, q1 % 0x100, q2 % 0x100, q3]
  }

  /** 2 to the power `n`: the bound on an `n`-bit value. */
  function Pow2(n: nat): nat
  {
    if n == 0 then 1 else 2 * Pow2(n - 1)
  }

  /** Bitwise XOR of the low `n` bits of `a` and `b`, one bit at a time. */
  function XorBits(a: nat, b: nat, n: nat): (r: nat)
    ensures r < Pow2(n)
  {
    if n == 0 then 0 else (a % 2 + b % 2) % 2 + 2 * XorBits(a / 2, b / 2, n - 1)
  }

  /** Go's `^` on two bytes; XorInvolution shows that applying it twice with the same key gives `a` back. */
  function Xor(a: byte, b: byte): (r: byte)
  {
    XorBits(a, b, 8)
  }

  lemma {:induction false} XorBitsInvolution(a: nat, k: nat, n: nat)
    requires a < Pow2(n)
    ensures XorBits(XorBits(a, k, n), k, n) == a
  {
    if n > 0 {
      var r := XorBits(a, k, n);
      XorBitsLow(a, k, n);
      XorBitsLow(r, k, n);
      assert a / 2 < Pow2(n - 1);
      XorBitsInvolution(a / 2, k / 2, n - 1);
      var x := XorBits(r, k, n);
      assert x / 2 == a / 2;
      XorBitTwice(a % 2, k % 2);
      DivModOf(x, 2, a / 2, a % 2);
    }
  }

  /** One bit XORed twice with the same key bit. */
  lemma XorBitTwice(p: int, q: int)
    requires 0 <= p < 2 && 0 <= q < 2
    ensures ((p + q) % 2 + q) % 2 == p
  {
  }

  /** The lowest bit of XorBits, and the bits above it. */
  lemma XorBitsLow(a: nat, b: nat, n: nat)
    requires n > 0
    ensures XorBits(a, b, n) % 2 == (a % 2 + b % 2) % 2
    ensures XorBits(a, b, n) / 2 == XorBits(a / 2, b / 2, n - 1)
  {
    DivModOf(XorBits(a, b, n), 2, XorBits(a / 2, b / 2, n - 1), (a % 2 + b % 2) % 2);
  }

  /** XOR with the same key byte twice gives the original byte back. */
  lemma XorInvolution(a: byte, k: byte)
    ensures Xor(Xor(a, k), k) == a
  {
    assert Pow2(8) == 0x100;
    XorBitsInvolution(a, k, 8);
  }

  /**
   * The bytes of an ASCII string literal (Go's `[]byte("...")`); every
   * literal this model converts is ASCII, so the reduction modulo 256 never
   * changes a character.
   */
  function Ascii(s: string): (r: seq<byte>)
    ensures |r| == |s|
    ensures forall i :: 0 <= i < |s| && s[i] < 0x100 as char ==> r[i] == s[i] as int
  {
    seq(|s|, i requires 0 <= i < |s| => s[i] as int % 0x100)
  }

  /** A run of `n` zero bytes (Go's `make([]byte, n)`). */
  function Zeros(n: nat): (r: seq<byte>)
    ensures |r| == n && forall i :: 0 <= i < n ==> r[i] == 0
  {
    seq(n, _ => 0)
  }

  /** Quotient and remainder are determined by any exact decomposition. */
  lemma DivModOf(r: int, d: int, q: int, k: int)
    requires d > 0 && 0 <= k < d && r == q * d + k
    ensures r / d == q && r % d == k
  {
    var q', k' := r / d, r % d;
    assert (q' - q) * d == k - k';
    MulMono(q' - q, 1, d);
    MulMono(q - q', 1, d);
  }

  lemma MulMono(a: int, b: int, d: int)
    ensures a >= b && d > 0 ==> a * d >= b * d
  {
  }

  /**
   * A 16-bit value split at the bit positions the STUN message type uses:
   * bits 0-3, bit 4, bits 5-7, bit 8, bits 9-13 and bits 14 and up.
   */
  lemma TypeFields(m: nat)
    ensures m == m % 16 + 16 * ((m / 16) % 2) + 32 * ((m / 32) % 8) + 256 * ((m / 256) % 2)
                 + 512 * ((m / 512) % 32) + 16384 * (m / 16384)
  {
    var q1 := m / 16;
    var q2 := q1 / 2;
    var q3 := q2 / 8;
    var q4 := q3 / 2;
    var q5 := q4 / 32;
    DivModOf(m, 32, q2, m % 16 + 16 * (q1 % 2));
    DivModOf(m, 256, q3, m % 16 + 16 * (q1 % 2) + 32 * (q2 % 8));
    DivModOf(m, 512, q4, m % 16 + 16 * (q1 % 2) + 32 * (q2 % 8) + 256 * (q3 % 2));
    DivModOf(m, 16384, q5, m % 16 + 16 * (q1 % 2) + 32 * (q2 % 8) + 256 * (q3 % 2) + 512 * (q4 % 32));
  }
}
