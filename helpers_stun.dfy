/** internal/helpers_stun.go: 4-byte alignment of STUN attribute values. */
module HelpersStun {
  import opened Bytes

  /**
   * align: (n + 3) & 0xfffc computed on uint16, so the sum wraps and the
   * two low bits are cleared.
   */
  function Align(n: u16): (r: u16)
    ensures r % 4 == 0
    ensures n <= 0xfffc ==> n <= r < n + 4
    ensures n > 0xfffc ==> r == 0
  {
    ToU16(n + 3) / 4 * 4
  }

  /** Align(n) is the smallest multiple of 4 not below n, when there is one in uint16. */
  lemma AlignIsLeast(n: u16, m: nat)
    requires n <= 0xfffc
    requires m % 4 == 0 && m >= n
    ensures Align(n) <= m
  {
  }

  /** The number of zero bytes Padding appends: align(length) - length on uint16. */
  function PadLength(len: nat): (p: nat)
    ensures p < 4 && (len + p) % 4 == 0
    ensures len % 4 == 0 ==> p == 0
  {
    var length := ToU16(len);
    (Align(length) - length) % 0x1_0000
  }

  /** The padding depends only on the length modulo 4. */
  lemma PadLengthShift(n: nat)
    ensures PadLength(4 + n) == PadLength(n)
  {
    PadUnique(n, PadLength(n));
    PadUnique(4 + n, PadLength(4 + n));
    DivModOf(4 + n, 4, 1 + n / 4, n % 4);
  }

  /** The only amount below 4 that brings a length to a multiple of 4. */
  lemma PadUnique(len: nat, p: nat)
    requires p < 4 && (len + p) % 4 == 0
    ensures p == (4 - len % 4) % 4
  {
    var k := len % 4;
    DivModOf(len + p, 4, len / 4 + (k + p) / 4, (k + p) % 4);
  }

  /**
   * Padding: the input followed by zero bytes up to a multiple of 4. The
   * uint16 truncation of the length does not matter, since 65536 is a
   * multiple of 4.
   */
  function Padding(b: seq<byte>): (r: seq<byte>)
    ensures |r| % 4 == 0 && |b| <= |r| < |b| + 4
    ensures r[..|b|] == b
    ensures forall i :: |b| <= i < |r| ==> r[i] == 0
  {
    b + Zeros(PadLength(|b|))
  }

  /** Padding an already padded buffer changes nothing. */
  lemma PaddingIdempotent(b: seq<byte>)
    ensures Padding(Padding(b)) == Padding(b)
  {
    assert Zeros(0) == [];
  }

  /** The padded lengths from internal/helpers_stun_test.go. */
  lemma PaddingVectors(b: seq<byte>)
    ensures |b| == 0 ==> |Padding(b)| == 0
    ensures |b| == 3 ==> |Padding(b)| == 4
    ensures |b| == 5 ==> |Padding(b)| == 8
    ensures |b| == 4 ==> |Padding(b)| == 4
    ensures |b| == 32 ==> |Padding(b)| == 32
  {
  }
}
