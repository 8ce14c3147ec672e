/**
 * internal/helpers_turn.go: the XOR obfuscation of transport addresses
 * used by XOR-MAPPED-ADDRESS and XOR-PEER-ADDRESS (section 15.2 of
 * RFC 5389).
 *
 * An IP address is the byte slice netip.Addr.AsSlice returns: 4 bytes for
 * an IPv4 address, 16 for an IPv6 address and none for the zero Addr.
 */
module HelpersTurn {
  import opened Results
  import opened Bytes
  import opened Helper
  import opened TypesStun

  /** The key byte that xor pairs with content byte `i`: the key is repeated as often as needed. */
  function Xored(content: seq<byte>, key: seq<byte>): (r: seq<byte>)
    requires |content| == 0 || |key| > 0
    ensures |r| == |content|
  {
    seq(|content|, i requires 0 <= i < |content| => Xor(content[i], key[i % |key|]))
  }

  /**
   * xor: walks the content with a key index that wraps to 0 at the end of
   * the key. Go indexes key[0] of an empty key and panics, so a non-empty
   * content needs a non-empty key.
   */
  method XorBuffer(content: seq<byte>, key: seq<byte>) returns (buf: seq<byte>)
    requires |content| == 0 || |key| > 0
    ensures buf == Xored(content, key)
  {
    buf := [];
    var index := 0;
    ghost var rounds := 0;
    for i := 0 to |content|
      invariant |buf| == i && 0 <= index <= |key|
      invariant i == rounds * |key| + index
      invariant forall j :: 0 <= j < i ==> buf[j] == Xor(content[j], key[j % |key|])
    {
      if index >= |key| {
        index := 0;
        rounds := rounds + 1;
      }
      DivModOf(i, |key|, rounds, index);
      buf := buf + [Xor(content[i], key[index])];
      index := index + 1;
    }
  }

  /** xor with the same key twice gives the content back. */
  lemma XoredInvolution(content: seq<byte>, key: seq<byte>)
    requires |content| == 0 || |key| > 0
    ensures Xored(Xored(content, key), key) == content
  {
    var once := Xored(content, key);
    forall i | 0 <= i < |content| ensures Xored(once, key)[i] == content[i] {
      XorInvolution(content[i], key[i % |key|]);
    }
  }

  /** The high 16 bits of the magic cookie, binary.BigEndian.Uint16(MagicCookie). */
  const MagicInt: u16 := 0x2112

  /** Go's `^` on two uint16 values: the XOR of the high bytes above the XOR of the low bytes. */
  function XorU16(a: u16, b: u16): (r: u16)
  {
    Xor(a / 0x100, b / 0x100) * 0x100 + Xor(a % 0x100, b % 0x100)
  }

  lemma XorU16Involution(a: u16, k: u16)
    ensures XorU16(XorU16(a, k), k) == a
  {
    var hi, lo := Xor(a / 0x100, k / 0x100), Xor(a % 0x100, k % 0x100);
    DivModOf(XorU16(a, k), 0x100, hi, lo);
    XorInvolution(a / 0x100, k / 0x100);
    XorInvolution(a % 0x100, k % 0x100);
  }

  /** The errors of xorAddr and ConvertXORAddr. */
  datatype AddrError =
    | InvalidIpAddress(ip: seq<byte>)
    | InvalidBufferLength(length: nat)
    | InvalidFamily(family: seq<byte>)
    | InvalidIp(host: seq<byte>)

  predicate Is4(ip: seq<byte>) { |ip| == 4 }
  predicate Is6(ip: seq<byte>) { |ip| == 16 }

  /**
   * xorAddr: family 0x0002 and the key cookie ++ transaction ID for IPv6,
   * family 0x0001 and the cookie alone for IPv4, anything else refused;
   * then the family, the port XOR 0x2112 and the XORed address bytes.
   */
  function XorAddr(ip: seq<byte>, port: u16, transactionId: seq<byte>): (r: Result<seq<byte>, AddrError>)
    ensures r.Err? <==> !Is4(ip) && !Is6(ip)
    ensures r.Ok? ==> |r.value| == 4 + |ip| && ReadU16(r.value[2..4]) == XorU16(port, MagicInt)
    ensures r.Ok? ==> ReadU16(r.value[0..2]) == (if Is6(ip) then 2 else 1)
    ensures r.Ok? ==> r.value[4..] == Xored(ip, if Is6(ip) then MagicCookie + transactionId else MagicCookie)
  {
    if Is6(ip) then
      var buf := PutUint16(2) + PutUint16(XorU16(port, MagicInt)) + Xored(ip, MagicCookie + transactionId);
      assert buf[0..2] == PutUint16(2) && buf[2..4] == PutUint16(XorU16(port, MagicInt));
      assert buf[4..] == Xored(ip, MagicCookie + transactionId);
      Ok(buf)
    else if Is4(ip) then
      var buf := PutUint16(1) + PutUint16(XorU16(port, MagicInt)) + Xored(ip, MagicCookie);
      assert buf[0..2] == PutUint16(1) && buf[2..4] == PutUint16(XorU16(port, MagicInt));
      assert buf[4..] == Xored(ip, MagicCookie);
      Ok(buf)
    else Err(InvalidIpAddress(ip))
  }

  /** The key ConvertXORAddr uses for a family byte: the cookie, extended by the ID for IPv6. */
  function AddrKey(familyLow: byte, transactionId: seq<byte>): (key: seq<byte>)
    ensures |key| >= 4 && key[..4] == MagicCookie
  {
    if familyLow == 0x02 then MagicCookie + transactionId else MagicCookie
  }

  /**
   * ConvertXORAddr: at least 5 bytes, family 0x0001 or 0x0002, the port
   * XOR 0x2112, and the rest XORed back into an address that must be 4 or
   * 16 bytes long.
   */
  function ConvertXorAddr(input: seq<byte>, transactionId: seq<byte>): (r: Result<(seq<byte>, u16), AddrError>)
    ensures |input| < 5 ==> r == Err(InvalidBufferLength(|input|))
    ensures r.Ok? <==> |input| >= 5 && (input[0..2] == [0, 1] || input[0..2] == [0, 2])
                       && (Is4(input[4..]) || Is6(input[4..]))
    ensures r.Ok? ==> r.value.1 == XorU16(ReadU16(input[2..4]), MagicInt)
                      && r.value.0 == Xored(input[4..], AddrKey(input[1], transactionId))
  {
    if |input| < 5 then Err(InvalidBufferLength(|input|))
    else
      var family := input[0..2];
      if family != [0, 1] && family != [0, 2] then Err(InvalidFamily(family))
      else
        var port := XorU16(ReadU16(input[2..4]), MagicInt);
        var host := Xored(input[4..], AddrKey(family[1], transactionId));
        if !Is4(host) && !Is6(host) then Err(InvalidIp(host))
        else Ok((host, port))
  }

  /** Decoding what xorAddr encoded, with the same transaction ID, gives the address and port back. */
  lemma XorAddrRoundTrip(ip: seq<byte>, port: u16, transactionId: seq<byte>)
    requires Is4(ip) || Is6(ip)
    ensures XorAddr(ip, port, transactionId).Ok?
    ensures ConvertXorAddr(XorAddr(ip, port, transactionId).value, transactionId) == Ok((ip, port))
  {
    var buf := XorAddr(ip, port, transactionId).value;
    var key := if Is6(ip) then MagicCookie + transactionId else MagicCookie;
    assert buf[0..2] == PutUint16(if Is6(ip) then 2 else 1);
    assert buf[4..] == Xored(ip, key);
    assert AddrKey(buf[1], transactionId) == key;
    XoredInvolution(ip, key);
    XorU16Involution(port, MagicInt);
  }

  /** The byte XORs of the encoding example. */
  lemma XorEncodeBytes()
    ensures Xor(127, 0x21) == 0x5e && Xor(0, 0x12) == 0x12 && Xor(0, 0xa4) == 0xa4 && Xor(1, 0x42) == 0x43
  {
    assert Pow2(8) == 0x100;
    XorZeroLeft(0x12, 8);
    XorZeroLeft(0xa4, 8);
    Xor127();
    Xor1();
  }

  /** The byte XORs of the decoding example. */
  lemma XorDecodeBytes()
    ensures Xor(0x21, 0x21) == 0 && Xor(0x12, 0x12) == 0 && Xor(0xa4, 0xa4) == 0 && Xor(0x42, 0x42) == 0
  {
    XorSelfZero(0x21, 8);
    XorSelfZero(0x12, 8);
    XorSelfZero(0xa4, 8);
    XorSelfZero(0x42, 8);
  }

  lemma Xor127()
    ensures XorBits(127, 0x21, 8) == 0x5e
  {
    assert XorBits(0, 0, 1) == 0;
    assert XorBits(1, 0, 2) == 1;
    assert XorBits(3, 1, 3) == 2;
    assert XorBits(7, 2, 4) == 5;
    assert XorBits(15, 4, 5) == 11;
    assert XorBits(31, 8, 6) == 23;
    assert XorBits(63, 16, 7) == 47;
    assert XorBits(127, 33, 8) == 94;
  }

  lemma Xor1()
    ensures XorBits(1, 0x42, 8) == 0x43
  {
    assert XorBits(0, 0, 1) == 0;
    assert XorBits(0, 1, 2) == 1;
    assert XorBits(0, 2, 3) == 2;
    assert XorBits(0, 4, 4) == 4;
    assert XorBits(0, 8, 5) == 8;
    assert XorBits(0, 16, 6) == 16;
    assert XorBits(0, 33, 7) == 33;
    assert XorBits(1, 66, 8) == 67;
  }

  /** A value XORed with itself is zero. */
  lemma {:induction false} XorSelfZero(a: nat, n: nat)
    ensures XorBits(a, a, n) == 0
  {
    if n > 0 {
      XorSelfZero(a / 2, n - 1);
    }
  }

  /** XOR with zero keeps the low `n` bits. */
  lemma {:induction false} XorZeroLeft(a: nat, n: nat)
    requires a < Pow2(n)
    ensures XorBits(0, a, n) == a
  {
    if n > 0 {
      XorZeroLeft(a / 2, n - 1);
    }
  }

  /** Port 22 of the encoding example, one byte at a time. */
  lemma XorPort22()
    ensures XorU16(22, MagicInt) == 0x2104
  {
    assert Pow2(8) == 0x100;
    XorZeroLeft(0x21, 8);
    Xor22();
  }

  /** Port 0x2142 of the decoding example, one byte at a time. */
  lemma XorPort2142()
    ensures XorU16(0x2142, MagicInt) == 80
  {
    XorSelfZero(0x21, 8);
    Xor42();
    assert Xor(0x2142 / 0x100, MagicInt / 0x100) == 0;
    assert Xor(0x2142 % 0x100, MagicInt % 0x100) == 0x50;
  }

  lemma Xor22()
    ensures XorBits(22, 0x12, 8) == 0x04
  {
    assert XorBits(0, 0, 1) == 0;
    assert XorBits(0, 0, 2) == 0;
    assert XorBits(0, 0, 3) == 0;
    assert XorBits(1, 1, 4) == 0;
    assert XorBits(2, 2, 5) == 0;
    assert XorBits(5, 4, 6) == 1;
    assert XorBits(11, 9, 7) == 2;
    assert XorBits(22, 18, 8) == 4;
  }

  lemma Xor42()
    ensures XorBits(0x42, 0x12, 8) == 0x50
  {
    assert XorBits(0, 0, 1) == 0;
    assert XorBits(1, 0, 2) == 1;
    assert XorBits(2, 0, 3) == 2;
    assert XorBits(4, 1, 4) == 5;
    assert XorBits(8, 2, 5) == 10;
    assert XorBits(16, 4, 6) == 20;
    assert XorBits(33, 9, 7) == 40;
    assert XorBits(66, 18, 8) == 80;
  }

  /** xor of a 4-byte content with a 4-byte key pairs the bytes up one to one. */
  lemma XoredFour(c: seq<byte>, k: seq<byte>)
    requires |c| == 4 && |k| == 4
    ensures Xored(c, k) == [Xor(c[0], k[0]), Xor(c[1], k[1]), Xor(c[2], k[2]), Xor(c[3], k[3])]
  {
  }

  /** An IPv4 address is written with family 0x0001 and keyed by the cookie alone. */
  lemma XorAddrIpv4(ip: seq<byte>, port: u16, transactionId: seq<byte>)
    requires Is4(ip)
    ensures XorAddr(ip, port, transactionId) == Ok(PutUint16(1) + PutUint16(XorU16(port, MagicInt)) + Xored(ip, MagicCookie))
  {
  }

  /** helpers_turn_test.go: 127.0.0.1:22 encodes to 00 01 21 04 5e 12 a4 43. */
  lemma XorAddrExample()
    ensures XorAddr([127, 0, 0, 1], 22, Ascii("ASDF")) == Ok([0x00, 0x01, 0x21, 0x04, 0x5e, 0x12, 0xa4, 0x43])
  {
    var ip: seq<byte> := [127, 0, 0, 1];
    XorAddrIpv4(ip, 22, Ascii("ASDF"));
    XoredExample();
    XorPort22();
    var family, port, addr := PutUint16(1), PutUint16(XorU16(22, MagicInt)), Xored(ip, MagicCookie);
    assert family == [0x00, 0x01];
    assert port == [0x21, 0x04];
    assert addr == [0x5e, 0x12, 0xa4, 0x43];
    Concat224(family, port, addr);
  }

  /** The address bytes of 127.0.0.1 keyed by the magic cookie. */
  lemma XoredExample()
    ensures Xored([127, 0, 0, 1], MagicCookie) == [0x5e, 0x12, 0xa4, 0x43]
  {
    XorEncodeBytes();
    XoredFour([127, 0, 0, 1], MagicCookie);
  }

  /** A 2-, a 2- and a 4-byte piece laid end to end. */
  lemma Concat224(a: seq<byte>, b: seq<byte>, c: seq<byte>)
    requires |a| == 2 && |b| == 2 && |c| == 4
    ensures a + b + c == [a[0], a[1], b[0], b[1], c[0], c[1], c[2], c[3]]
  {
  }

  /** helpers_turn_test.go: 00 01 21 42 21 12 a4 42 decodes to 0.0.0.0 port 80. */
  lemma ConvertXorAddrExample()
    ensures ConvertXorAddr([0x00, 0x01, 0x21, 0x42, 0x21, 0x12, 0xa4, 0x42], Ascii("ASDF")) == Ok(([0, 0, 0, 0], 80))
  {
    XorDecodeBytes();
    XorPort2142();
    var input: seq<byte> := [0x00, 0x01, 0x21, 0x42, 0x21, 0x12, 0xa4, 0x42];
    assert input[4..] == MagicCookie;
    XoredFour(MagicCookie, MagicCookie);
  }
}
